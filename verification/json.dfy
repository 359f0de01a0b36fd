/**
  A JSON value as decoded by Python's `json` module. A decoded dict keeps
  its members in their textual order, so an object is an ordered sequence of
  fields. (The page enumerates object keys in a different order; see
  `PropertyOrder`.)
 */
module Json {
  import opened Results
  import opened Sequences

  datatype Json =
    | JNull
    | JBool(b: bool)
    | JNum(n: real)
    | JStr(s: string)
    | JArr(items: seq<Json>)
    | JObj(fields: seq<Field>)

  datatype Field = Field(key: string, value: Json)

  /** The keys of an object, in order. */
  function Keys(fs: seq<Field>): (ks: seq<string>)
    ensures |ks| == |fs|
  {
    if |fs| == 0 then [] else [fs[0].key] + Keys(fs[1..])
  }

  /** Python's `k in d` on a dict. */
  predicate HasKey(fs: seq<Field>, k: string) {
    k in Keys(fs)
  }

  /** Python's `d.get(k)`: the value stored under `k`, if any. */
  function Lookup(fs: seq<Field>, k: string): (r: Option<Json>)
    ensures r.Some? <==> HasKey(fs, k)
    ensures r.Some? ==> Field(k, r.value) in fs
  {
    if |fs| == 0 then None
    else if fs[0].key == k then Some(fs[0].value)
    else Lookup(fs[1..], k)
  }

  /** Python's `del d[k]` guarded by `if k in d`: the object without its field `k`. */
  function RemoveKey(fs: seq<Field>, k: string): (r: seq<Field>)
    ensures Subsequence(r, fs)
    ensures !HasKey(r, k)
    ensures forall k' :: k' != k ==> Lookup(r, k') == Lookup(fs, k')
    ensures forall f :: f in r <==> f in fs && f.key != k
    ensures !HasKey(fs, k) ==> r == fs
  {
    if |fs| == 0 then []
    else if fs[0].key == k then RemoveKey(fs[1..], k)
    else
      var rest := RemoveKey(fs[1..], k);
      assert ([fs[0]] + rest)[1..] == rest;
      [fs[0]] + rest
  }

  /** Two objects with the same keys, in the same order, find a key at the same position. */
  lemma {:induction false} LookupSameKeys(fs: seq<Field>, gs: seq<Field>, k: string)
    requires Keys(fs) == Keys(gs)
    ensures Lookup(fs, k).Some? <==> Lookup(gs, k).Some?
    ensures Lookup(fs, k).Some? ==>
      exists i :: 0 <= i < |fs| && fs[i].key == k && gs[i].key == k
        && Lookup(fs, k) == Some(fs[i].value) && Lookup(gs, k) == Some(gs[i].value)
  {
    if |fs| > 0 {
      assert Keys(fs)[0] == Keys(gs)[0];
      assert Keys(fs[1..]) == Keys(fs)[1..] == Keys(gs)[1..] == Keys(gs[1..]);
      if fs[0].key != k {
        LookupSameKeys(fs[1..], gs[1..], k);
        if Lookup(fs, k).Some? {
          var i :| 0 <= i < |fs[1..]| && fs[1..][i].key == k && gs[1..][i].key == k
            && Lookup(fs[1..], k) == Some(fs[1..][i].value) && Lookup(gs[1..], k) == Some(gs[1..][i].value);
          assert fs[i + 1].key == k && gs[i + 1].key == k;
        }
      } else {
        assert fs[0].key == k && gs[0].key == k;
      }
    }
  }
}
