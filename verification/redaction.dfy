/**
  The server side of the feed: `get_asteroids_data` in main.py strips every
  `"links"` member that carries the API key before the NASA feed is handed to
  the browser. The request itself is left out; the decoded feed is the input.

  Python raises (TypeError, AttributeError or IndexError) whenever the feed
  has a shape the loops do not expect; FastAPI answers every such exception
  with HTTP 500, so the model merges them into one error.
 */
module Redaction {
  import opened Results
  import opened Json
  import opened Sequences

  const LinksKey: string := "links"
  const NeoKey: string := "near_earth_objects"

  /** An exception escaping the handler. */
  datatype HandlerError = Raised

  /**
    `b` is the element `a` of a date list once redacted: an object loses
    exactly its `"links"` member, and its other members keep their values and
    their order.
   */
  ghost predicate AsteroidRedacted(a: Json, b: Json) {
    match a
    case JObj(fs) =>
      && b.JObj?
      && Subsequence(b.fields, fs)
      && !HasKey(b.fields, LinksKey)
      && (forall k :: k != LinksKey ==> Lookup(b.fields, k) == Lookup(fs, k))
      && (forall f :: f in b.fields <==> f in fs && f.key != LinksKey)
    case _ => b == a
  }

  /** Same length, same order, each element redacted. */
  ghost predicate ListRedacted(xs: seq<Json>, ys: seq<Json>) {
    && |ys| == |xs|
    && forall j :: 0 <= j < |xs| ==> AsteroidRedacted(xs[j], ys[j])
  }

  /** A date list keeps its asteroids in number and order; any other date value is unchanged. */
  ghost predicate DateEntryRedacted(v: Json, w: Json) {
    match v
    case JArr(xs) => w.JArr? && ListRedacted(xs, w.items)
    case _ => w == v
  }

  /** The same dates in the same order, each date's value redacted. */
  ghost predicate DatesRedacted(fs: seq<Field>, gs: seq<Field>) {
    && Keys(gs) == Keys(fs)
    && forall i :: 0 <= i < |fs| ==> DateEntryRedacted(fs[i].value, gs[i].value)
  }

  /** A `near_earth_objects` dict has its dates redacted; the empty list or string stays as it is. */
  ghost predicate NeoRedacted(v: Json, w: Json) {
    match v
    case JObj(fs) => w.JObj? && DatesRedacted(fs, w.fields)
    case _ => w == v
  }

  /**
    One element of a date list (main.py:42-44): `if "links" in asteroid:
    del asteroid["links"]`. On a list, `in` is membership and `del` by a
    string index raises; on a string, `in` is a substring test and `del`
    raises; on a number, a boolean or null, `in` itself raises.
   */
  function RedactAsteroid(a: Json): (r: Result<Json, HandlerError>)
    ensures a.JObj? ==> r.Ok?
    ensures r.Ok? ==> AsteroidRedacted(a, r.value)
  {
    match a
    case JObj(fs) => Ok(JObj(RemoveKey(fs, LinksKey)))
    case JArr(xs) => if JStr(LinksKey) in xs then Err(Raised) else Ok(a)
    case JStr(s) => if IsSubstring(LinksKey, s) then Err(Raised) else Ok(a)
    case _ => Err(Raised)
  }

  /** The inner loop of main.py:42 over one date list, element by element. */
  function RedactAsteroids(xs: seq<Json>): (r: Result<seq<Json>, HandlerError>)
    ensures r.Ok? ==> ListRedacted(xs, r.value)
  {
    if |xs| == 0 then Ok([])
    else
      var y :- RedactAsteroid(xs[0]);
      var ys :- RedactAsteroids(xs[1..]);
      Ok([y] + ys)
  }

  /**
    The value stored under one date (main.py:42). Iterating a dict yields its
    keys, each checked with the substring `in`; iterating a string yields
    one-character strings, none of which contains `"links"`; a number, a
    boolean or null is not iterable.
   */
  function RedactDateEntry(v: Json): (r: Result<Json, HandlerError>)
    ensures r.Ok? ==> DateEntryRedacted(v, r.value)
  {
    match v
    case JArr(xs) =>
      var ys :- RedactAsteroids(xs);
      Ok(JArr(ys))
    case JObj(fs) => if KeyMentionsLinks(fs) then Err(Raised) else Ok(v)
    case JStr(_) => Ok(v)
    case _ => Err(Raised)
  }

  /** Some key of the object contains `"links"` as a substring. */
  predicate KeyMentionsLinks(fs: seq<Field>)
  {
    exists i :: 0 <= i < |fs| && IsSubstring(LinksKey, fs[i].key)
  }

  /** The outer loop of main.py:41 over the dates of `near_earth_objects`. */
  function RedactDates(fs: seq<Field>): (r: Result<seq<Field>, HandlerError>)
    ensures r.Ok? ==> DatesRedacted(fs, r.value)
  {
    if |fs| == 0 then Ok([])
    else
      var v :- RedactDateEntry(fs[0].value);
      var rest :- RedactDates(fs[1..]);
      Ok([Field(fs[0].key, v)] + rest)
  }

  /**
    `near_earth_objects` as found by main.py:40 and iterated at main.py:41.
    An empty list or string is iterated zero times. Any other list raises:
    each element is used as an index into the list itself, and an element
    that indexes successfully names an element that is itself a list, a
    string or a dict, which raises once the loop reaches it. Any other
    non-empty string raises on its first one-character index.
   */
  function RedactNeo(v: Json): (r: Result<Json, HandlerError>)
    ensures r.Ok? ==> NeoRedacted(v, r.value)
    ensures v == JArr([]) || v == JStr("") ==> r == Ok(v)
    ensures !v.JObj? && v != JArr([]) && v != JStr("") ==> r.Err?
  {
    match v
    case JObj(fs) =>
      var gs :- RedactDates(fs);
      Ok(JObj(gs))
    case JArr(xs) => if |xs| == 0 then Ok(v) else Err(Raised)
    case JStr(s) => if |s| == 0 then Ok(v) else Err(Raised)
    case _ => Err(Raised)
  }

  /** The top-level fields once `"links"` is gone: only `near_earth_objects` is visited. */
  function RedactTopFields(fs: seq<Field>): (r: Result<seq<Field>, HandlerError>)
    ensures r.Ok? ==> Keys(r.value) == Keys(fs)
    ensures r.Ok? ==> forall i :: 0 <= i < |fs| && fs[i].key != NeoKey ==> r.value[i] == fs[i]
    ensures r.Ok? ==>
      forall i :: 0 <= i < |fs| && fs[i].key == NeoKey ==> NeoRedacted(fs[i].value, r.value[i].value)
  {
    if |fs| == 0 then Ok([])
    else
      var f :- if fs[0].key == NeoKey then
                 var v :- RedactNeo(fs[0].value);
                 Ok(Field(NeoKey, v))
               else Ok(fs[0]);
      var rest :- RedactTopFields(fs[1..]);
      Ok([f] + rest)
  }

  /**
    `get_asteroids_data` after the request (main.py:36-47). A feed that is not
    a dict always raises: on a list or a string `"links" in data` is legal but
    then `del` or `data.get` raises; on anything else `in` raises.
   */
  function Redact(data: Json): (r: Result<Json, HandlerError>)
    ensures r.Ok? ==> data.JObj? && r.value.JObj?
  {
    match data
    case JObj(fs) =>
      var gs :- RedactTopFields(RemoveKey(fs, LinksKey));
      Ok(JObj(gs))
    case _ => Err(Raised)
  }

  /** An element of a date list that is an object has no `"links"` member. */
  ghost predicate AsteroidLinksFree(a: Json) {
    a.JObj? ==> !HasKey(a.fields, LinksKey)
  }

  ghost predicate DateLinksFree(v: Json) {
    v.JArr? ==> forall a :: a in v.items ==> AsteroidLinksFree(a)
  }

  ghost predicate NeoLinksFree(v: Json) {
    v.JObj? ==> forall d :: d in v.fields ==> DateLinksFree(d.value)
  }

  /** No `"links"` member at the top level, nor in any asteroid of any date list. */
  ghost predicate FeedLinksFree(r: Json) {
    && r.JObj?
    && !HasKey(r.fields, LinksKey)
    && forall f :: f in r.fields && f.key == NeoKey ==> NeoLinksFree(f.value)
  }

  /** After a successful reply no `"links"` is left where the handler looks (main.py:36-44). */
  lemma RedactRemovesLinks(data: Json)
    requires Redact(data).Ok?
    ensures FeedLinksFree(Redact(data).value)
  {
    var fs1 := RemoveKey(data.fields, LinksKey);
    var gs := RedactTopFields(fs1).value;
    assert Redact(data).value == JObj(gs);
    assert !HasKey(gs, LinksKey) by {
      assert Keys(gs) == Keys(fs1);
    }
    forall f | f in gs && f.key == NeoKey
      ensures NeoLinksFree(f.value)
    {
      var i :| 0 <= i < |gs| && gs[i] == f;
      assert Keys(gs)[i] == Keys(fs1)[i];
      NeoRedactedIsLinksFree(fs1[i].value, f.value);
    }
  }

  lemma NeoRedactedIsLinksFree(v: Json, w: Json)
    requires NeoRedacted(v, w)
    ensures NeoLinksFree(w)
  {
    if v.JObj? {
      forall d | d in w.fields
        ensures DateLinksFree(d.value)
      {
        var i :| 0 <= i < |w.fields| && w.fields[i] == d;
        var e := v.fields[i].value;
        assert DateEntryRedacted(e, d.value);
        if d.value.JArr? && e.JArr? {
          forall a | a in d.value.items
            ensures AsteroidLinksFree(a)
          {
            var j :| 0 <= j < |d.value.items| && d.value.items[j] == a;
            assert AsteroidRedacted(e.items[j], a);
          }
        }
      }
    }
  }

  /** Every top-level member other than `"links"` and `near_earth_objects` keeps its value, and the members keep their order (main.py:36-40). */
  lemma RedactKeepsOtherMembers(data: Json, k: string)
    requires Redact(data).Ok?
    requires k != LinksKey && k != NeoKey
    ensures Lookup(Redact(data).value.fields, k) == Lookup(data.fields, k)
    ensures Keys(Redact(data).value.fields) == Keys(RemoveKey(data.fields, LinksKey))
  {
    var fs1 := RemoveKey(data.fields, LinksKey);
    var gs := RedactTopFields(fs1).value;
    LookupSameKeys(fs1, gs, k);
    if Lookup(fs1, k).Some? {
      var i :| 0 <= i < |fs1| && fs1[i].key == k && gs[i].key == k
        && Lookup(fs1, k) == Some(fs1[i].value) && Lookup(gs, k) == Some(gs[i].value);
      assert gs[i] == fs1[i];
    }
  }

  /**
    `near_earth_objects` is present in the reply exactly when it was in the
    feed, with the same dates in the same order, the same number of asteroids
    in the same order under each date, and each asteroid object missing only
    its own `"links"`; deeper members are untouched (main.py:40-44).
   */
  lemma RedactNeoMember(data: Json)
    requires Redact(data).Ok?
    ensures Lookup(Redact(data).value.fields, NeoKey).Some? <==> Lookup(data.fields, NeoKey).Some?
    ensures Lookup(data.fields, NeoKey).Some? ==>
      NeoRedacted(Lookup(data.fields, NeoKey).value, Lookup(Redact(data).value.fields, NeoKey).value)
  {
    var fs1 := RemoveKey(data.fields, LinksKey);
    var gs := RedactTopFields(fs1).value;
    LookupSameKeys(fs1, gs, NeoKey);
    if Lookup(fs1, NeoKey).Some? {
      var i :| 0 <= i < |fs1| && fs1[i].key == NeoKey && gs[i].key == NeoKey
        && Lookup(fs1, NeoKey) == Some(fs1[i].value) && Lookup(gs, NeoKey) == Some(gs[i].value);
    }
  }

  /** Without `near_earth_objects` only the top-level `"links"` is removed (main.py:40). */
  lemma RedactWithoutNeo(fs: seq<Field>)
    requires !HasKey(fs, NeoKey)
    ensures Redact(JObj(fs)) == Ok(JObj(RemoveKey(fs, LinksKey)))
  {
    var fs1 := RemoveKey(fs, LinksKey);
    assert !HasKey(fs1, NeoKey) by {
      assert Lookup(fs1, NeoKey) == Lookup(fs, NeoKey);
    }
    TopFieldsWithoutNeo(fs1);
  }

  lemma {:induction false} TopFieldsWithoutNeo(fs: seq<Field>)
    requires !HasKey(fs, NeoKey)
    ensures RedactTopFields(fs) == Ok(fs)
  {
    if |fs| > 0 {
      assert Keys(fs) == [fs[0].key] + Keys(fs[1..]);
      TopFieldsWithoutNeo(fs[1..]);
      assert [fs[0]] + fs[1..] == fs;
    }
  }

  /** Redacting a reply a second time changes nothing (main.py:36-44). */
  lemma RedactIdempotent(data: Json)
    requires Redact(data).Ok?
    ensures Redact(Redact(data).value) == Redact(data)
  {
    var fs1 := RemoveKey(data.fields, LinksKey);
    var gs := RedactTopFields(fs1).value;
    assert !HasKey(gs, LinksKey) by {
      assert Keys(gs) == Keys(fs1);
    }
    TopFieldsFixed(fs1);
  }

  lemma {:induction false} TopFieldsFixed(fs: seq<Field>)
    requires RedactTopFields(fs).Ok?
    ensures RedactTopFields(RedactTopFields(fs).value) == RedactTopFields(fs)
  {
    if |fs| > 0 {
      var gs := RedactTopFields(fs).value;
      TopFieldsFixed(fs[1..]);
      assert gs[1..] == RedactTopFields(fs[1..]).value;
      if fs[0].key == NeoKey {
        NeoFixed(fs[0].value);
      }
    }
  }

  lemma NeoFixed(v: Json)
    requires RedactNeo(v).Ok?
    ensures RedactNeo(RedactNeo(v).value) == RedactNeo(v)
  {
    if v.JObj? {
      DatesFixed(v.fields);
    }
  }

  lemma {:induction false} DatesFixed(fs: seq<Field>)
    requires RedactDates(fs).Ok?
    ensures RedactDates(RedactDates(fs).value) == RedactDates(fs)
  {
    if |fs| > 0 {
      var gs := RedactDates(fs).value;
      DatesFixed(fs[1..]);
      assert gs[1..] == RedactDates(fs[1..]).value;
      DateEntryFixed(fs[0].value);
    }
  }

  lemma DateEntryFixed(v: Json)
    requires RedactDateEntry(v).Ok?
    ensures RedactDateEntry(RedactDateEntry(v).value) == RedactDateEntry(v)
  {
    if v.JArr? {
      AsteroidsFixed(v.items);
    }
  }

  lemma {:induction false} AsteroidsFixed(xs: seq<Json>)
    requires RedactAsteroids(xs).Ok?
    ensures RedactAsteroids(RedactAsteroids(xs).value) == RedactAsteroids(xs)
  {
    if |xs| > 0 {
      var ys := RedactAsteroids(xs).value;
      AsteroidsFixed(xs[1..]);
      assert ys[1..] == RedactAsteroids(xs[1..]).value;
      assert RedactAsteroid(ys[0]) == Ok(ys[0]);
    }
  }

  /** The feed shape NASA sends: `near_earth_objects`, when present, maps dates to lists of asteroid objects. */
  ghost predicate FeedShaped(data: Json) {
    && data.JObj?
    && forall f :: f in data.fields && f.key == NeoKey ==> NeoShaped(f.value)
  }

  ghost predicate NeoShaped(v: Json) {
    && v.JObj?
    && forall d :: d in v.fields ==> d.value.JArr? && forall a :: a in d.value.items ==> a.JObj?
  }

  /** On a feed of the expected shape the handler never raises (main.py:36-47). */
  lemma RedactAcceptsFeed(data: Json)
    requires FeedShaped(data)
    ensures Redact(data).Ok?
  {
    var fs1 := RemoveKey(data.fields, LinksKey);
    TopFieldsAccept(fs1);
  }

  lemma {:induction false} TopFieldsAccept(fs: seq<Field>)
    requires forall f :: f in fs && f.key == NeoKey ==> NeoShaped(f.value)
    ensures RedactTopFields(fs).Ok?
  {
    if |fs| > 0 {
      assert fs[0] in fs;
      TopFieldsAccept(fs[1..]);
      if fs[0].key == NeoKey {
        DatesAccept(fs[0].value.fields);
      }
    }
  }

  lemma {:induction false} DatesAccept(fs: seq<Field>)
    requires forall d :: d in fs ==> d.value.JArr? && forall a :: a in d.value.items ==> a.JObj?
    ensures RedactDates(fs).Ok?
  {
    if |fs| > 0 {
      assert fs[0] in fs;
      DatesAccept(fs[1..]);
      AsteroidsAccept(fs[0].value.items);
    }
  }

  lemma {:induction false} AsteroidsAccept(xs: seq<Json>)
    requires forall a :: a in xs ==> a.JObj?
    ensures RedactAsteroids(xs).Ok?
  {
    if |xs| > 0 {
      assert xs[0] in xs;
      AsteroidsAccept(xs[1..]);
    }
  }
}
