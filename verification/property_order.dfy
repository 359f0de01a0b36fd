/**
  The order in which JavaScript's `Object.keys` lists the properties of an
  object built by `JSON.parse` (OrdinaryOwnPropertyKeys, section 10.1.11.1 of
  ECMA-262): first the keys that are array indices, by ascending numeric
  value, then the other string keys in the order they were created, which for
  a parsed object is the textual order of the members.
 */
module PropertyOrder {

  /** 2^32 - 1: the array index bound of section 6.1.7 of ECMA-262. */
  const IndexBound: nat := 0xFFFF_FFFF

  predicate IsDigit(c: char) {
    '0' <= c <= '9'
  }

  predicate AllDigits(s: string) {
    forall i :: 0 <= i < |s| ==> IsDigit(s[i])
  }

  /** The decimal value of a string of digits; `Object.keys` orders array-index keys by it. */
  function DigitsValue(s: string): nat
    requires AllDigits(s)
  {
    if |s| == 0 then 0 else DigitsValue(s[..|s| - 1]) * 10 + (s[|s| - 1] as int - '0' as int)
  }

  /**
    An array index: the canonical decimal spelling (no sign, no leading zero)
    of an integer below 2^32 - 1.
   */
  predicate IsArrayIndex(s: string) {
    && |s| > 0
    && AllDigits(s)
    && (s[0] == '0' ==> |s| == 1)
    && DigitsValue(s) < IndexBound
  }

  /**
    The position, among keys in textual order, of the key `Object.keys(o)[0]`
    returns: the array index of least value if there is one, the first key
    otherwise.
   */
  function FirstKeyPosition(keys: seq<string>): (p: nat)
    requires |keys| > 0
    ensures p < |keys|
    ensures (exists i :: 0 <= i < |keys| && IsArrayIndex(keys[i])) <==> IsArrayIndex(keys[p])
    ensures IsArrayIndex(keys[p]) ==>
      forall i :: 0 <= i < |keys| && IsArrayIndex(keys[i]) ==> DigitsValue(keys[p]) <= DigitsValue(keys[i])
    ensures !IsArrayIndex(keys[p]) ==> p == 0
  {
    if |keys| == 1 then 0
    else
      var q := 1 + FirstKeyPosition(keys[1..]);
      assert keys[q] == keys[1..][q - 1];
      assert forall i :: 1 <= i < |keys| ==> keys[i] == keys[1..][i - 1];
      if IsArrayIndex(keys[q]) && (!IsArrayIndex(keys[0]) || DigitsValue(keys[q]) < DigitsValue(keys[0])) then q
      else 0
  }

  /** A key holding a `-`, as every date `YYYY-MM-DD` does, is never an array index. */
  lemma DashedKeyIsNoIndex(s: string)
    requires '-' in s
    ensures !IsArrayIndex(s)
  {
  }

  /** When no key is an array index, as with date keys, `Object.keys` starts with the first member. */
  lemma DateKeysKeepTextualOrder(keys: seq<string>)
    requires |keys| > 0
    requires forall i :: 0 <= i < |keys| ==> '-' in keys[i]
    ensures FirstKeyPosition(keys) == 0
  {
    var p := FirstKeyPosition(keys);
    DashedKeyIsNoIndex(keys[p]);
  }
}
