/** Order-aware facts about sequences and strings that several modules share. */
module Sequences {

  /** `s` begins with `p`. */
  predicate IsPrefix<T(==)>(p: seq<T>, s: seq<T>) {
    |p| <= |s| && s[..|p|] == p
  }

  /** `p` occurs in `s` as a contiguous piece: Python's `p in s` on strings. */
  predicate IsSubstring<T(==)>(p: seq<T>, s: seq<T>)
    decreases |s|
  {
    IsPrefix(p, s) || (|s| > 0 && IsSubstring(p, s[1..]))
  }

  /** `xs` is `ys` with some elements deleted and the rest kept in their order. */
  predicate Subsequence<T(==)>(xs: seq<T>, ys: seq<T>)
    decreases |ys|
  {
    if |xs| == 0 then true
    else if |ys| == 0 then false
    else if xs[0] == ys[0] then Subsequence(xs[1..], ys[1..])
    else Subsequence(xs, ys[1..])
  }
}
