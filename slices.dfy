/**
  The two helpers of Go's `slices` package that the configuration code relies on,
  written as recursive functions over sequences.
 */
module Slices {

  /** `slices.Contains`: whether `v` occurs in `s`. */
  function Contains<T(==)>(s: seq<T>, v: T): (r: bool)
    ensures r <==> v in s
  {
    if |s| == 0 then false
    else s[0] == v || Contains(s[1..], v)
  }

  /** `slices.IndexFunc`: the lowest index whose element satisfies `f`, or -1 when none does. */
  function IndexFunc<T>(s: seq<T>, f: T -> bool): (r: int)
    ensures -1 <= r < |s|
    ensures r == -1 <==> (forall i :: 0 <= i < |s| ==> !f(s[i]))
    ensures 0 <= r ==> f(s[r]) && (forall j :: 0 <= j < r ==> !f(s[j]))
  {
    if |s| == 0 then -1
    else if f(s[0]) then 0
    else
      var k := IndexFunc(s[1..], f);
      if k == -1 then -1 else k + 1
  }

  /** Two tests that agree on every element of `s` find the same index. */
  lemma IndexFuncAgrees<T>(s: seq<T>, f: T -> bool, g: T -> bool)
    requires forall i :: 0 <= i < |s| ==> f(s[i]) == g(s[i])
    ensures IndexFunc(s, f) == IndexFunc(s, g)
  {
  }
}
