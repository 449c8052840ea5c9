/** Kotlin's list search `indexOfFirst`, used by every guard-list lookup of the engine. */
module Lists {

  /** The index of the first element of `s` that satisfies `p`, or -1 when none does. */
  function IndexOfFirst<T>(s: seq<T>, p: T -> bool): (r: int)
    ensures -1 <= r < |s|
    ensures r == -1 <==> forall i :: 0 <= i < |s| ==> !p(s[i])
    ensures r != -1 ==> p(s[r]) && forall j :: 0 <= j < r ==> !p(s[j])
    decreases |s|
  {
    if |s| == 0 then -1
    else if p(s[0]) then 0
    else
      var k := IndexOfFirst(s[1..], p);
      if k == -1 then -1 else k + 1
  }

  /** Two searches whose predicates agree position by position find the same index. */
  lemma {:induction false} IndexOfFirstCongruent<T, U>(s: seq<T>, p: T -> bool, t: seq<U>, q: U -> bool)
    requires |s| == |t|
    requires forall i :: 0 <= i < |s| ==> p(s[i]) == q(t[i])
    ensures IndexOfFirst(s, p) == IndexOfFirst(t, q)
    decreases |s|
  {
    if |s| > 0 && !p(s[0]) {
      assert forall i :: 0 <= i < |s| - 1 ==> s[1..][i] == s[i + 1] && t[1..][i] == t[i + 1];
      IndexOfFirstCongruent(s[1..], p, t[1..], q);
    }
  }
}
