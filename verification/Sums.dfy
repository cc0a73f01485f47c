/** Sums over integer sequences. */
module Sums {

  function Sum(s: seq<int>): int
  {
    if s == [] then 0 else Sum(s[..|s| - 1]) + s[|s| - 1]
  }

  lemma SumAppend(s: seq<int>, x: int)
    ensures Sum(s + [x]) == Sum(s) + x
  {
    assert (s + [x])[..|s|] == s;
  }

  lemma {:induction false} SumUpdate(s: seq<int>, p: nat, x: int)
    requires p < |s|
    ensures Sum(s[p := x]) == Sum(s) - s[p] + x
  {
    var n := |s| - 1;
    if p == n {
      assert s[p := x][..n] == s[..n];
    } else {
      assert s[p := x][..n] == s[..n][p := x];
      SumUpdate(s[..n], p, x);
    }
  }

  lemma {:induction false} SumZero(s: seq<int>)
    requires forall k :: 0 <= k < |s| ==> s[k] == 0
    ensures Sum(s) == 0
  {
    if s != [] { SumZero(s[..|s| - 1]); }
  }

  lemma {:induction false} SumMonotone(s: seq<int>, t: seq<int>)
    requires |s| == |t| && forall k :: 0 <= k < |s| ==> s[k] <= t[k]
    ensures Sum(s) <= Sum(t)
  {
    if s != [] { SumMonotone(s[..|s| - 1], t[..|s| - 1]); }
  }

  lemma {:induction false} SumNonNegative(s: seq<int>)
    requires forall k :: 0 <= k < |s| ==> s[k] >= 0
    ensures Sum(s) >= 0
  {
    if s != [] { SumNonNegative(s[..|s| - 1]); }
  }

  /** n times a, added up. */
  function Times(n: nat, a: nat): nat { if n == 0 then 0 else Times(n - 1, a) + a }

  lemma {:induction false} TimesIs(n: nat, a: nat)
    ensures Times(n, a) == n * a
  {
    if n > 0 {
      TimesIs(n - 1, a);
      assert n * a == (n - 1) * a + a;
    }
  }

  lemma {:induction false} TimesSum(n: nat, a: nat, b: nat)
    ensures Times(n, a + b) == Times(n, a) + Times(n, b)
  {
    if n > 0 { TimesSum(n - 1, a, b); }
  }

  lemma {:induction false} TimesMonotone(n: nat, a: nat)
    requires n > 0
    ensures Times(n, a) >= a
  {
    if n > 1 { TimesMonotone(n - 1, a); }
  }
}
