/** What several components need: optional values, bytes, and facts about division. */
module Common {

  datatype Option<T> = None | Some(value: T)

  type byte = bv8

  /** Indices into an arena stand for pointers; this one for none. */
  const NULL: int := -1

  /** Sequences one behind the other. */
  function Flatten<T>(s: seq<seq<T>>): seq<T>
  {
    if s == [] then [] else Flatten(s[..|s| - 1]) + s[|s| - 1]
  }

  lemma FlattenNext<T>(s: seq<seq<T>>, n: nat)
    requires 0 < n <= |s|
    ensures Flatten(s[..n]) == Flatten(s[..n - 1]) + s[n - 1]
  {
    assert s[..n][..n - 1] == s[..n - 1];
  }

  lemma {:induction false} FlattenGrows<T>(s: seq<seq<T>>, t: nat, x: seq<T>)
    requires t < |s|
    ensures multiset(Flatten(s[t := s[t] + x])) == multiset(Flatten(s)) + multiset(x)
  {
    var n := |s| - 1;
    var s' := s[t := s[t] + x];
    if t == n {
      assert s'[..n] == s[..n];
    } else {
      FlattenGrows(s[..n], t, x);
      assert s'[..n] == s[..n][t := s[..n][t] + x];
    }
  }

  lemma {:induction false} FlattenNothing<T>(s: seq<seq<T>>)
    requires forall t :: 0 <= t < |s| ==> s[t] == []
    ensures Flatten(s) == []
  {
    if s != [] { FlattenNothing(s[..|s| - 1]); }
  }

  lemma CountAppend<T>(s: seq<T>, x: T, r: T)
    ensures multiset(s + [x])[r] == multiset(s)[r] + if r == x then 1 else 0
  {
  }

  lemma SameBags<T>(a: seq<T>, b: seq<T>, b': seq<T>, x: seq<T>)
    requires multiset(a) == multiset(b) && multiset(b') == multiset(b) + multiset(x)
    ensures multiset(a + x) == multiset(b')
  {
  }

  /** Quotient and remainder are what the division theorem says. */
  lemma Quotient(n: int, d: int, q: int, r: int)
    requires d > 0 && n == d * q + r && 0 <= r < d
    ensures n / d == q && n % d == r
  {
    var p := n / d;
    assert d * p + n % d == n;
    if p > q { Larger(d, p, q); } else if p < q { Larger(d, q, p); }
  }

  lemma Larger(d: int, a: int, b: int)
    requires d > 0 && a > b
    ensures d * a >= d * b + d
  {
    assert d * a == d * b + d * (a - b);
    assert d * (a - b) == d * (a - b - 1) + d;
    assert d * (a - b - 1) >= 0;
  }
}
