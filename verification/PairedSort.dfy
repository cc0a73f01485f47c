/** sort: quicksort on `array`, in descending order, every exchange done on `temp` as well. */
module PairedSort {
  import opened Transactions

  /** A permutation of the positions 0 .. |perm|. */
  ghost predicate IsPerm(perm: seq<nat>)
  {
    (forall k :: 0 <= k < |perm| ==> perm[k] < |perm|) && NoRepeats(perm)
  }

  /** perm says where every pair came from. */
  ghost predicate Tracks(perm: seq<nat>, a0: seq<int>, a: seq<int>, t0: seq<int>, t: seq<int>)
  {
    && |perm| == |a0| == |a| == |t0| == |t| && IsPerm(perm)
    && (forall k :: 0 <= k < |a| ==> a[k] == a0[perm[k]] && t[k] == t0[perm[k]])
  }

  function Exchange<T>(s: seq<T>, l: nat, r: nat): seq<T>
    requires l < |s| && r < |s|
  {
    s[l := s[r]][r := s[l]]
  }

  lemma ExchangeTracks(perm: seq<nat>, a0: seq<int>, a: seq<int>, t0: seq<int>, t: seq<int>, l: nat, r: nat)
    requires Tracks(perm, a0, a, t0, t) && l < |a| && r < |a|
    ensures Tracks(Exchange(perm, l, r), a0, Exchange(a, l, r), t0, Exchange(t, l, r))
  {
  }

  ghost predicate Descending(s: seq<int>, i: nat, j: int)
    requires j < |s|
  {
    forall l, r :: i <= l < r <= j ==> s[l] >= s[r]
  }

  /** By the pigeonhole principle a permutation misses no position. */
  lemma Onto(perm: seq<nat>, v: nat) returns (k: nat)
    requires IsPerm(perm) && v < |perm|
    ensures k < |perm| && perm[k] == v
  {
    if v !in perm { Pigeonhole(perm + [v], |perm|); }
    k :| 0 <= k < |perm| && perm[k] == v;
  }

  /** Sorting a segment keeps its values inside the segment. */
  lemma StaysInside(perm: seq<nat>, perm': seq<nat>, i: nat, j: int, m: nat) returns (m': nat)
    requires IsPerm(perm) && IsPerm(perm') && |perm| == |perm'| && j < |perm| && i <= m <= j
    requires forall k :: 0 <= k < |perm| && !(i <= k <= j) ==> perm'[k] == perm[k]
    ensures i <= m' <= j && perm'[m] == perm[m']
  {
    m' := Onto(perm, perm'[m]);
  }

  /** The two calls of swap that always come together. */
  method Swap(keys: array<int>, temp: array<int>, l: nat, r: nat, ghost a0: seq<int>, ghost t0: seq<int>, ghost perm0: seq<nat>)
      returns (ghost perm: seq<nat>)
    requires keys != temp && Tracks(perm0, a0, keys[..], t0, temp[..]) && l < keys.Length == temp.Length && r < keys.Length
    modifies keys, temp
    ensures keys[l] == old(keys[r]) && keys[r] == old(keys[l])
    ensures forall k :: 0 <= k < keys.Length && k != l && k != r ==> keys[k] == old(keys[k])
    ensures |perm0| == |perm| == keys.Length && perm == Exchange(perm0, l, r) && Tracks(perm, a0, keys[..], t0, temp[..])
  {
    ExchangeTracks(perm0, a0, keys[..], t0, temp[..], l, r);
    perm := Exchange(perm0, l, r);
    ghost var a, t := Exchange(keys[..], l, r), Exchange(temp[..], l, r);
    keys[l], keys[r] := keys[r], keys[l];
    temp[l], temp[r] := temp[r], temp[l];
    assert keys[..] == a && temp[..] == t;
  }

  /** Nothing outside i .. j has moved. */
  ghost predicate Outside(perm: seq<nat>, perm0: seq<nat>, i: nat, j: int)
  {
    |perm| == |perm0| && (forall k :: 0 <= k < |perm| && !(i <= k <= j) ==> perm[k] == perm0[k])
  }

  lemma OutsideExchange(perm: seq<nat>, perm0: seq<nat>, i: nat, j: int, l: nat, r: nat)
    requires Outside(perm, perm0, i, j) && i <= l <= j && i <= r <= j && j < |perm|
    ensures Outside(Exchange(perm, l, r), perm0, i, j)
  {
  }

  lemma ExchangeTwice(perm: seq<nat>, l: nat, r: nat)
    requires l < |perm| && r < |perm|
    ensures Exchange(Exchange(perm, l, r), l, r) == perm
  {
  }

  lemma OutsideTrans(perm: seq<nat>, perm1: seq<nat>, perm0: seq<nat>, i: nat, j: int, i1: nat, j1: int)
    requires Outside(perm, perm1, i1, j1) && Outside(perm1, perm0, i, j) && i <= i1 && j1 <= j
    ensures Outside(perm, perm0, i, j)
  {
  }

  /** The segment i .. j of an array whose pairs are tracked. */
  ghost predicate Segment(keys: array<int>, temp: array<int>, i: nat, j: int, a0: seq<int>, t0: seq<int>, perm: seq<nat>)
    reads keys, temp
  {
    && keys != temp && i - 1 <= j < keys.Length == temp.Length
    && Tracks(perm, a0, keys[..], t0, temp[..])
  }

  method InsSort(keys: array<int>, temp: array<int>, i: nat, j: int, ghost a0: seq<int>, ghost t0: seq<int>, ghost perm0: seq<nat>)
      returns (ghost perm: seq<nat>)
    requires Segment(keys, temp, i, j, a0, t0, perm0)
    modifies keys, temp
    ensures Tracks(perm, a0, keys[..], t0, temp[..]) && Outside(perm, perm0, i, j)
    ensures Descending(keys[..], i, j)
  {
    perm := perm0;
    assert |perm0| == keys.Length && Outside(perm, perm0, i, j);
    hide Tracks, IsPerm, Exchange, Outside;
    var k := i + 1;
    while k <= j
      invariant i + 1 <= k && (k <= j + 1 || k == i + 1) && |perm| == keys.Length
      invariant Tracks(perm, a0, keys[..], t0, temp[..]) && Outside(perm, perm0, i, j)
      invariant k <= j + 1 ==> Descending(keys[..], i, k - 1)
    {
      perm := Sink(keys, temp, i, j, k, a0, t0, perm0, perm);
      k := k + 1;
    }
  }

  method Sink(keys: array<int>, temp: array<int>, i: nat, j: int, k: nat, ghost a0: seq<int>, ghost t0: seq<int>, ghost perm0: seq<nat>,
              ghost perm1: seq<nat>) returns (ghost perm: seq<nat>)
    requires keys != temp && i < k <= j < keys.Length == temp.Length == |perm1|
    requires Tracks(perm1, a0, keys[..], t0, temp[..]) && Outside(perm1, perm0, i, j)
    requires Descending(keys[..], i, k - 1)
    modifies keys, temp
    ensures |perm| == |perm1| && Tracks(perm, a0, keys[..], t0, temp[..]) && Outside(perm, perm0, i, j)
    ensures Descending(keys[..], i, k)
  {
    hide Tracks, IsPerm, Exchange, Outside;
    perm := perm1;
    var m := k;
    while m > i && keys[m] > keys[m - 1]
      invariant i <= m <= k && |perm| == keys.Length
      invariant Tracks(perm, a0, keys[..], t0, temp[..]) && Outside(perm, perm0, i, j)
      invariant forall l, r :: i <= l < r <= k && r != m ==> keys[l] >= keys[r]
    {
      OutsideExchange(perm, perm0, i, j, m, m - 1);
      perm := Swap(keys, temp, m, m - 1, a0, t0, perm);
      m := m - 1;
    }
  }

  /** The two scans of partition: `while (array[++l] > pivot)` and `while (r && array[--r] < pivot)`. The second one may
    * run out of the segment on the left, but not below position 0. */
  method Scans(keys: array<int>, i: nat, l: int, r: nat, pivot: int) returns (l': nat, r': nat)
    requires i - 1 <= l < r < keys.Length && r > 0 && keys[r] <= pivot
    requires l >= i ==> keys[l] >= pivot
    ensures l < l' <= r && keys[l'] <= pivot && (forall m :: l < m < l' ==> keys[m] > pivot)
    ensures r' < r && (l >= i ==> l <= r') && (r' == 0 || keys[r'] >= pivot) && (forall m :: r' < m < r ==> keys[m] < pivot)
  {
    l' := l + 1;
    while keys[l'] > pivot
      invariant l < l' <= r
      invariant forall m :: l < m < l' ==> keys[m] > pivot
      decreases r - l'
    {
      l' := l' + 1;
    }
    r' := r - 1;
    while r' != 0 && keys[r'] < pivot
      invariant r' < r && (l >= i ==> l <= r')
      invariant forall m :: r' < m < r ==> keys[m] < pivot
    {
      r' := r' - 1;
    }
  }

  /** partition: the left part ends up at least the pivot, the right part at most. */
  method Partition(keys: array<int>, temp: array<int>, i: nat, j: nat, pivot: int, ghost a0: seq<int>, ghost t0: seq<int>,
                   ghost perm0: seq<nat>) returns (l: nat, ghost perm: seq<nat>)
    requires i < j && Segment(keys, temp, i, j, a0, t0, perm0) && pivot == keys[j]
    modifies keys, temp
    ensures i <= l <= j && keys[j] == pivot
    ensures Tracks(perm, a0, keys[..], t0, temp[..]) && Outside(perm, perm0, i, j - 1)
    ensures forall m :: i <= m < l ==> keys[m] >= pivot
    ensures forall m :: l <= m <= j ==> keys[m] <= pivot
  {
    perm := perm0;
    assert |perm0| == keys.Length && Outside(perm, perm0, i, j - 1);
    hide Tracks, IsPerm, Exchange, Outside;
    var lo: int, r: int := i - 1, j;
    while true
      invariant i - 1 <= lo < r <= j < keys.Length == |perm| && r > 0
      invariant Tracks(perm, a0, keys[..], t0, temp[..]) && Outside(perm, perm0, i, j - 1)
      invariant keys[j] == pivot
      invariant forall m :: i <= m <= lo ==> keys[m] >= pivot
      invariant forall m :: r <= m <= j ==> keys[m] <= pivot
      decreases r - lo
    {
      lo, r := Scans(keys, i, lo, r, pivot);
      ghost var perm1 := perm;
      perm := Swap(keys, temp, lo, r, a0, t0, perm);
      if lo >= r {
        ExchangeTwice(perm1, lo, r);
        perm := Swap(keys, temp, lo, r, a0, t0, perm);
        break;
      }
      OutsideExchange(perm1, perm0, i, j - 1, lo, r);
    }
    l := lo;
  }

  method Sort(keys: array<int>, temp: array<int>, i: nat, j: int, SORTHRESH: nat, ghost a0: seq<int>, ghost t0: seq<int>,
              ghost perm0: seq<nat>) returns (ghost perm: seq<nat>)
    requires Segment(keys, temp, i, j, a0, t0, perm0) && SORTHRESH > 0
    modifies keys, temp
    ensures Tracks(perm, a0, keys[..], t0, temp[..]) && Outside(perm, perm0, i, j)
    ensures Descending(keys[..], i, j)
    decreases j - i + 1, 1
  {
    if j - i < SORTHRESH {
      perm := InsSort(keys, temp, i, j, a0, t0, perm0);
    } else {
      var k: nat;
      k, perm := Split(keys, temp, i, j, a0, t0, perm0);
      ghost var perm1 := perm;
      perm := Halves(keys, temp, i, j, k, SORTHRESH, a0, t0, perm);
      OutsideTrans(perm, perm1, perm0, i, j, i, j);
    }
  }

  /** Choosing the middle element as pivot and putting it where it belongs. */
  method Split(keys: array<int>, temp: array<int>, i: nat, j: nat, ghost a0: seq<int>, ghost t0: seq<int>, ghost perm0: seq<nat>)
      returns (k: nat, ghost perm: seq<nat>)
    requires i < j && Segment(keys, temp, i, j, a0, t0, perm0)
    modifies keys, temp
    ensures Segment(keys, temp, i, j, a0, t0, perm) && Outside(perm, perm0, i, j) && i <= k <= j
    ensures forall m :: i <= m <= j ==> (m < k ==> keys[m] >= keys[k]) && (m > k ==> keys[m] <= keys[k])
  {
    assert |perm0| == keys.Length && Outside(perm0, perm0, i, j);
    hide Tracks, IsPerm, Exchange, Outside;
    var pivotindex := (i + j) / 2;
    OutsideExchange(perm0, perm0, i, j, pivotindex, j);
    perm := Swap(keys, temp, pivotindex, j, a0, t0, perm0);
    ghost var perm1 := perm;
    k, perm := Partition(keys, temp, i, j, keys[j], a0, t0, perm);
    OutsideWider(perm, perm1, i, j);
    OutsideTrans(perm, perm1, perm0, i, j, i, j);
    SameLength(perm, a0, t0, keys[..], temp[..]);
    OutsideExchange(perm, perm0, i, j, k, j);
    perm := Swap(keys, temp, k, j, a0, t0, perm);
  }

  lemma OutsideWider(perm: seq<nat>, perm0: seq<nat>, i: nat, j: int)
    requires Outside(perm, perm0, i, j - 1)
    ensures Outside(perm, perm0, i, j)
  {
  }

  lemma SameLength(perm: seq<nat>, a0: seq<int>, t0: seq<int>, a: seq<int>, t: seq<int>)
    requires Tracks(perm, a0, a, t0, t)
    ensures |perm| == |a|
  {
  }

  /** The recursive calls on both sides of the pivot. */
  method Halves(keys: array<int>, temp: array<int>, i: nat, j: nat, k: nat, SORTHRESH: nat, ghost a0: seq<int>, ghost t0: seq<int>,
                ghost perm0: seq<nat>) returns (ghost perm: seq<nat>)
    requires Segment(keys, temp, i, j, a0, t0, perm0) && SORTHRESH > 0 && i <= k <= j
    requires forall m :: i <= m <= j ==> (m < k ==> keys[m] >= keys[k]) && (m > k ==> keys[m] <= keys[k])
    modifies keys, temp
    ensures Tracks(perm, a0, keys[..], t0, temp[..]) && Outside(perm, perm0, i, j)
    ensures Descending(keys[..], i, j)
    decreases j - i + 1, 0
  {
    assert |perm0| == keys.Length && Outside(perm0, perm0, i, j);
    hide Tracks, IsPerm, Exchange, Outside;
    perm := perm0;
    ghost var b, u := keys[..], temp[..];
    if k - i > 1 {
      perm := Sort(keys, temp, i, k - 1, SORTHRESH, a0, t0, perm);
      LeftSorted(perm0, perm, a0, t0, b, u, keys[..], temp[..], i, j, k);
    }
    ghost var perm1, c, v := perm, keys[..], temp[..];
    if j - k > 1 {
      perm := Sort(keys, temp, k + 1, j, SORTHRESH, a0, t0, perm);
      RightSorted(perm1, perm, a0, t0, c, v, keys[..], temp[..], i, j, k);
      OutsideTrans(perm, perm1, perm0, i, j, k + 1, j);
    }
  }

  lemma LeftSorted(perm0: seq<nat>, perm: seq<nat>, a0: seq<int>, t0: seq<int>, b: seq<int>, u: seq<int>, a: seq<int>, t: seq<int>,
                   i: nat, j: nat, k: nat)
    requires Tracks(perm0, a0, b, t0, u) && Tracks(perm, a0, a, t0, t) && Outside(perm, perm0, i, k - 1)
    requires i <= k <= j < |a| == |b| && Descending(a, i, k - 1)
    requires forall m :: i <= m <= j ==> (m < k ==> b[m] >= b[k]) && (m > k ==> b[m] <= b[k])
    ensures forall m :: i <= m <= j ==> (m < k ==> a[m] >= a[k]) && (m > k ==> a[m] <= a[k])
    ensures Outside(perm, perm0, i, j) && forall m :: k <= m <= j ==> a[m] == b[m]
  {
    forall m | i <= m < k ensures a[m] >= a[k] { var m' := StaysInside(perm0, perm, i, k - 1, m); }
  }

  lemma RightSorted(perm0: seq<nat>, perm: seq<nat>, a0: seq<int>, t0: seq<int>, b: seq<int>, u: seq<int>, a: seq<int>, t: seq<int>,
                    i: nat, j: nat, k: nat)
    requires Tracks(perm0, a0, b, t0, u) && Tracks(perm, a0, a, t0, t) && Outside(perm, perm0, k + 1, j)
    requires i <= k <= j < |a| == |b| && Descending(b, i, k - 1) && Descending(a, k + 1, j)
    requires forall m :: i <= m <= j ==> (m < k ==> b[m] >= b[k]) && (m > k ==> b[m] <= b[k])
    ensures Descending(a, i, j)
  {
    forall m | k < m <= j ensures a[m] <= a[k] { var m' := StaysInside(perm0, perm, k + 1, j, m); }
  }

  /** The call that FP_tree::scan1_DB makes: both arrays end up rearranged in the same way, the first one descending. */
  method SortPairs(keys: array<int>, temp: array<int>, SORTHRESH: nat) returns (ghost perm: seq<nat>)
    requires keys != temp && keys.Length == temp.Length && SORTHRESH > 0
    modifies keys, temp
    ensures Tracks(perm, old(keys[..]), keys[..], old(temp[..]), temp[..])
    ensures Descending(keys[..], 0, keys.Length - 1)
  {
    perm := Sort(keys, temp, 0, keys.Length - 1, SORTHRESH, keys[..], temp[..], seq(keys.Length, k => k));
  }
}
