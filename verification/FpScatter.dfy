/** The second half of FP_tree::database_tiling: all threads copy their records to one array, sorted by bitmask, at the same time. */
module FpScatter {
  import opened Common
  import opened Sums
  import opened HotBits
  import opened Transactions
  import opened FpLinking
  import opened FpDatabase

  /** The records that are in a thread's file. */
  function Cold(recs: seq<HotTrans>): seq<HotTrans>
  {
    if recs == [] then []
    else
      var last := recs[|recs| - 1];
      Cold(recs[..|recs| - 1]) + if last.rest == [] then [] else [last]
  }

  lemma {:induction false} ColdWords(recs: seq<HotTrans>, m: nat)
    ensures AllCold(Cold(recs)) && Words(Cold(recs)) == Words(recs) && TypeSize(Cold(recs), m) == TypeSize(recs, m)
  {
    hide AllCold;
    EmptyCold();
    if recs != [] {
      ColdWords(recs[..|recs| - 1], m);
      ColdLast(Cold(recs[..|recs| - 1]), recs[|recs| - 1], m);
      AllColdNext(Cold(recs[..|recs| - 1]), recs[|recs| - 1]);
    }
  }

  lemma EmptyCold()
    ensures AllCold([])
  {
  }

  lemma AllColdNext(cold: seq<HotTrans>, r: HotTrans)
    requires AllCold(cold)
    ensures AllCold(cold + if r.rest == [] then [] else [r])
  {
  }

  lemma ColdLast(cold: seq<HotTrans>, r: HotTrans, m: nat)
    ensures var c := cold + if r.rest == [] then [] else [r];
      && Words(c) == Words(cold) + WordsOf(r)
      && TypeSize(c, m) == TypeSize(cold, m) + if r.mask == m && r.rest != [] then |r.rest| + 1 else 0
  {
    if r.rest == [] { assert cold + [] == cold && Words(cold) + [] == Words(cold); } else { WordsAppend(cold, r, m); }
  }

  lemma WordsAppend(recs: seq<HotTrans>, r: HotTrans, m: nat)
    ensures Words(recs + [r]) == Words(recs) + WordsOf(r)
    ensures TypeSize(recs + [r], m) == TypeSize(recs, m) + if r.mask == m && r.rest != [] then |r.rest| + 1 else 0
  {
    assert (recs + [r])[..|recs|] == recs;
  }

  /** What is copied of a record: all but its bitmask. */
  ghost function Body(r: HotTrans): seq<nat> { [|r.rest|] + r.rest }

  /** The copies of the records with bitmask m among the first d. */
  ghost function BodiesTo(recs: seq<HotTrans>, d: nat, m: nat): seq<nat>
    requires d <= |recs|
  {
    if d == 0 then [] else BodiesTo(recs, d - 1, m) + if recs[d - 1].mask == m then Body(recs[d - 1]) else []
  }

  ghost function Bodies(recs: seq<HotTrans>, m: nat): seq<nat> { BodiesTo(recs, |recs|, m) }

  /** The words of the first d records. */
  function WordsTo(recs: seq<HotTrans>, d: nat): seq<nat>
    requires d <= |recs|
  {
    if d == 0 then [] else WordsTo(recs, d - 1) + WordsOf(recs[d - 1])
  }

  lemma {:induction false} SameWords(recs: seq<HotTrans>, d: nat)
    requires d <= |recs|
    ensures WordsTo(recs, d) == Words(recs[..d])
  {
    if d > 0 {
      var r := recs[..d];
      assert r[..d - 1] == recs[..d - 1] && r[d - 1] == recs[d - 1];
      hide WordsOf;
      SameWords(recs, d - 1);
    }
  }

  ghost predicate AllCold(recs: seq<HotTrans>) { forall k :: 0 <= k < |recs| ==> recs[k].rest != [] }

  lemma {:induction false} BodiesSize(recs: seq<HotTrans>, d: nat, m: nat)
    requires AllCold(recs) && d <= |recs|
    ensures |BodiesTo(recs, d, m)| == TypeSize(recs[..d], m)
  {
    if d > 0 {
      BodiesSize(recs, d - 1, m);
      assert recs[..d][..d - 1] == recs[..d - 1];
    }
  }

  lemma {:induction false} BodiesPrefix(recs: seq<HotTrans>, d: nat, e: nat, m: nat)
    requires d <= e <= |recs|
    ensures BodiesTo(recs, d, m) <= BodiesTo(recs, e, m)
    decreases e
  {
    if d < e {
      BodiesPrefix(recs, d, e - 1, m);
      assert BodiesTo(recs, e, m) == BodiesTo(recs, e - 1, m) + if recs[e - 1].mask == m then Body(recs[e - 1]) else [];
      hide BodiesTo, Body;
    }
  }

  lemma {:induction false} WordsPrefix(recs: seq<HotTrans>, d: nat, e: nat)
    requires d <= e <= |recs|
    ensures WordsTo(recs, d) <= WordsTo(recs, e)
    decreases e
  {
    if d < e {
      WordsPrefix(recs, d, e - 1);
      assert WordsTo(recs, e) == WordsTo(recs, e - 1) + WordsOf(recs[e - 1]);
      hide WordsTo, WordsOf;
    }
  }

  /** The sizes of the records with bitmask m of the first j threads. */
  ghost function ColSum(sizes: seq<seq<nat>>, j: nat, m: nat): nat
    requires j <= |sizes| && forall t :: 0 <= t < |sizes| ==> m < |sizes[t]|
  {
    if j == 0 then 0 else ColSum(sizes, j - 1, m) + sizes[j - 1][m]
  }

  ghost predicate Rect(sizes: seq<seq<nat>>, n: nat) { forall t :: 0 <= t < |sizes| ==> |sizes[t]| == n }

  /** ntypeoffsetbase: where the records with bitmask m start. */
  ghost function Base(sizes: seq<seq<nat>>, m: nat, n: nat): nat
    requires Rect(sizes, n) && m <= n
  {
    if m == 0 then 0 else Base(sizes, m - 1, n) + ColSum(sizes, |sizes|, m - 1)
  }

  /** threadntypeoffsetiter, at first: where thread t's records with bitmask m start. */
  ghost function Start(sizes: seq<seq<nat>>, t: nat, m: nat, n: nat): nat
    requires Rect(sizes, n) && t <= |sizes| && m < n
  {
    Base(sizes, m, n) + ColSum(sizes, t, m)
  }

  lemma {:induction false} ColSumMonotone(sizes: seq<seq<nat>>, t: nat, u: nat, m: nat, n: nat)
    requires Rect(sizes, n) && t < u <= |sizes| && m < n
    ensures ColSum(sizes, t, m) + sizes[t][m] <= ColSum(sizes, u, m)
  {
    if t < u - 1 { ColSumMonotone(sizes, t, u - 1, m, n); }
  }

  lemma {:induction false} BaseMonotone(sizes: seq<seq<nat>>, m: nat, k: nat, n: nat)
    requires Rect(sizes, n) && m <= k <= n
    ensures Base(sizes, m, n) <= Base(sizes, k, n)
    decreases k
  {
    if m < k { BaseMonotone(sizes, m, k - 1, n); }
  }

  /** Where thread t writes its records with bitmask m. */
  ghost predicate InArea(sizes: seq<seq<nat>>, t: nat, m: nat, n: nat, x: nat)
    requires Rect(sizes, n) && t < |sizes| && m < n
  {
    Start(sizes, t, m, n) <= x < Start(sizes, t, m, n) + sizes[t][m]
  }

  /** The areas are within the array and have nothing in common. */
  lemma AreasDisjoint(sizes: seq<seq<nat>>, t: nat, m: nat, u: nat, k: nat, n: nat, x: nat)
    requires Rect(sizes, n) && t < |sizes| && m < n && u < |sizes| && k < n && InArea(sizes, t, m, n, x) && InArea(sizes, u, k, n, x)
    ensures t == u && m == k
  {
    ColSumMonotone(sizes, t, |sizes|, m, n);
    ColSumMonotone(sizes, u, |sizes|, k, n);
    if m < k { BaseMonotone(sizes, m + 1, k, n); } else if k < m { BaseMonotone(sizes, k + 1, m, n); }
    else if t < u { ColSumMonotone(sizes, t, u, m, n); } else if u < t { ColSumMonotone(sizes, u, t, m, n); }
  }

  lemma AreaInBounds(sizes: seq<seq<nat>>, t: nat, m: nat, n: nat)
    requires Rect(sizes, n) && t < |sizes| && m < n
    ensures Start(sizes, t, m, n) + sizes[t][m] <= Base(sizes, m + 1, n) <= Base(sizes, n, n)
  {
    ColSumMonotone(sizes, t, |sizes|, m, n);
    BaseMonotone(sizes, m + 1, n, n);
  }

  /** What has been computed for the first i bitmasks. */
  ghost predicate OffsetsAre(sizes: seq<seq<nat>>, n: nat, i: nat, sumntype: seq<nat>, base: seq<nat>, end: seq<nat>, sumworkload: nat)
    requires Rect(sizes, n) && i <= n
  {
    && |sumntype| == |base| == |end| == i && sumworkload == Base(sizes, i, n)
    && (forall m :: 0 <= m < i ==> sumntype[m] == ColSum(sizes, |sizes|, m))
    && (forall m :: 0 <= m < i ==> base[m] == Base(sizes, m, n) && end[m] == Base(sizes, m + 1, n))
  }

  lemma OffsetsStart(sizes: seq<seq<nat>>, n: nat)
    requires Rect(sizes, n)
    ensures OffsetsAre(sizes, n, 0, [], [], [], 0)
  {
  }

  lemma OffsetsNext(sizes: seq<seq<nat>>, n: nat, i: nat, sumntype: seq<nat>, base: seq<nat>, end: seq<nat>, sumworkload: nat, sum: nat)
    requires Rect(sizes, n) && i < n && OffsetsAre(sizes, n, i, sumntype, base, end, sumworkload) && sum == ColSum(sizes, |sizes|, i)
    ensures OffsetsAre(sizes, n, i + 1, sumntype + [sum], base + [sumworkload], end + [sumworkload + sum], sumworkload + sum)
  {
  }

  /** The loops that compute the offsets from the threads' sizes. */
  method Offsets(sizes: seq<seq<nat>>, n: nat)
      returns (sumntype: seq<nat>, base: seq<nat>, end: seq<nat>, useful: nat, sumworkload: nat)
    requires Rect(sizes, n)
    ensures OffsetsAre(sizes, n, n, sumntype, base, end, sumworkload)
    ensures useful == |Useful(sumntype)|
  {
    sumntype, base, end, useful, sumworkload := [], [], [], 0, 0;
    var i := 0;
    NothingUseful();
    hide Useful, ColSum, Base, OffsetsAre;
    OffsetsStart(sizes, n);
    while i < n
      invariant 0 <= i <= n && OffsetsAre(sizes, n, i, sumntype, base, end, sumworkload)
      invariant useful == |Useful(sumntype)|
    {
      var sum := Column(sizes, n, i);
      UsefulNext(sumntype, sum);
      OffsetsNext(sizes, n, i, sumntype, base, end, sumworkload, sum);
      sumntype := sumntype + [sum];
      if sum > 0 { useful := useful + 1; }
      base := base + [sumworkload];
      sumworkload := sumworkload + sum;
      end := end + [sumworkload];
      i := i + 1;
    }
  }

  method Column(sizes: seq<seq<nat>>, n: nat, i: nat) returns (sum: nat)
    requires Rect(sizes, n) && i < n
    ensures sum == ColSum(sizes, |sizes|, i)
  {
    sum := 0;
    var j := 0;
    while j < |sizes|
      invariant 0 <= j <= |sizes| && sum == ColSum(sizes, j, i)
    {
      sum := sum + sizes[j][i];
      j := j + 1;
    }
  }

  /** The bitmasks that have records. */
  ghost function Useful(sumntype: seq<nat>): set<nat>
  {
    set m: nat | m < |sumntype| && sumntype[m] > 0
  }

  lemma NothingUseful()
    ensures Useful([]) == {}
  {
  }

  lemma UsefulNext(sumntype: seq<nat>, sum: nat)
    ensures |Useful(sumntype + [sum])| == |Useful(sumntype)| + if sum > 0 then 1 else 0
  {
    var s := sumntype + [sum];
    if sum > 0 { assert Useful(s) == Useful(sumntype) + {|sumntype|}; } else { assert Useful(s) == Useful(sumntype); }
  }

  /** The loops that give every thread its starts; they use up tempntypeoffsetbase. */
  method Iterators(sizes: seq<seq<nat>>, n: nat, base: seq<nat>, iter0: array2<nat>)
    requires Rect(sizes, n) && |base| == n && iter0.Length0 == |sizes| && iter0.Length1 == n
    requires forall m :: 0 <= m < n ==> base[m] == Base(sizes, m, n)
    modifies iter0
    ensures forall t, m :: 0 <= t < |sizes| && 0 <= m < n && sizes[t][m] > 0 ==> iter0[t, m] == Start(sizes, t, m, n)
  {
    var temp := base;
    var i := 0;
    while i < n
      invariant 0 <= i <= n && |temp| == n && forall m :: i <= m < n ==> temp[m] == base[m]
      invariant forall t, m :: 0 <= t < |sizes| && 0 <= m < i && sizes[t][m] > 0 ==> iter0[t, m] == Start(sizes, t, m, n)
    {
      var j := 0;
      while j < |sizes|
        invariant 0 <= j <= |sizes| && |temp| == n && (forall m :: i < m < n ==> temp[m] == base[m])
        invariant temp[i] == Base(sizes, i, n) + ColSum(sizes, j, i)
        invariant forall t, m :: 0 <= t < |sizes| && 0 <= m < i && sizes[t][m] > 0 ==> iter0[t, m] == Start(sizes, t, m, n)
        invariant forall t :: 0 <= t < j && sizes[t][i] > 0 ==> iter0[t, i] == Start(sizes, t, i, n)
      {
        if sizes[j][i] > 0 {
          iter0[j, i] := temp[i];
          temp := temp[i := temp[i] + sizes[j][i]];
        }
        j := j + 1;
      }
      i := i + 1;
    }
  }

  /** mergedworkbase and mergedworkend: the loop that puts small bitmasks together to ranges of a 512th of the work or more. */
  method MergeWork(sumntype: seq<nat>, useful: nat, sumworkload: nat) returns (mbase: seq<nat>, mend: seq<nat>)
    requires useful <= |sumntype| && Total(sumntype, useful) <= sumworkload && forall i :: 0 <= i < useful ==> sumntype[i] > 0
    ensures Ranges(mbase, mend, useful) && 0 < |mbase| <= 1025
    ensures Even(sumntype, mbase, mend, sumworkload / 512)
  {
    var averworkload := sumworkload / 512;
    var tempworkload: nat := 0;
    mbase, mend := [0], [];
    var i := 0;
    MergeStart(sumntype, averworkload);
    hide Merging, Ranges, Even;
    while i < useful
      invariant 0 <= i <= useful && Merging(sumntype, mbase, mend, i, averworkload, tempworkload)
    {
      MergeNext(sumntype, mbase, mend, i, averworkload, tempworkload);
      tempworkload := tempworkload + sumntype[i];
      if tempworkload >= averworkload {
        mend := mend + [i + 1];
        mbase := mbase + [i + 1];
        tempworkload := 0;
      }
      i := i + 1;
    }
    MergeEnd(sumntype, mbase, mend, i, averworkload, tempworkload, sumworkload);
    mend := mend + [i];
  }

  /** What has been merged before place i. */
  ghost predicate Merging(sumntype: seq<nat>, mbase: seq<nat>, mend: seq<nat>, i: nat, a: nat, temp: nat)
  {
    OpenRanges(mbase, mend, i) && Load(sumntype, i, |mend|, a, temp) && OpenEven(sumntype, mbase, mend, i, a, temp)
  }

  lemma MergeStart(sumntype: seq<nat>, a: nat)
    ensures Merging(sumntype, [0], [], 0, a, 0)
  {
    NoRanges();
    NoLoad(sumntype, a);
    NoRound(sumntype, a);
  }

  lemma MergeNext(sumntype: seq<nat>, mbase: seq<nat>, mend: seq<nat>, i: nat, a: nat, temp: nat)
    requires i < |sumntype| && sumntype[i] > 0 && Merging(sumntype, mbase, mend, i, a, temp)
    ensures temp + sumntype[i] < a ==> Merging(sumntype, mbase, mend, i + 1, a, temp + sumntype[i])
    ensures temp + sumntype[i] >= a ==> Merging(sumntype, mbase + [i + 1], mend + [i + 1], i + 1, a, 0)
  {
    hide OpenRanges, Load, OpenEven, Ranges;
    NextLoad(sumntype, i, |mend|, a, temp);
    NextRound(sumntype, mbase, mend, i, a, temp);
    CloseRange(mbase, mend, i, i + 1);
    LongerRange(mbase, mend, i);
  }

  lemma MergeEnd(sumntype: seq<nat>, mbase: seq<nat>, mend: seq<nat>, i: nat, a: nat, temp: nat, s: nat)
    requires Merging(sumntype, mbase, mend, i, a, temp) && i <= |sumntype| && Total(sumntype, i) <= s && a == s / 512
    ensures Ranges(mbase, mend + [i], i) && 0 < |mbase| <= 1025 && Even(sumntype, mbase, mend + [i], a)
  {
    hide OpenRanges, Load, OpenEven, Ranges, Even;
    FewRanges(sumntype, i, |mend|, a, temp, s);
    CloseRange(mbase, mend, i, i);
    LastRound(sumntype, mbase, mend, i, a, temp);
  }

  /** The work for the bitmasks at places b .. e of the list. */
  ghost function WorkIn(sumntype: seq<nat>, b: nat, e: nat): int
    requires b <= e <= |sumntype|
  {
    Total(sumntype, e) - Total(sumntype, b)
  }

  /** The range is closed as soon as it has work a. */
  ghost predicate Closed(sumntype: seq<nat>, b: nat, e: nat, a: nat)
  {
    b <= e <= |sumntype| && forall i :: b < i < e ==> WorkIn(sumntype, b, i) < a
  }

  /** Every range has work a or more, but for the last one, and none would have without its last bitmask. */
  ghost predicate Even(sumntype: seq<nat>, mbase: seq<nat>, mend: seq<nat>, a: nat)
  {
    && |mbase| == |mend|
    && (forall k :: 0 <= k < |mend| ==> Closed(sumntype, mbase[k], mend[k], a))
    && (forall k :: 0 <= k < |mend| - 1 ==> WorkIn(sumntype, mbase[k], mend[k]) >= a)
  }

  /** The same before the range that starts at the last mbase is closed. */
  ghost predicate OpenEven(sumntype: seq<nat>, mbase: seq<nat>, mend: seq<nat>, i: nat, a: nat, temp: nat)
  {
    && |mbase| == |mend| + 1
    && (forall k :: 0 <= k < |mend| ==> Closed(sumntype, mbase[k], mend[k], a) && WorkIn(sumntype, mbase[k], mend[k]) >= a)
    && mbase[|mend|] <= i <= |sumntype| && temp == WorkIn(sumntype, mbase[|mend|], i) && Closed(sumntype, mbase[|mend|], i, a)
    && (mbase[|mend|] < i ==> temp < a)
  }

  lemma NoRound(sumntype: seq<nat>, a: nat)
    ensures OpenEven(sumntype, [0], [], 0, a, 0)
  {
  }

  lemma NextRound(sumntype: seq<nat>, mbase: seq<nat>, mend: seq<nat>, i: nat, a: nat, temp: nat)
    requires i < |sumntype| && OpenEven(sumntype, mbase, mend, i, a, temp)
    ensures temp + sumntype[i] < a ==> OpenEven(sumntype, mbase, mend, i + 1, a, temp + sumntype[i])
    ensures temp + sumntype[i] >= a ==> OpenEven(sumntype, mbase + [i + 1], mend + [i + 1], i + 1, a, 0)
  {
    var b := mbase[|mend|];
    assert WorkIn(sumntype, b, i + 1) == temp + sumntype[i];
    assert Closed(sumntype, b, i + 1, a);
    hide Total;
    var mbase', mend' := mbase + [i + 1], mend + [i + 1];
    if temp + sumntype[i] >= a {
      forall k | 0 <= k < |mend'| ensures Closed(sumntype, mbase'[k], mend'[k], a) && WorkIn(sumntype, mbase'[k], mend'[k]) >= a {
        if k < |mend| { assert Closed(sumntype, mbase[k], mend[k], a); }
      }
    }
  }

  lemma LastRound(sumntype: seq<nat>, mbase: seq<nat>, mend: seq<nat>, i: nat, a: nat, temp: nat)
    requires OpenEven(sumntype, mbase, mend, i, a, temp)
    ensures Even(sumntype, mbase, mend + [i], a)
  {
    hide WorkIn;
  }

  /** k ranges have been closed with a or more each, temp has been added up since. */
  ghost predicate Load(sumntype: seq<nat>, i: nat, k: nat, a: nat, temp: nat)
  {
    i <= |sumntype| && k <= i <= Total(sumntype, i) && Times(k, a) + temp <= Total(sumntype, i)
  }

  lemma NoLoad(sumntype: seq<nat>, a: nat)
    ensures Load(sumntype, 0, 0, a, 0)
  {
  }

  lemma NextLoad(sumntype: seq<nat>, i: nat, k: nat, a: nat, temp: nat)
    requires i < |sumntype| && sumntype[i] > 0 && Load(sumntype, i, k, a, temp)
    ensures Load(sumntype, i + 1, k, a, temp + sumntype[i])
    ensures temp + sumntype[i] >= a ==> Load(sumntype, i + 1, k + 1, a, 0)
  {
  }

  /** All ranges but the last one, which starts at i or before, are complete. */
  ghost predicate OpenRanges(mbase: seq<nat>, mend: seq<nat>, i: nat)
  {
    |mbase| == |mend| + 1 && mbase[|mend|] <= i && Ranges(mbase[..|mend|], mend, mbase[|mend|])
  }

  lemma NoRanges()
    ensures OpenRanges([0], [], 0)
  {
  }

  lemma LongerRange(mbase: seq<nat>, mend: seq<nat>, i: nat)
    requires OpenRanges(mbase, mend, i)
    ensures OpenRanges(mbase, mend, i + 1)
  {
  }

  lemma CloseRange(mbase: seq<nat>, mend: seq<nat>, i: nat, e: nat)
    requires OpenRanges(mbase, mend, i) && i <= e
    ensures Ranges(mbase, mend + [e], e) && OpenRanges(mbase + [e], mend + [e], e) && |mbase| == |mend| + 1
  {
    assert (mbase + [e])[..|mend + [e]|] == mbase;
  }

  /** Consecutive ranges from 0 to n. */
  ghost predicate Ranges(mbase: seq<nat>, mend: seq<nat>, n: nat)
  {
    && |mbase| == |mend| && (if mbase == [] then n == 0 else mbase[0] == 0 && mend[|mend| - 1] == n)
    && forall k :: 0 <= k < |mbase| ==> mbase[k] <= mend[k] && (k + 1 < |mbase| ==> mend[k] == mbase[k + 1])
  }

  lemma FewRanges(sumntype: seq<nat>, i: nat, k: nat, a: nat, temp: nat, s: nat)
    requires Load(sumntype, i, k, a, temp) && Total(sumntype, i) <= s && a == s / 512
    ensures k <= 1024
  {
    if k >= 1025 { ManyTimes(k, a); }
  }

  lemma {:induction false} ManyTimes(k: nat, a: nat)
    requires k >= 1025
    ensures Times(k, a) >= 1025 * a
  {
    if k == 1025 { TimesIs(1025, a); } else { ManyTimes(k - 1, a); }
  }

  ghost function Total(s: seq<nat>, i: nat): nat
    requires i <= |s|
  {
    if i == 0 then 0 else Total(s, i - 1) + s[i - 1]
  }

  /** Every place of the sorted list is in exactly one range. */
  lemma {:induction false} RangesCover(mbase: seq<nat>, mend: seq<nat>, n: nat, x: nat, k: nat) returns (r: nat)
    requires Ranges(mbase, mend, n) && x < n && k < |mbase| && mbase[k] <= x
    ensures k <= r < |mbase| && mbase[r] <= x < mend[r]
    decreases |mbase| - k
  {
    if x < mend[k] { r := k; } else { r := RangesCover(mbase, mend, n, x, k + 1); }
  }

  lemma {:induction false} RangesOrdered(mbase: seq<nat>, mend: seq<nat>, n: nat, j: nat, k: nat)
    requires Ranges(mbase, mend, n) && j < k < |mbase|
    ensures mend[j] <= mbase[k]
  {
    if j < k - 1 { RangesOrdered(mbase, mend, n, j, k - 1); }
  }

  lemma {:induction false} TotalUpdate(s: seq<nat>, i: nat, p: nat)
    requires p < |s| && i <= |s|
    ensures Total(s, i) == Total(s[p := 0], i) + if p < i then s[p] else 0
  {
    if i > 0 { TotalUpdate(s, i - 1, p); }
  }

  /** Some of the sizes make no more than all of them. */
  lemma {:induction false} SortedTotal(s: seq<nat>, sorted: seq<nat>, t: seq<int>, j: nat)
    requires j <= |t| == |sorted| && forall k :: 0 <= k < j ==> 0 <= t[k] < |s| && sorted[k] == s[t[k]]
    requires forall i, k :: 0 <= i < k < j ==> t[i] != t[k]
    ensures Total(sorted, j) <= Total(s, |s|)
    decreases j
  {
    if j > 0 {
      SortedTotal(s[t[j - 1] := 0], sorted, t, j - 1);
      TotalUpdate(s, |s|, t[j - 1]);
    }
  }

  /** The sorted list starts with exactly the bitmasks that have records. */
  lemma UsefulPrefix(sumntype: seq<nat>, t: seq<int>, itemno: nat)
    requires SortedOut(sumntype, 1, t, itemno)
    ensures itemno == |Useful(sumntype)|
  {
    ghost var ids: seq<nat> := seq(itemno, k requires 0 <= k < itemno => t[k] as nat);
    forall m | m in Useful(sumntype) ensures m in ids {
      var k :| 0 <= k < itemno && t[..itemno][k] == m;
      assert ids[k] == m;
    }
    assert Items(ids) == Useful(sumntype);
    ItemsCardinality(ids);
  }

  /** The end of the last segment is the sum of all sizes. */
  lemma {:induction false} BaseIsTotal(sizes: seq<seq<nat>>, n: nat, i: nat, sumntype: seq<nat>)
    requires Rect(sizes, n) && i <= n == |sumntype| && forall m :: 0 <= m < n ==> sumntype[m] == ColSum(sizes, |sizes|, m)
    ensures Base(sizes, i, n) == Total(sumntype, i)
  {
    if i > 0 { BaseIsTotal(sizes, n, i - 1, sumntype); }
  }

  /** sort(sumntype, ntypeidarray, ...) and the merging of the work: every bitmask with records is in one range, once, and nothing else is. */
  method ShareWork(sumntype: seq<nat>, useful: nat, sumworkload: nat, SORTHRESH: nat)
      returns (ids: seq<nat>, mbase: seq<nat>, mend: seq<nat>)
    requires useful == |Useful(sumntype)| && sumworkload == Total(sumntype, |sumntype|) && SORTHRESH >= 1
    ensures |ids| == |sumntype| && useful <= |ids| && Ranges(mbase, mend, useful) && 0 < |mbase| <= 1025
    ensures forall x :: 0 <= x < useful ==> ids[x] < |sumntype| && ids[x] in Useful(sumntype)
    ensures forall x, y :: 0 <= x < y < useful ==> ids[x] != ids[y] && sumntype[ids[x]] >= sumntype[ids[y]]
    ensures forall m :: m in Useful(sumntype) ==> exists x :: 0 <= x < useful && ids[x] == m
  {
    hide Ranges, Useful, SortedOut;
    var temp, itemno := SortItems(sumntype, 1, SORTHRESH);
    UsefulPrefix(sumntype, temp[..], itemno);
    ids, mbase, mend := MergeSorted(sumntype, temp, useful, sumworkload);
  }

  method MergeSorted(sumntype: seq<nat>, temp: array<int>, useful: nat, sumworkload: nat)
      returns (ids: seq<nat>, mbase: seq<nat>, mend: seq<nat>)
    requires SortedOut(sumntype, 1, temp[..], useful) && sumworkload == Total(sumntype, |sumntype|)
    ensures |ids| == |sumntype| && useful <= |ids| && Ranges(mbase, mend, useful) && 0 < |mbase| <= 1025
    ensures forall x :: 0 <= x < useful ==> ids[x] < |sumntype| && ids[x] in Useful(sumntype)
    ensures forall x, y :: 0 <= x < y < useful ==> ids[x] != ids[y] && sumntype[ids[x]] >= sumntype[ids[y]]
    ensures forall m :: m in Useful(sumntype) ==> exists x :: 0 <= x < useful && ids[x] == m
  {
    ids := temp[..];
    var sorted := seq(|ids|, k requires 0 <= k < |ids| => sumntype[ids[k]]);
    SortedTotal(sumntype, sorted, ids, useful);
    UsefulIds(sumntype, ids, useful);
    hide *;
    mbase, mend := MergeWork(sorted, useful, sumworkload);
  }

  lemma UsefulIds(sumntype: seq<nat>, t: seq<nat>, useful: nat)
    requires SortedOut(sumntype, 1, t, useful)
    ensures |t| == |sumntype| && useful <= |t| && forall x :: 0 <= x < useful ==> t[x] < |sumntype| && t[x] in Useful(sumntype)
    ensures forall x, y :: 0 <= x < y < useful ==> t[x] != t[y] && sumntype[t[x]] >= sumntype[t[y]]
    ensures forall m :: m in Useful(sumntype) ==> exists x :: 0 <= x < useful && t[x] == m
  {
    forall m | m in Useful(sumntype) ensures exists x :: 0 <= x < useful && t[x] == m {
      var x :| 0 <= x < useful && t[..useful][x] == m;
      assert t[x] == m;
    }
  }

  /** Where a thread is: about to read a record, or copying one: k words of it are at dst already. */
  datatype Phase = AtRecord | Copying(dst: nat, k: nat, total: nat)

  /** The variables current_pos and threadntypeoffsetiter of a thread; `done` counts its complete records and is no variable of the
    * program. */
  datatype Copier = Copier(pos: nat, iter: seq<nat>, phase: Phase, done: nat)

  datatype State = State(copiers: seq<Copier>, out: seq<nat>)

  /** The records in the threads' files, and how many bitmasks there are. */
  datatype Config = Config(files: seq<seq<HotTrans>>, sizes: seq<seq<nat>>, n: nat)

  ghost predicate ConfigOk(cfg: Config)
  {
    && Rect(cfg.sizes, cfg.n) && |cfg.files| == |cfg.sizes|
    && forall t :: 0 <= t < |cfg.files| ==> FileOk(cfg.files[t], cfg.sizes[t], cfg.n)
  }

  ghost predicate FileOk(recs: seq<HotTrans>, sizes: seq<nat>, n: nat)
    requires |sizes| == n
  {
    && AllCold(recs) && (forall k :: 0 <= k < |recs| ==> recs[k].mask < n)
    && (forall m :: 0 <= m < n ==> sizes[m] == TypeSize(recs, m))
  }

  /** The arrays that the first half of database_tiling leaves for a thread are such a file. */
  lemma TileIsFile(file: seq<nat>, ntypearray: seq<nat>, hotNodeCount: seq<nat>, recs: seq<HotTrans>, txns: seq<seq<nat>>, order: seq<int>,
                   numHot: nat, itemno: nat, n: nat)
    requires Stored(file, ntypearray, hotNodeCount, recs) && Encoded(recs, txns, order, numHot, itemno) && |ntypearray| == n == Pow2(numHot)
    ensures FileOk(Cold(recs), ntypearray, n) && file == WordsTo(Cold(recs), |Cold(recs)|)
  {
    RecordsAreFile(recs, txns, ntypearray, order, numHot, itemno, n);
    ColdWords(recs, 0);
    SameWords(Cold(recs), |Cold(recs)|);
    assert Cold(recs)[..|Cold(recs)|] == Cold(recs);
    hide Cold, AllCold, Words, TypeSize, WordsTo;
  }

  lemma RecordsAreFile(recs: seq<HotTrans>, txns: seq<seq<nat>>, sizes: seq<nat>, order: seq<int>, numHot: nat, itemno: nat, n: nat)
    requires Encoded(recs, txns, order, numHot, itemno) && |sizes| == n == Pow2(numHot)
    requires forall m :: 0 <= m < n ==> sizes[m] == TypeSize(recs, m)
    ensures FileOk(Cold(recs), sizes, n)
  {
    assert forall k :: 0 <= k < |recs| ==> RecordOf(recs[k], txns[k], order, numHot, itemno);
    ColdMasks(recs, n);
    forall m | 0 <= m < n ensures sizes[m] == TypeSize(Cold(recs), m) { ColdWords(recs, m); }
    ColdWords(recs, 0);
    hide Cold, AllCold, Words, TypeSize;
  }

  lemma {:induction false} ColdMasks(recs: seq<HotTrans>, n: nat)
    requires forall k :: 0 <= k < |recs| ==> recs[k].mask < n
    ensures forall k :: 0 <= k < |Cold(recs)| ==> Cold(recs)[k].mask < n
  {
    if recs != [] { ColdMasks(recs[..|recs| - 1], n); }
  }

  ghost predicate Holds(out: seq<nat>, at: nat, s: seq<nat>) { at + |s| <= |out| && out[at..at + |s|] == s }

  /** The iterator of thread t for bitmask m after d records. */
  ghost predicate IterIs(cfg: Config, t: nat, iter: seq<nat>, d: nat)
    requires ConfigOk(cfg) && t < |cfg.files| && d <= |cfg.files[t]|
  {
    |iter| == cfg.n && forall m :: 0 <= m < cfg.n && cfg.sizes[t][m] > 0 ==>
      iter[m] == Start(cfg.sizes, t, m, cfg.n) + |BodiesTo(cfg.files[t], d, m)|
  }

  /** The copies of the first d records of thread t are in their places. */
  ghost predicate Copied(cfg: Config, t: nat, out: seq<nat>, d: nat)
    requires ConfigOk(cfg) && t < |cfg.files| && d <= |cfg.files[t]|
  {
    forall m :: 0 <= m < cfg.n ==> Holds(out, Start(cfg.sizes, t, m, cfg.n), BodiesTo(cfg.files[t], d, m))
  }

  /** Where the copy of record d of thread t goes. */
  ghost function Place(cfg: Config, t: nat, d: nat): nat
    requires ConfigOk(cfg) && t < |cfg.files| && d < |cfg.files[t]|
  {
    Start(cfg.sizes, t, cfg.files[t][d].mask, cfg.n) + |BodiesTo(cfg.files[t], d, cfg.files[t][d].mask)|
  }

  ghost predicate CopierOk(cfg: Config, t: nat, c: Copier, out: seq<nat>)
    requires ConfigOk(cfg) && t < |cfg.files|
  {
    var recs := cfg.files[t];
    && c.done <= |recs| && Copied(cfg, t, out, c.done)
    && match c.phase
       case AtRecord => c.pos == |WordsTo(recs, c.done)| && IterIs(cfg, t, c.iter, c.done)
       case Copying(dst, k, total) =>
         && c.done < |recs| && c.pos == |WordsTo(recs, c.done)| + 1 + k && IterIs(cfg, t, c.iter, c.done + 1)
         && k < total == |Body(recs[c.done])|
         && dst == Place(cfg, t, c.done)
         && Holds(out, dst, Body(recs[c.done])[..k])
  }

  ghost predicate Inv(cfg: Config, s: State)
  {
    && ConfigOk(cfg) && |s.copiers| == |cfg.files| && |s.out| == Base(cfg.sizes, cfg.n, cfg.n)
    && forall t :: 0 <= t < |cfg.files| ==> CopierOk(cfg, t, s.copiers[t], s.out)
  }

  /** Thread t has not reached the end of its file. */
  predicate Enabled(cfg: Config, s: State, t: nat)
  {
    t < |s.copiers| == |cfg.files| && s.copiers[t].pos < |WordsTo(cfg.files[t], |cfg.files[t]|)|
  }

  /** What the next step of t reads and writes is there. */
  ghost predicate InBounds(cfg: Config, s: State, t: nat)
    requires Enabled(cfg, s, t)
  {
    var c, content := s.copiers[t], WordsTo(cfg.files[t], |cfg.files[t]|);
    match c.phase
    case AtRecord => c.pos + 1 < |content| && content[c.pos] < |c.iter|
    case Copying(dst, k, total) => dst + k < |s.out|
  }

  /** One step of thread t: the head of a record, or one word. */
  function Step(cfg: Config, s: State, t: nat): State
    requires Enabled(cfg, s, t) && InBounds(cfg, s, t)
  {
    var c, content := s.copiers[t], WordsTo(cfg.files[t], |cfg.files[t]|);
    match c.phase
    case AtRecord =>
      var ntype, has := content[c.pos], content[c.pos + 1];
      var c' := Copier(c.pos + 1, c.iter[ntype := c.iter[ntype] + has + 1], Copying(c.iter[ntype], 0, has + 1), c.done);
      s.(copiers := s.copiers[t := c'])
    case Copying(dst, k, total) =>
      var c' := if k + 1 < total then Copier(c.pos + 1, c.iter, Copying(dst, k + 1, total), c.done)
                else Copier(c.pos + 1, c.iter, AtRecord, c.done + 1);
      State(s.copiers[t := c'], s.out[dst + k := content[c.pos]])
  }

  /** The words of a record. */
  ghost predicate RecordAt(content: seq<nat>, p: nat, r: HotTrans)
  {
    p + 1 + |Body(r)| <= |content| && content[p] == r.mask && content[p + 1..p + 1 + |Body(r)|] == Body(r)
  }

  lemma ContentAt(recs: seq<HotTrans>, d: nat)
    requires d < |recs| && recs[d].rest != []
    ensures RecordAt(WordsTo(recs, |recs|), |WordsTo(recs, d)|, recs[d])
  {
    hide WordsTo, Body, WordsOf;
    WordsPrefix(recs, d + 1, |recs|);
    WordsLonger(recs, d);
    InPrefix(WordsTo(recs, |recs|), WordsTo(recs, d), [recs[d].mask] + Body(recs[d]), recs[d]);
  }

  lemma WordsLonger(recs: seq<HotTrans>, d: nat)
    requires d < |recs| && recs[d].rest != []
    ensures WordsTo(recs, d + 1) == WordsTo(recs, d) + ([recs[d].mask] + Body(recs[d]))
  {
  }

  lemma InPrefix(content: seq<nat>, a: seq<nat>, b: seq<nat>, r: HotTrans)
    requires a + b <= content && b == [r.mask] + Body(r)
    ensures RecordAt(content, |a|, r)
  {
    hide Body;
    assert content[|a|..|a| + |b|] == b;
    assert content[|a|] == b[0];
    assert content[|a| + 1..|a| + |b|] == b[1..];
  }

  /** The place of a record's copy is within the thread's area for its bitmask. */
  lemma CopyInArea(cfg: Config, t: nat, d: nat, k: nat)
    requires ConfigOk(cfg) && t < |cfg.files| && d < |cfg.files[t]| && k < |Body(cfg.files[t][d])|
    ensures InArea(cfg.sizes, t, cfg.files[t][d].mask, cfg.n, Place(cfg, t, d) + k)
  {
    var recs := cfg.files[t];
    BodiesPrefix(recs, d + 1, |recs|, recs[d].mask);
    BodiesSize(recs, |recs|, recs[d].mask);
    assert recs[..|recs|] == recs;
  }

  lemma HoldsFrame(out: seq<nat>, at: nat, s: seq<nat>, x: nat, v: nat)
    requires Holds(out, at, s) && x < |out| && !(at <= x < at + |s|)
    ensures Holds(out[x := v], at, s)
  {
  }

  lemma HoldsMore(out: seq<nat>, at: nat, s: seq<nat>, v: nat)
    requires Holds(out, at, s) && at + |s| < |out|
    ensures Holds(out[at + |s| := v], at, s + [v])
  {
  }

  lemma HoldsBoth(out: seq<nat>, at: nat, s: seq<nat>, s': seq<nat>)
    requires Holds(out, at, s) && Holds(out, at + |s|, s')
    ensures Holds(out, at, s + s')
  {
  }

  /** What thread t has is not in the way of a write elsewhere. */
  lemma CopiedFrame(cfg: Config, t: nat, out: seq<nat>, d: nat, x: nat, v: nat)
    requires ConfigOk(cfg) && t < |cfg.files| && d <= |cfg.files[t]| && Copied(cfg, t, out, d) && x < |out|
    requires forall m :: 0 <= m < cfg.n ==>
      !(Start(cfg.sizes, t, m, cfg.n) <= x < Start(cfg.sizes, t, m, cfg.n) + |BodiesTo(cfg.files[t], d, m)|)
    ensures Copied(cfg, t, out[x := v], d)
  {
    forall m | 0 <= m < cfg.n ensures Holds(out[x := v], Start(cfg.sizes, t, m, cfg.n), BodiesTo(cfg.files[t], d, m)) {
      HoldsFrame(out, Start(cfg.sizes, t, m, cfg.n), BodiesTo(cfg.files[t], d, m), x, v);
    }
  }

  /** A thread is not disturbed by a write to another thread's area. */
  lemma OtherUndisturbed(cfg: Config, t: nat, m: nat, u: nat, c: Copier, out: seq<nat>, x: nat, v: nat)
    requires ConfigOk(cfg) && t < |cfg.files| && m < cfg.n && u < |cfg.files| && u != t && InArea(cfg.sizes, t, m, cfg.n, x)
    requires CopierOk(cfg, u, c, out) && x < |out|
    ensures CopierOk(cfg, u, c, out[x := v])
  {
    hide Start, IterIs, InArea;
    forall k | 0 <= k < cfg.n
      ensures !(Start(cfg.sizes, u, k, cfg.n) <= x < Start(cfg.sizes, u, k, cfg.n) + |BodiesTo(cfg.files[u], c.done, k)|)
    {
      AreaElsewhere(cfg, t, m, u, k, c.done, x);
    }
    CopiedFrame(cfg, u, out, c.done, x, v);
    if c.phase.Copying? {
      CurrentElsewhere(cfg, t, m, u, c, x);
      HoldsFrame(out, c.phase.dst, Body(cfg.files[u][c.done])[..c.phase.k], x, v);
    }
  }

  lemma AreaElsewhere(cfg: Config, t: nat, m: nat, u: nat, k: nat, d: nat, x: nat)
    requires ConfigOk(cfg) && t < |cfg.files| && m < cfg.n && u < |cfg.files| && k < cfg.n && (u != t || k != m)
    requires InArea(cfg.sizes, t, m, cfg.n, x) && d <= |cfg.files[u]|
    ensures !(Start(cfg.sizes, u, k, cfg.n) <= x < Start(cfg.sizes, u, k, cfg.n) + |BodiesTo(cfg.files[u], d, k)|)
  {
    BodiesPrefix(cfg.files[u], d, |cfg.files[u]|, k);
    BodiesSize(cfg.files[u], |cfg.files[u]|, k);
    assert cfg.files[u][..|cfg.files[u]|] == cfg.files[u];
    if InArea(cfg.sizes, u, k, cfg.n, x) { AreasDisjoint(cfg.sizes, t, m, u, k, cfg.n, x); }
  }

  lemma CurrentElsewhere(cfg: Config, t: nat, m: nat, u: nat, c: Copier, x: nat)
    requires ConfigOk(cfg) && t < |cfg.files| && m < cfg.n && u < |cfg.files| && u != t && InArea(cfg.sizes, t, m, cfg.n, x)
    requires c.phase.Copying? && c.done < |cfg.files[u]| && c.phase.k < |Body(cfg.files[u][c.done])|
    requires c.phase.dst == Place(cfg, u, c.done)
    ensures !(c.phase.dst <= x < c.phase.dst + c.phase.k)
  {
    AreaElsewhere(cfg, t, m, u, cfg.files[u][c.done].mask, c.done + 1, x);
  }

  lemma EnabledInBounds(cfg: Config, s: State, t: nat)
    requires Inv(cfg, s) && Enabled(cfg, s, t)
    ensures InBounds(cfg, s, t) && s.copiers[t].done < |cfg.files[t]|
  {
    var c, recs := s.copiers[t], cfg.files[t];
    assert CopierOk(cfg, t, c, s.out);
    if c.done < |recs| {
      assert recs[c.done] in recs;
      match c.phase
      case AtRecord => ContentAt(recs, c.done);
      case Copying(dst, k, total) =>
        CopyInArea(cfg, t, c.done, k);
        AreaInBounds(cfg.sizes, t, recs[c.done].mask, cfg.n);
    }
  }

  /** The head of record r has been read. */
  ghost function HeadRead(c: Copier, r: HotTrans): Copier
    requires r.mask < |c.iter|
  {
    Copier(c.pos + 1, c.iter[r.mask := c.iter[r.mask] + |Body(r)|], Copying(c.iter[r.mask], 0, |Body(r)|), c.done)
  }

  lemma HeadOk(cfg: Config, t: nat, c: Copier, out: seq<nat>)
    requires ConfigOk(cfg) && t < |cfg.files| && CopierOk(cfg, t, c, out) && c.phase.AtRecord? && c.done < |cfg.files[t]|
    requires |out| == Base(cfg.sizes, cfg.n, cfg.n)
    ensures cfg.files[t][c.done].mask < |c.iter| && CopierOk(cfg, t, HeadRead(c, cfg.files[t][c.done]), out)
  {
    var r := cfg.files[t][c.done];
    HeadPlace(cfg, t, c, out);
    HeadIter(cfg, t, c.iter, c.done);
    hide IterIs, Copied, WordsTo, BodiesTo, ConfigOk, Start, Holds, Place;
    assert Body(r)[..0] == [];
  }

  /** What CopierOk says about the next step. */
  lemma HeadFacts(cfg: Config, t: nat, c: Copier, out: seq<nat>)
    requires ConfigOk(cfg) && t < |cfg.files| && CopierOk(cfg, t, c, out) && c.phase.AtRecord? && c.done < |cfg.files[t]|
    ensures RecordAt(WordsTo(cfg.files[t], |cfg.files[t]|), c.pos, cfg.files[t][c.done])
  {
    ContentAt(cfg.files[t], c.done);
  }

  lemma CopyFacts(cfg: Config, t: nat, c: Copier, out: seq<nat>)
    requires ConfigOk(cfg) && t < |cfg.files| && CopierOk(cfg, t, c, out) && c.phase.Copying?
    ensures c.done < |cfg.files[t]|
    ensures cfg.files[t][c.done].mask < cfg.n && c.phase.k < c.phase.total == |Body(cfg.files[t][c.done])|
    ensures c.pos >= 1 + c.phase.k && RecordAt(WordsTo(cfg.files[t], |cfg.files[t]|), c.pos - 1 - c.phase.k, cfg.files[t][c.done])
    ensures InArea(cfg.sizes, t, cfg.files[t][c.done].mask, cfg.n, c.phase.dst + c.phase.k)
  {
    assert FileOk(cfg.files[t], cfg.sizes[t], cfg.n);
    hide Copied, IterIs, Holds, Start, BodiesTo, InArea, Place, RecordAt, WordsTo;
    CopyInArea(cfg, t, c.done, c.phase.k);
    ContentAt(cfg.files[t], c.done);
  }

  /** Reading the head of a record. */
  lemma HeadKeeps(cfg: Config, s: State, t: nat)
    requires Inv(cfg, s) && Enabled(cfg, s, t) && s.copiers[t].phase.AtRecord? && InBounds(cfg, s, t)
    ensures Inv(cfg, Step(cfg, s, t))
  {
    EnabledInBounds(cfg, s, t);
    var c, recs := s.copiers[t], cfg.files[t];
    hide CopierOk, ConfigOk, WordsTo, Base, Step, InBounds;
    HeadFacts(cfg, t, c, s.out);
    HeadOk(cfg, t, c, s.out);
    HeadStep(cfg, s, t, recs[c.done]);
    var s' := Step(cfg, s, t);
    forall u | 0 <= u < |cfg.files| ensures CopierOk(cfg, u, s'.copiers[u], s'.out) {}
  }

  lemma HeadStep(cfg: Config, s: State, t: nat, r: HotTrans)
    requires Enabled(cfg, s, t) && InBounds(cfg, s, t) && s.copiers[t].phase.AtRecord?
    requires RecordAt(WordsTo(cfg.files[t], |cfg.files[t]|), s.copiers[t].pos, r)
    ensures r.mask < |s.copiers[t].iter| && Step(cfg, s, t) == s.(copiers := s.copiers[t := HeadRead(s.copiers[t], r)])
  {
    var content, p := WordsTo(cfg.files[t], |cfg.files[t]|), s.copiers[t].pos;
    assert content[p + 1] == content[p + 1..p + 1 + |Body(r)|][0] == |r.rest|;
  }

  lemma HeadIter(cfg: Config, t: nat, iter: seq<nat>, d: nat)
    requires ConfigOk(cfg) && t < |cfg.files| && d < |cfg.files[t]| && IterIs(cfg, t, iter, d)
    ensures var r := cfg.files[t][d]; r.mask < |iter| && IterIs(cfg, t, iter[r.mask := iter[r.mask] + |Body(r)|], d + 1)
  {
  }

  lemma HeadPlace(cfg: Config, t: nat, c: Copier, out: seq<nat>)
    requires ConfigOk(cfg) && t < |cfg.files| && c.done < |cfg.files[t]| && IterIs(cfg, t, c.iter, c.done) && |out| == Base(cfg.sizes, cfg.n, cfg.n)
    ensures cfg.files[t][c.done].mask < |c.iter| && c.iter[cfg.files[t][c.done].mask] == Place(cfg, t, c.done)
    ensures Holds(out, Place(cfg, t, c.done), [])
  {
    CopyInArea(cfg, t, c.done, 0);
    AreaInBounds(cfg.sizes, t, cfg.files[t][c.done].mask, cfg.n);
  }

  /** Copying a word. */
  lemma CopyKeeps(cfg: Config, s: State, t: nat)
    requires Inv(cfg, s) && Enabled(cfg, s, t) && s.copiers[t].phase.Copying? && InBounds(cfg, s, t)
    ensures Inv(cfg, Step(cfg, s, t))
  {
    hide CopierOk, ConfigOk, WordsTo, Base, Start, BodiesTo, InArea, RecordAt, Place, Step, Body, InBounds, WordCopied;
    var c, recs, s' := s.copiers[t], cfg.files[t], Step(cfg, s, t);
    CopyFacts(cfg, t, c, s.out);
    var r, x := recs[c.done], c.phase.dst + c.phase.k;
    XInBounds(cfg, s, t);
    CopyWord(cfg, t, c, s.out);
    WordStep(cfg, s, t, r);
    OthersCopierOk(cfg, s, t, r.mask, x, Body(r)[c.phase.k]);
  }

  lemma XInBounds(cfg: Config, s: State, t: nat)
    requires Enabled(cfg, s, t) && InBounds(cfg, s, t) && s.copiers[t].phase.Copying?
    ensures s.copiers[t].phase.dst + s.copiers[t].phase.k < |s.out|
  {
  }

  lemma OthersCopierOk(cfg: Config, s: State, t: nat, m: nat, x: nat, v: nat)
    requires Inv(cfg, s) && t < |cfg.files| && m < cfg.n && InArea(cfg.sizes, t, m, cfg.n, x) && x < |s.out|
    ensures forall u :: 0 <= u < |cfg.files| && u != t ==> CopierOk(cfg, u, s.copiers[u], s.out[x := v])
  {
    hide CopierOk, InArea, Base;
    forall u | 0 <= u < |cfg.files| && u != t ensures CopierOk(cfg, u, s.copiers[u], s.out[x := v]) {
      OtherUndisturbed(cfg, t, m, u, s.copiers[u], s.out, x, v);
    }
  }

  lemma WordStep(cfg: Config, s: State, t: nat, r: HotTrans)
    requires Enabled(cfg, s, t) && InBounds(cfg, s, t) && s.copiers[t].phase.Copying?
    requires s.copiers[t].pos >= 1 + s.copiers[t].phase.k && s.copiers[t].phase.k < |Body(r)|
    requires RecordAt(WordsTo(cfg.files[t], |cfg.files[t]|), s.copiers[t].pos - 1 - s.copiers[t].phase.k, r)
    ensures Step(cfg, s, t) == State(s.copiers[t := WordCopied(s.copiers[t])],
                                     s.out[s.copiers[t].phase.dst + s.copiers[t].phase.k := Body(r)[s.copiers[t].phase.k]])
  {
    hide Body, RecordAt, WordsTo;
    RecordWord(WordsTo(cfg.files[t], |cfg.files[t]|), s.copiers[t].pos - 1 - s.copiers[t].phase.k, r, s.copiers[t].phase.k);
  }

  lemma RecordWord(content: seq<nat>, p: nat, r: HotTrans, k: nat)
    requires RecordAt(content, p, r) && k < |Body(r)|
    ensures p + 1 + k < |content| && content[p + 1 + k] == Body(r)[k]
  {
    assert content[p + 1 + k] == content[p + 1..p + 1 + |Body(r)|][k];
  }

  ghost function WordCopied(c: Copier): Copier
    requires c.phase.Copying?
  {
    if c.phase.k + 1 < c.phase.total then c.(pos := c.pos + 1, phase := c.phase.(k := c.phase.k + 1))
    else c.(pos := c.pos + 1, phase := AtRecord, done := c.done + 1)
  }

  lemma CopyWord(cfg: Config, t: nat, c: Copier, out: seq<nat>)
    requires ConfigOk(cfg) && t < |cfg.files| && CopierOk(cfg, t, c, out) && c.phase.Copying? && c.phase.dst + c.phase.k < |out|
    ensures CopierOk(cfg, t, WordCopied(c), out[c.phase.dst + c.phase.k := Body(cfg.files[t][c.done])[c.phase.k]])
  {
    hide IterIs, WordsTo, Place, Copied, Holds, Body, ConfigOk;
    var r, k := cfg.files[t][c.done], c.phase.k;
    EarlierCopied(cfg, t, out, c.done, k);
    MoreCopied(out, c.phase.dst, Body(r), k);
    if k + 1 == |Body(r)| {
      RecordCopied(cfg, t, out[c.phase.dst + k := Body(r)[k]], c.done);
      NextPos(cfg, t, c.done);
    }
  }

  lemma MoreCopied(out: seq<nat>, dst: nat, body: seq<nat>, k: nat)
    requires k < |body| && Holds(out, dst, body[..k]) && dst + k < |out|
    ensures Holds(out[dst + k := body[k]], dst, body[..k + 1])
    ensures k + 1 == |body| ==> Holds(out[dst + k := body[k]], dst, body)
  {
    HoldsMore(out, dst, body[..k], body[k]);
    assert body[..k] + [body[k]] == body[..k + 1];
    if k + 1 == |body| { assert body[..k + 1] == body; }
  }

  lemma NextPos(cfg: Config, t: nat, d: nat)
    requires ConfigOk(cfg) && t < |cfg.files| && d < |cfg.files[t]|
    ensures |WordsTo(cfg.files[t], d + 1)| == |WordsTo(cfg.files[t], d)| + 1 + |Body(cfg.files[t][d])|
  {
    WordsLonger(cfg.files[t], d);
  }

  lemma EarlierCopied(cfg: Config, t: nat, out: seq<nat>, d: nat, k: nat)
    requires ConfigOk(cfg) && t < |cfg.files| && d < |cfg.files[t]| && Copied(cfg, t, out, d) && k < |Body(cfg.files[t][d])|
    requires Place(cfg, t, d) + k < |out|
    ensures Copied(cfg, t, out[Place(cfg, t, d) + k := Body(cfg.files[t][d])[k]], d)
  {
    var mask, x := cfg.files[t][d].mask, Place(cfg, t, d) + k;
    CopyInArea(cfg, t, d, k);
    forall m | 0 <= m < cfg.n
      ensures !(Start(cfg.sizes, t, m, cfg.n) <= x < Start(cfg.sizes, t, m, cfg.n) + |BodiesTo(cfg.files[t], d, m)|)
    {
      if m != mask { AreaElsewhere(cfg, t, mask, t, m, d, x); }
    }
    hide InArea, Start, BodiesTo, Copied, Place, Body;
    CopiedFrame(cfg, t, out, d, x, Body(cfg.files[t][d])[k]);
  }

  lemma RecordCopied(cfg: Config, t: nat, out: seq<nat>, d: nat)
    requires ConfigOk(cfg) && t < |cfg.files| && d < |cfg.files[t]| && Copied(cfg, t, out, d)
    requires Holds(out, Place(cfg, t, d), Body(cfg.files[t][d]))
    ensures Copied(cfg, t, out, d + 1)
  {
    var r := cfg.files[t][d];
    forall m | 0 <= m < cfg.n ensures Holds(out, Start(cfg.sizes, t, m, cfg.n), BodiesTo(cfg.files[t], d + 1, m)) {
      if m == r.mask { HoldsBoth(out, Start(cfg.sizes, t, m, cfg.n), BodiesTo(cfg.files[t], d, m), Body(r)); }
      else { assert BodiesTo(cfg.files[t], d + 1, m) == BodiesTo(cfg.files[t], d, m); }
    }
  }

  /** The schedule says which thread makes each step. */
  ghost predicate Run(cfg: Config, s0: State, schedule: seq<nat>, s: State)
    decreases |schedule|
  {
    if schedule == [] then s == s0
    else Enabled(cfg, s0, schedule[0]) && InBounds(cfg, s0, schedule[0]) && Run(cfg, Step(cfg, s0, schedule[0]), schedule[1..], s)
  }

  lemma {:induction false} RunKeeps(cfg: Config, s0: State, schedule: seq<nat>, s: State)
    requires Inv(cfg, s0) && Run(cfg, s0, schedule, s)
    ensures Inv(cfg, s)
    decreases |schedule|
  {
    if schedule != [] {
      StepKeeps(cfg, s0, schedule[0]);
      hide Inv, Enabled, InBounds, Step;
      RunKeeps(cfg, Step(cfg, s0, schedule[0]), schedule[1..], s);
    }
  }

  lemma StepKeeps(cfg: Config, s: State, t: nat)
    requires Inv(cfg, s) && Enabled(cfg, s, t) && InBounds(cfg, s, t)
    ensures Inv(cfg, Step(cfg, s, t))
  {
    if s.copiers[t].phase.AtRecord? { HeadKeeps(cfg, s, t); } else { CopyKeeps(cfg, s, t); }
  }

  /** The state after Iterators: nothing copied, `out` whatever was in the memory. */
  ghost predicate Started(cfg: Config, s: State)
    requires ConfigOk(cfg)
  {
    && |s.copiers| == |cfg.files| && |s.out| == Base(cfg.sizes, cfg.n, cfg.n)
    && forall t :: 0 <= t < |cfg.files| ==> AtStart(cfg, t, s.copiers[t])
  }

  ghost predicate AtStart(cfg: Config, t: nat, c: Copier)
    requires ConfigOk(cfg) && t < |cfg.files|
  {
    && c.pos == c.done == 0 && c.phase == AtRecord && |c.iter| == cfg.n
    && forall m :: 0 <= m < cfg.n && cfg.sizes[t][m] > 0 ==> c.iter[m] == Start(cfg.sizes, t, m, cfg.n)
  }

  lemma StartedInv(cfg: Config, s: State)
    requires ConfigOk(cfg) && Started(cfg, s)
    ensures Inv(cfg, s)
  {
    forall t | 0 <= t < |cfg.files| ensures CopierOk(cfg, t, s.copiers[t], s.out) {
      forall m | 0 <= m < cfg.n ensures Holds(s.out, Start(cfg.sizes, t, m, cfg.n), []) { AreaInBounds(cfg.sizes, t, m, cfg.n); }
    }
  }

  /** All threads have reached the ends of their files. */
  ghost predicate Finished(cfg: Config, s: State)
  {
    |s.copiers| == |cfg.files| && forall t :: 0 <= t < |cfg.files| ==> !Enabled(cfg, s, t)
  }

  lemma {:induction false} BodiesConcat(a: seq<HotTrans>, b: seq<HotTrans>, d: nat, m: nat)
    requires d <= |b|
    ensures BodiesTo(a + b, |a| + d, m) == BodiesTo(a, |a|, m) + BodiesTo(b, d, m)
  {
    if d == 0 { SameBodies(a, b, |a|, m); } else {
      BodiesConcat(a, b, d - 1, m);
      var last := if b[d - 1].mask == m then Body(b[d - 1]) else [];
      assert (a + b)[|a| + d - 1] == b[d - 1];
      assert BodiesTo(a + b, |a| + d, m) == BodiesTo(a + b, |a| + d - 1, m) + last;
      assert BodiesTo(b, d, m) == BodiesTo(b, d - 1, m) + last;
      hide BodiesTo, Body;
      Associative(BodiesTo(a, |a|, m), BodiesTo(b, d - 1, m), last);
    }
  }

  lemma Associative(x: seq<nat>, y: seq<nat>, z: seq<nat>)
    ensures x + (y + z) == x + y + z
  {
  }

  lemma {:induction false} SameBodies(a: seq<HotTrans>, b: seq<HotTrans>, d: nat, m: nat)
    requires d <= |a|
    ensures BodiesTo(a + b, d, m) == BodiesTo(a, d, m)
  {
    if d > 0 { SameBodies(a, b, d - 1, m); }
  }

  /** A thread with records left can go on. */
  lemma RecordsLeft(cfg: Config, s: State, t: nat)
    requires Inv(cfg, s) && t < |cfg.files|
    ensures var c := s.copiers[t]; c.done < |cfg.files[t]| ==> Enabled(cfg, s, t)
    ensures s.copiers[t].done <= |cfg.files[t]| && Copied(cfg, t, s.out, s.copiers[t].done)
  {
    var c, recs := s.copiers[t], cfg.files[t];
    assert CopierOk(cfg, t, c, s.out);
    hide Copied, IterIs, Start, BodiesTo, Holds;
    if c.done < |recs| { ContentAt(recs, c.done); }
  }

  /** The first j files' records with bitmask m are at its start. */
  lemma {:induction false} SegmentHolds(cfg: Config, s: State, m: nat, j: nat)
    requires Inv(cfg, s) && Finished(cfg, s) && m < cfg.n && j <= |cfg.files|
    ensures |Bodies(Flatten(cfg.files[..j]), m)| == ColSum(cfg.sizes, j, m)
    ensures Holds(s.out, Base(cfg.sizes, m, cfg.n), Bodies(Flatten(cfg.files[..j]), m))
  {
    if j == 0 {
      BaseMonotone(cfg.sizes, m, cfg.n, cfg.n);
    } else {
      SegmentHolds(cfg, s, m, j - 1);
      assert cfg.files[..j][..j - 1] == cfg.files[..j - 1];
      SegmentGrows(cfg, s, m, j - 1, Flatten(cfg.files[..j - 1]));
    }
  }

  lemma SegmentGrows(cfg: Config, s: State, m: nat, t: nat, before: seq<HotTrans>)
    requires Inv(cfg, s) && Finished(cfg, s) && m < cfg.n && t < |cfg.files|
    requires |Bodies(before, m)| == ColSum(cfg.sizes, t, m) && Holds(s.out, Base(cfg.sizes, m, cfg.n), Bodies(before, m))
    ensures |Bodies(before + cfg.files[t], m)| == ColSum(cfg.sizes, t + 1, m)
    ensures Holds(s.out, Base(cfg.sizes, m, cfg.n), Bodies(before + cfg.files[t], m))
  {
    var recs := cfg.files[t];
    BodiesConcat(before, recs, |recs|, m);
    FileCopied(cfg, s, m, t);
    hide BodiesTo, TypeSize, CopierOk, Inv, Finished, Holds, Base;
    HoldsBoth(s.out, Base(cfg.sizes, m, cfg.n), Bodies(before, m), Bodies(recs, m));
  }

  /** Thread t is through: its records with bitmask m are where its part of the segment begins. */
  lemma FileCopied(cfg: Config, s: State, m: nat, t: nat)
    requires Inv(cfg, s) && Finished(cfg, s) && m < cfg.n && t < |cfg.files|
    ensures |Bodies(cfg.files[t], m)| == cfg.sizes[t][m]
    ensures Holds(s.out, Start(cfg.sizes, t, m, cfg.n), Bodies(cfg.files[t], m))
  {
    hide BodiesTo, TypeSize, CopierOk, Holds, Start;
    var recs := cfg.files[t];
    BodiesSize(recs, |recs|, m);
    RecordsLeft(cfg, s, t);
    assert recs[..|recs|] == recs && FileOk(recs, cfg.sizes[t], cfg.n);
  }

  /** Whatever the schedule, when the threads are through the segment of every bitmask holds exactly the records with that bitmask, in
    * the order of the threads and of their files.
    */
  lemma ScatterIsExact(cfg: Config, s0: State, schedule: seq<nat>, s: State, m: nat)
    requires ConfigOk(cfg) && Started(cfg, s0) && Run(cfg, s0, schedule, s) && Finished(cfg, s) && m < cfg.n
    ensures Base(cfg.sizes, m, cfg.n) <= Base(cfg.sizes, m + 1, cfg.n) <= |s.out|
    ensures s.out[Base(cfg.sizes, m, cfg.n)..Base(cfg.sizes, m + 1, cfg.n)] == Bodies(Flatten(cfg.files), m)
  {
    hide Inv, Run, Started, Finished, Bodies, Flatten, ColSum;
    StartedInv(cfg, s0);
    RunKeeps(cfg, s0, schedule, s);
    SegmentHolds(cfg, s, m, |cfg.files|);
    assert cfg.files[..|cfg.files|] == cfg.files;
    SegmentEnd(cfg, s, m);
  }

  lemma SegmentEnd(cfg: Config, s: State, m: nat)
    requires Inv(cfg, s) && m < cfg.n
    ensures Base(cfg.sizes, m + 1, cfg.n) == Base(cfg.sizes, m, cfg.n) + ColSum(cfg.sizes, |cfg.files|, m) <= |s.out|
  {
    BaseMonotone(cfg.sizes, m + 1, cfg.n, cfg.n);
  }

  /** The items of the records with bitmask m among the first d. */
  ghost function Rests(recs: seq<HotTrans>, d: nat, m: nat): seq<seq<nat>>
    requires d <= |recs|
  {
    if d == 0 then [] else Rests(recs, d - 1, m) + if recs[d - 1].mask == m then [recs[d - 1].rest] else []
  }

  /** The loop of scan2_DB over a segment: it meets the item lists of exactly the records that were put there. */
  method ReadSegment(content: seq<nat>, base: nat, size: nat, ghost recs: seq<HotTrans>, ghost m: nat) returns (compacts: seq<seq<nat>>)
    requires base <= size <= |content| && content[base..size] == Bodies(recs, m)
    ensures compacts == Rests(recs, |recs|, m)
  {
    compacts := [];
    var pos := base;
    ghost var d: nat := 0;
    StartSegment(content, base, size, recs, m);
    hide SegmentRead, Bodies, Rests;
    while pos < size
      invariant base <= pos <= size && SegmentRead(base, recs, m, d, pos, compacts)
    {
      d := NextRead(content, base, size, recs, m, d, pos, compacts);
      var has := content[pos];
      pos := pos + 1;
      compacts := compacts + [content[pos..pos + has]];
      pos := pos + has;
    }
    EndSegment(content, base, size, recs, m, d, compacts);
  }

  /** The records before d have been read. */
  ghost predicate SegmentRead(base: nat, recs: seq<HotTrans>, m: nat, d: nat, pos: nat, compacts: seq<seq<nat>>)
  {
    d <= |recs| && pos == base + |BodiesTo(recs, d, m)| && compacts == Rests(recs, d, m)
  }

  lemma StartSegment(content: seq<nat>, base: nat, size: nat, recs: seq<HotTrans>, m: nat)
    ensures SegmentRead(base, recs, m, 0, base, [])
  {
  }

  lemma NextRead(content: seq<nat>, base: nat, size: nat, recs: seq<HotTrans>, m: nat, d: nat, pos: nat, compacts: seq<seq<nat>>)
      returns (d': nat)
    requires base <= size <= |content| && content[base..size] == Bodies(recs, m) && SegmentRead(base, recs, m, d, pos, compacts) && pos < size
    ensures pos + 1 + content[pos] <= size
    ensures SegmentRead(base, recs, m, d', pos + 1 + content[pos], compacts + [content[pos + 1..pos + 1 + content[pos]]])
  {
    hide BodiesTo, Rests;
    assert |Bodies(recs, m)| == size - base;
    d' := NextOfMask(recs, d, m);
    HeadAt(content, base, size, recs, d', m);
    d' := d' + 1;
  }

  lemma EndSegment(content: seq<nat>, base: nat, size: nat, recs: seq<HotTrans>, m: nat, d: nat, compacts: seq<seq<nat>>)
    requires base <= size <= |content| && content[base..size] == Bodies(recs, m) && SegmentRead(base, recs, m, d, size, compacts)
    ensures compacts == Rests(recs, |recs|, m)
  {
    assert |Bodies(recs, m)| == size - base;
    RestLacks(recs, d, m);
  }

  /** The next record with bitmask m. */
  lemma {:induction false} NextOfMask(recs: seq<HotTrans>, d: nat, m: nat) returns (e: nat)
    requires d <= |recs| && |BodiesTo(recs, d, m)| < |Bodies(recs, m)|
    ensures d <= e < |recs| && recs[e].mask == m && |BodiesTo(recs, e, m)| == |BodiesTo(recs, d, m)| && Rests(recs, e, m) == Rests(recs, d, m)
    decreases |recs| - d
  {
    if recs[d].mask == m { e := d; } else { e := NextOfMask(recs, d + 1, m); }
  }

  lemma HeadAt(content: seq<nat>, base: nat, size: nat, recs: seq<HotTrans>, d: nat, m: nat)
    requires base <= size <= |content| && content[base..size] == Bodies(recs, m) && d < |recs| && recs[d].mask == m
    ensures base + |BodiesTo(recs, d + 1, m)| <= size && |BodiesTo(recs, d + 1, m)| == |BodiesTo(recs, d, m)| + 1 + |recs[d].rest|
    ensures content[base + |BodiesTo(recs, d, m)|] == |recs[d].rest|
    ensures var p := base + |BodiesTo(recs, d, m)| + 1; content[p..p + |recs[d].rest|] == recs[d].rest
    ensures Rests(recs, d + 1, m) == Rests(recs, d, m) + [recs[d].rest]
  {
    hide BodiesTo;
    BodiesPrefix(recs, d + 1, |recs|, m);
    BodiesLonger(recs, d, m);
    WithinSlice(content, base, size, Bodies(recs, m), BodiesTo(recs, d, m), recs[d].rest);
  }

  lemma BodiesLonger(recs: seq<HotTrans>, d: nat, m: nat)
    requires d < |recs| && recs[d].mask == m
    ensures BodiesTo(recs, d + 1, m) == BodiesTo(recs, d, m) + ([|recs[d].rest|] + recs[d].rest)
  {
  }

  lemma WithinSlice(content: seq<nat>, base: nat, size: nat, all: seq<nat>, a: seq<nat>, r: seq<nat>)
    requires base <= size <= |content| && content[base..size] == all && a + ([|r|] + r) <= all
    ensures base + |a| + 1 + |r| <= size && content[base + |a|] == |r| && content[base + |a| + 1..base + |a| + 1 + |r|] == r
  {
    var b := a + ([|r|] + r);
    assert content[base + |a|] == all[|a|] == b[|a|] == |r|;
    forall i | 0 <= i < |r| ensures content[base + |a| + 1 + i] == r[i] {
      assert content[base + (|a| + 1 + i)] == all[|a| + 1 + i] == b[|a| + 1 + i];
    }
  }

  lemma {:induction false} RestLacks(recs: seq<HotTrans>, d: nat, m: nat)
    requires d <= |recs| && |BodiesTo(recs, d, m)| == |Bodies(recs, m)|
    ensures Rests(recs, d, m) == Rests(recs, |recs|, m)
    decreases |recs| - d
  {
    if d < |recs| {
      BodiesPrefix(recs, d + 1, |recs|, m);
      RestLacks(recs, d + 1, m);
    }
  }

  /** The records with bitmask m, in order: what the tree below hot node m is built from. */
  function OfMask(recs: seq<HotTrans>, d: nat, m: nat): seq<HotTrans>
    requires d <= |recs|
  {
    if d == 0 then [] else OfMask(recs, d - 1, m) + if recs[d - 1].mask == m then [recs[d - 1]] else []
  }

  /** The records as scan2_DB goes through them: bitmask by bitmask, in the order of the sorted list. */
  function Grouped(recs: seq<HotTrans>, ids: seq<nat>, n: nat): seq<HotTrans>
    requires n <= |ids|
  {
    if n == 0 then [] else Grouped(recs, ids, n - 1) + OfMask(recs, |recs|, ids[n - 1])
  }

  lemma {:induction false} OfMaskCount(recs: seq<HotTrans>, d: nat, m: nat, r: HotTrans)
    requires d <= |recs|
    ensures multiset(OfMask(recs, d, m))[r] == if r.mask == m then multiset(recs[..d])[r] else 0
  {
    if d > 0 {
      var a, last := OfMask(recs, d - 1, m), recs[d - 1];
      assert OfMask(recs, d, m) == if last.mask == m then a + [last] else a;
      assert recs[..d] == recs[..d - 1] + [last];
      hide *;
      OfMaskCount(recs, d - 1, m, r);
      CountAppend(recs[..d - 1], last, r);
      CountAppend(a, last, r);
    }
  }

  ghost predicate AmongFirst(ids: seq<nat>, n: nat, m: nat) { exists x :: 0 <= x < n && x < |ids| && ids[x] == m }

  lemma {:induction false} GroupedCount(recs: seq<HotTrans>, ids: seq<nat>, n: nat, r: HotTrans)
    requires n <= |ids| && forall x, y :: 0 <= x < y < n ==> ids[x] != ids[y]
    ensures multiset(Grouped(recs, ids, n))[r] == if AmongFirst(ids, n, r.mask) then multiset(recs)[r] else 0
  {
    if n > 0 {
      GroupedCount(recs, ids, n - 1, r);
      OfMaskCount(recs, |recs|, ids[n - 1], r);
      assert recs[..|recs|] == recs;
      assert AmongFirst(ids, n, r.mask) <==> AmongFirst(ids, n - 1, r.mask) || ids[n - 1] == r.mask;
      hide OfMask;
      assert !(AmongFirst(ids, n - 1, r.mask) && ids[n - 1] == r.mask);
    }
  }

  lemma {:induction false} SizesAdd(cfg: Config, m: nat, j: nat)
    requires ConfigOk(cfg) && m < cfg.n && j <= |cfg.files|
    ensures |Bodies(Flatten(cfg.files[..j]), m)| == ColSum(cfg.sizes, j, m)
  {
    if j > 0 {
      SizesAdd(cfg, m, j - 1);
      var recs := cfg.files[j - 1];
      assert cfg.files[..j][..j - 1] == cfg.files[..j - 1];
      BodiesConcat(Flatten(cfg.files[..j - 1]), recs, |recs|, m);
      BodiesSize(recs, |recs|, m);
      assert recs[..|recs|] == recs && FileOk(recs, cfg.sizes[j - 1], cfg.n);
      hide BodiesTo, TypeSize;
    }
  }

  lemma {:induction false} RecordInBodies(recs: seq<HotTrans>, d: nat, k: nat)
    requires k < d <= |recs|
    ensures |BodiesTo(recs, d, recs[k].mask)| > 0
  {
    if k < d - 1 { RecordInBodies(recs, d - 1, k); }
  }

  lemma {:induction false} AllMasks(cfg: Config, j: nat, k: nat)
    requires ConfigOk(cfg) && j <= |cfg.files| && k < |Flatten(cfg.files[..j])|
    ensures Flatten(cfg.files[..j])[k].mask < cfg.n
  {
    assert j > 0 ==> cfg.files[..j][..j - 1] == cfg.files[..j - 1] && FileOk(cfg.files[j - 1], cfg.sizes[j - 1], cfg.n);
    if j > 0 && k < |Flatten(cfg.files[..j - 1])| { AllMasks(cfg, j - 1, k); }
  }

  /** Going through the sorted list of non-empty bitmasks, scan2_DB meets every record of every file exactly once. */
  lemma EveryRecordOnce(cfg: Config, sumntype: seq<nat>, ids: seq<nat>, useful: nat)
    requires ConfigOk(cfg) && |sumntype| == cfg.n && forall m :: 0 <= m < cfg.n ==> sumntype[m] == ColSum(cfg.sizes, |cfg.sizes|, m)
    requires useful <= |ids| && forall x, y :: 0 <= x < y < useful ==> ids[x] != ids[y]
    requires forall m :: m in Useful(sumntype) ==> exists x :: 0 <= x < useful && ids[x] == m
    ensures multiset(Grouped(Flatten(cfg.files), ids, useful)) == multiset(Flatten(cfg.files))
  {
    var recs := Flatten(cfg.files);
    assert cfg.files[..|cfg.files|] == cfg.files;
    forall r ensures multiset(Grouped(recs, ids, useful))[r] == multiset(recs)[r] {
      GroupedCount(recs, ids, useful, r);
      if r in recs {
        var k :| 0 <= k < |recs| && recs[k] == r;
        AllMasks(cfg, |cfg.files|, k);
        SizesAdd(cfg, r.mask, |cfg.files|);
        RecordInBodies(recs, |recs|, k);
        assert r.mask in Useful(sumntype);
        var x :| 0 <= x < useful && ids[x] == r.mask;
        assert AmongFirst(ids, useful, r.mask);
      }
    }
  }
}
