/** From the threads' files to the records in the order of scan2_DB: the scatter as a program, and the reading of its segments. */
module FpSegments {
  import opened Common
  import opened Sums
  import opened FpLinking
  import opened FpScatter

  /** How many words of its file every thread has before it. */
  ghost function WordsLeft(cfg: Config, s: State): seq<int>
    requires |s.copiers| == |cfg.files|
  {
    seq(|cfg.files|, t requires 0 <= t < |cfg.files| => |WordsTo(cfg.files[t], |cfg.files[t]|)| - s.copiers[t].pos)
  }

  ghost predicate Inside(cfg: Config, s: State)
  {
    |s.copiers| == |cfg.files| && forall t :: 0 <= t < |cfg.files| ==> s.copiers[t].pos <= |WordsTo(cfg.files[t], |cfg.files[t]|)|
  }

  lemma StepReads(cfg: Config, s: State, t: nat)
    requires Inside(cfg, s) && Enabled(cfg, s, t) && InBounds(cfg, s, t)
    ensures Inside(cfg, Step(cfg, s, t)) && 0 <= Sum(WordsLeft(cfg, Step(cfg, s, t))) == Sum(WordsLeft(cfg, s)) - 1
  {
    hide WordsTo, Sum;
    var s', a := Step(cfg, s, t), WordsLeft(cfg, s);
    assert WordsLeft(cfg, s') == a[t := a[t] - 1];
    SumUpdate(a, t, a[t] - 1);
    SumNonNegative(WordsLeft(cfg, s'));
  }

  lemma {:induction false} RunAppend(cfg: Config, s0: State, schedule: seq<nat>, s: State, t: nat)
    requires Run(cfg, s0, schedule, s) && Enabled(cfg, s, t) && InBounds(cfg, s, t)
    ensures Run(cfg, s0, schedule + [t], Step(cfg, s, t))
    decreases |schedule|
  {
    hide Enabled, InBounds, Step;
    if schedule == [] {
      assert (schedule + [t])[1..] == [];
    } else {
      RunAppend(cfg, Step(cfg, s0, schedule[0]), schedule[1..], s, t);
      assert (schedule + [t])[1..] == schedule[1..] + [t];
    }
  }

  /** What holds between two steps of the threads. */
  ghost predicate UnderWay(cfg: Config, s0: State, schedule: seq<nat>, s: State) { Inv(cfg, s) && Inside(cfg, s) && Run(cfg, s0, schedule, s) }

  lemma SettingOut(cfg: Config, s0: State)
    requires ConfigOk(cfg) && Started(cfg, s0)
    ensures UnderWay(cfg, s0, [], s0) && |s0.copiers| == |cfg.files|
  {
    StartedInv(cfg, s0);
  }

  lemma GoingOn(cfg: Config, s0: State, schedule: seq<nat>, s: State, t: nat)
    requires UnderWay(cfg, s0, schedule, s) && Enabled(cfg, s, t)
    ensures InBounds(cfg, s, t) && UnderWay(cfg, s0, schedule + [t], Step(cfg, s, t))
    ensures |s.copiers| == |Step(cfg, s, t).copiers| == |cfg.files|
    ensures 0 <= Sum(WordsLeft(cfg, Step(cfg, s, t))) < Sum(WordsLeft(cfg, s))
  {
    EnabledInBounds(cfg, s, t);
    hide Inv, Run, Step, Enabled, InBounds;
    StepKeeps(cfg, s, t);
    StepReads(cfg, s, t);
    RunAppend(cfg, s0, schedule, s, t);
  }

  /** The threads copy, each a word at a time, whichever goes next, until all have reached the ends of their files. */
  method CopyAll(cfg: Config, s0: State) returns (s: State, ghost schedule: seq<nat>)
    requires ConfigOk(cfg) && Started(cfg, s0)
    ensures Run(cfg, s0, schedule, s) && Finished(cfg, s)
  {
    hide *;
    SettingOut(cfg, s0);
    s, schedule := s0, [];
    while exists t :: 0 <= t < |cfg.files| && Enabled(cfg, s, t)
      invariant |s.copiers| == |cfg.files| && UnderWay(cfg, s0, schedule, s)
      decreases Sum(WordsLeft(cfg, s))
    {
      var t :| 0 <= t < |cfg.files| && Enabled(cfg, s, t);
      GoingOn(cfg, s0, schedule, s, t);
      s, schedule := Step(cfg, s, t), schedule + [t];
    }
    AllThrough(cfg, s0, schedule, s);
  }

  lemma AllThrough(cfg: Config, s0: State, schedule: seq<nat>, s: State)
    requires UnderWay(cfg, s0, schedule, s) && !exists t :: 0 <= t < |cfg.files| && Enabled(cfg, s, t)
    ensures Run(cfg, s0, schedule, s) && Finished(cfg, s)
  {
    hide Inv, Enabled;
  }

  /** The records that item lists found in the segment of bitmask m stand for. */
  function Records(m: nat, compacts: seq<seq<nat>>): seq<HotTrans>
  {
    seq(|compacts|, k requires 0 <= k < |compacts| => HotTrans(m, compacts[k], 1))
  }

  /** The lists that are read from the segment of a bitmask are those of its records, in their order. */
  lemma {:induction false} SegmentRecords(recs: seq<HotTrans>, d: nat, m: nat)
    requires d <= |recs| && forall k :: 0 <= k < d ==> recs[k].weight == 1
    ensures Records(m, Rests(recs, d, m)) == OfMask(recs, d, m)
  {
    if d > 0 { SegmentRecords(recs, d - 1, m); }
  }

  /** The segments of the first n bitmasks of the list lie in the array. */
  ghost predicate SegmentsOk(content: seq<nat>, base: seq<nat>, end: seq<nat>, recs: seq<HotTrans>, ids: seq<nat>, n: nat)
  {
    && n <= |ids| && |base| == |end|
    && (forall x :: 0 <= x < n ==> ids[x] < |base| && base[ids[x]] <= end[ids[x]] <= |content|)
    && (forall x :: 0 <= x < n ==> content[base[ids[x]]..end[ids[x]]] == Bodies(recs, ids[x]))
  }

  /** scan2_DB down the sorted list of bitmasks. */
  method ReadSegments(content: seq<nat>, base: seq<nat>, end: seq<nat>, ids: seq<nat>, useful: nat, ghost recs: seq<HotTrans>)
      returns (hdb: seq<HotTrans>)
    requires SegmentsOk(content, base, end, recs, ids, useful) && forall k :: 0 <= k < |recs| ==> recs[k].weight == 1
    ensures hdb == Grouped(recs, ids, useful)
  {
    hide Bodies, OfMask, Records, Rests;
    hdb := [];
    var x := 0;
    while x < useful
      invariant 0 <= x <= useful && hdb == Grouped(recs, ids, x)
    {
      var compacts := ReadSegment(content, base[ids[x]], end[ids[x]], recs, ids[x]);
      SegmentRecords(recs, |recs|, ids[x]);
      hdb := hdb + Records(ids[x], compacts);
      x := x + 1;
    }
  }

  /** The threads at the starts of their files; `out` is memory as it was found. */
  method Begin(cfg: Config, base: seq<nat>, size: nat) returns (s0: State)
    requires ConfigOk(cfg) && |base| == cfg.n && (forall m :: 0 <= m < cfg.n ==> base[m] == Base(cfg.sizes, m, cfg.n))
    requires size == Base(cfg.sizes, cfg.n, cfg.n)
    ensures Started(cfg, s0)
  {
    var iter0 := new nat[|cfg.sizes|, cfg.n];
    Iterators(cfg.sizes, cfg.n, base, iter0);
    var copiers := CopiersOf(cfg, iter0);
    var memory := new nat[size];
    s0 := State(copiers, memory[..]);
  }

  method CopiersOf(cfg: Config, iter0: array2<nat>) returns (copiers: seq<Copier>)
    requires ConfigOk(cfg) && iter0.Length0 == |cfg.sizes| && iter0.Length1 == cfg.n
    requires forall t, m :: 0 <= t < |cfg.sizes| && 0 <= m < cfg.n && cfg.sizes[t][m] > 0 ==> iter0[t, m] == Start(cfg.sizes, t, m, cfg.n)
    ensures |copiers| == |cfg.files| && forall t :: 0 <= t < |cfg.files| ==> AtStart(cfg, t, copiers[t])
  {
    copiers := [];
    while |copiers| < |cfg.files|
      invariant |copiers| <= |cfg.files| && forall t :: 0 <= t < |copiers| ==> AtStart(cfg, t, copiers[t])
    {
      var iter := ReadRow(iter0, |copiers|);
      SetOut(cfg, |copiers|, iter);
      copiers := copiers + [Copier(0, iter, AtRecord, 0)];
    }
  }

  lemma SetOut(cfg: Config, t: nat, iter: seq<nat>)
    requires ConfigOk(cfg) && t < |cfg.files| && |iter| == cfg.n
    requires forall m :: 0 <= m < cfg.n && cfg.sizes[t][m] > 0 ==> iter[m] == Start(cfg.sizes, t, m, cfg.n)
    ensures AtStart(cfg, t, Copier(0, iter, AtRecord, 0))
  {
  }

  method ReadRow(a: array2<nat>, t: nat) returns (row: seq<nat>)
    requires t < a.Length0
    ensures |row| == a.Length1 && forall m :: 0 <= m < a.Length1 ==> row[m] == a[t, m]
  {
    row := [];
    while |row| < a.Length1
      invariant |row| <= a.Length1 && forall m :: 0 <= m < |row| ==> row[m] == a[t, m]
    {
      row := row + [a[t, |row|]];
    }
  }

  /** The second half of database_tiling and the reading loops of scan2_DB: whatever the schedule, the records come back grouped. */
  method Rearrange(cfg: Config, base: seq<nat>, end: seq<nat>, size: nat, ids: seq<nat>, useful: nat) returns (hdb: seq<HotTrans>)
    requires ConfigOk(cfg) && |base| == |end| == cfg.n && size == Base(cfg.sizes, cfg.n, cfg.n)
    requires forall m :: 0 <= m < cfg.n ==> base[m] == Base(cfg.sizes, m, cfg.n) && end[m] == Base(cfg.sizes, m + 1, cfg.n)
    requires useful <= |ids| && forall x :: 0 <= x < useful ==> ids[x] < cfg.n
    requires forall k :: 0 <= k < |Flatten(cfg.files)| ==> Flatten(cfg.files)[k].weight == 1
    ensures hdb == Grouped(Flatten(cfg.files), ids, useful)
  {
    hide ConfigOk, Started, Run, Finished, Flatten, Bodies, Grouped;
    var s0 := Begin(cfg, base, size);
    var s, schedule := CopyAll(cfg, s0);
    forall x | 0 <= x < useful
      ensures base[ids[x]] <= end[ids[x]] <= |s.out| && s.out[base[ids[x]]..end[ids[x]]] == Bodies(Flatten(cfg.files), ids[x])
    {
      ScatterIsExact(cfg, s0, schedule, s, ids[x]);
    }
    hdb := ReadSegments(s.out, base, end, ids, useful, Flatten(cfg.files));
  }
}
