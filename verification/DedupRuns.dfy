/** Whole runs of the dedup pipeline: whatever the schedule, the output is the serial writer's, the pipeline never gets
  * stuck before everything is written, and it stops.
  */
module DedupRuns {
  import opened Common
  import opened Sums
  import opened Hashtables
  import opened DedupProtocol

  ghost predicate Run(c: Config, s: State, steps: seq<Step>, s': State)
    requires ConfigOk(c)
    decreases |steps|
  {
    if steps == [] then s' == s
    else Sized(c, s) && Enabled(c, s, steps[0]) && Run(c, Apply(c, s, steps[0]), steps[1..], s')
  }

  /** How many queue operations and kernels a chunk still has before it. */
  function Hops(l: Loc): nat
  {
    match l
    case Todo => 9 case DeduplicateQue => 8 case Deduplicating(_) => 7 case Routing(_) => 6
    case CompressQue => 5 case Compressing(_) => 4 case Compressed(_) => 3
    case ReorderQue => 2 case Cached => 1 case Written => 0
  }

  ghost function HopsOf(loc: seq<Loc>): seq<int> { seq(|loc|, i requires 0 <= i < |loc| => Hops(loc[i])) }

  ghost function Running(done: seq<bool>): seq<int> { seq(|done|, t requires 0 <= t < |done| => if done[t] then 0 else 1) }

  ghost function Work(s: State): int
  {
    Sum(HopsOf(s.loc)) + Sum(Running(s.refineDone)) + Sum(Running(s.dedupDone)) + Sum(Running(s.compressDone))
  }

  /** An upper bound on the number of steps left. */
  ghost function Measure(c: Config, s: State): int { Weighted(NQueues(c), Work(s), s.misses) }

  function Weighted(nq: nat, work: int, misses: int): int { (nq + 1) * work + nq - misses }

  lemma WorkNonNegative(s: State)
    ensures Work(s) >= 0
  {
    SumNonNegative(HopsOf(s.loc));
    SumNonNegative(Running(s.refineDone));
    SumNonNegative(Running(s.dedupDone));
    SumNonNegative(Running(s.compressDone));
  }

  lemma MoveHops(loc: seq<Loc>, i: nat, to: Loc)
    requires i < |loc|
    ensures Sum(HopsOf(loc[i := to])) == Sum(HopsOf(loc)) - Hops(loc[i]) + Hops(to)
  {
    assert HopsOf(loc[i := to]) == HopsOf(loc)[i := Hops(to)];
    SumUpdate(HopsOf(loc), i, Hops(to));
  }

  lemma StopThread(done: seq<bool>, t: nat)
    requires t < |done| && !done[t]
    ensures Sum(Running(done[t := true])) == Sum(Running(done)) - 1
  {
    assert Running(done[t := true]) == Running(done)[t := 0];
    SumUpdate(Running(done), t, 0);
  }

  /** Every step but Reorder's looking at a terminated queue is progress with a chunk or a thread. */
  lemma WorkShrinks(c: Config, s: State, step: Step)
    requires ConfigOk(c) && Sized(c, s) && Enabled(c, s, step) && ReorderOk(c, s)
    ensures step.ReorderSkip? ==> Work(Apply(c, s, step)) == Work(s)
    ensures !step.ReorderSkip? ==> Work(Apply(c, s, step)) < Work(s)
  {
    hide Sum, HopsOf, Running, Terminated, QueueEmpty, DedupIdle, CompressIdle, SerialStream;
    match step
    case RefineStop(t) => StopThread(s.refineDone, t);
    case DedupStop(t) => StopThread(s.dedupDone, t);
    case CompressStop(t) => StopThread(s.compressDone, t);
    case ReorderSkip =>
    case _ => ChunkMoves(c, s, step);
  }

  lemma ChunkMoves(c: Config, s: State, step: Step)
    requires ConfigOk(c) && Sized(c, s) && Enabled(c, s, step) && ReorderOk(c, s)
    requires !step.RefineStop? && !step.DedupStop? && !step.CompressStop? && !step.ReorderSkip?
    ensures Work(Apply(c, s, step)) < Work(s)
  {
    hide Work, Terminated, QueueEmpty, DedupIdle, CompressIdle, SerialStream, Original, SerialRecord;
    var s' := Apply(c, s, step);
    match step
    case Emit(i) => OnItsWay(s, s', i, DeduplicateQue);
    case DedupFetch(i, t) => OnItsWay(s, s', i, Deduplicating(t));
    case Deduplicate(i) => OnItsWay(s, s', i, Routing(s.loc[i].t));
    case Route(i) => OnItsWay(s, s', i, if s.isDuplicate[i] then ReorderQue else CompressQue);
    case CompressFetch(i, t) => OnItsWay(s, s', i, Compressing(t));
    case Compress(i) => OnItsWay(s, s', i, Compressed(s.loc[i].t));
    case Forward(i) => OnItsWay(s, s', i, ReorderQue);
    case ReorderFetch(i) => OnItsWay(s, s', i, Cached);
    case WriteChunk => OnItsWay(s, s', s.next, Written);
  }

  lemma OnItsWay(s: State, s': State, i: nat, to: Loc)
    requires i < |s.loc| && s'.loc == s.loc[i := to] && Hops(to) < Hops(s.loc[i])
    requires s'.refineDone == s.refineDone && s'.dedupDone == s.dedupDone && s'.compressDone == s.compressDone
    ensures Work(s') < Work(s)
  {
    hide HopsOf, Running, Sum;
    MoveHops(s.loc, i, to);
  }

  /** The measure orders by work first, then by the queues still to be looked at. */
  lemma MeasureOrder(nq: nat, x: int, x': int, m: int, m': nat)
    requires m <= nq && (x' < x || (x' == x && m < m'))
    ensures Weighted(nq, x', m') < Weighted(nq, x, m)
  {
    if x' < x { Larger(nq + 1, x, x'); }
  }

  lemma Misses(c: Config, s: State, step: Step)
    requires ConfigOk(c) && Sized(c, s) && Enabled(c, s, step)
    ensures Apply(c, s, step).misses == if step.ReorderSkip? then s.misses + 1 else if step.ReorderFetch? then 0 else s.misses
  {
    hide Terminated, QueueEmpty, DedupIdle, CompressIdle;
  }

  lemma InvParts(c: Config, s: State)
    requires ConfigOk(c) && Inv(c, s)
    ensures Sized(c, s) && ReorderOk(c, s) && s.misses <= NQueues(c)
  {
    hide TableOk, DataOk, FlushOk, HandsOk, StopsOk, ReorderOk;
  }

  lemma MeasureShrinks(c: Config, s: State, step: Step)
    requires ConfigOk(c) && Inv(c, s) && Enabled(c, s, step)
    ensures Measure(c, Apply(c, s, step)) < Measure(c, s)
  {
    InvParts(c, s);
    hide Inv, Enabled, Apply, ReorderOk, Work, Weighted, NQueues;
    WorkShrinks(c, s, step);
    Misses(c, s, step);
    MeasureOrder(NQueues(c), Work(s), Work(Apply(c, s, step)), s.misses, Apply(c, s, step).misses);
  }

  /** The invariant holds throughout every run, and every run is finite. */
  lemma {:induction false} RunKeeps(c: Config, s: State, steps: seq<Step>, s': State)
    requires ConfigOk(c) && Inv(c, s) && Run(c, s, steps, s')
    ensures Inv(c, s') && |steps| + Measure(c, s') <= Measure(c, s)
    decreases |steps|
  {
    hide Inv, Measure, Enabled, Apply;
    if steps != [] {
      StepKeeps(c, s, steps[0]);
      MeasureShrinks(c, s, steps[0]);
      RunKeeps(c, Apply(c, s, steps[0]), steps[1..], s');
    }
  }

  /** Schedule independence: in every reachable state the records written are a prefix of the serial writer's stream. */
  lemma OutputIsSerial(c: Config, steps: seq<Step>, s: State)
    requires ConfigOk(c) && Run(c, Initial(c), steps, s)
    ensures s.next <= |c.sha1| && s.out == SerialStream(c.sha1, s.next)
    ensures Deduplicated(c.sha1, s.out) && |s.out| == s.next
  {
    InvInitially(c);
    RunKeeps(c, Initial(c), steps, s);
    WritesDeduplicated(c, s);
  }

  lemma RunsAreBounded(c: Config, steps: seq<Step>, s: State)
    requires ConfigOk(c) && Run(c, Initial(c), steps, s)
    ensures |steps| <= (NQueues(c) + 1) * (9 * |c.sha1| + 3 * c.nthreads) + NQueues(c)
  {
    hide *;
    InvInitially(c);
    RunKeeps(c, Initial(c), steps, s);
    MeasureNonNegative(c, s);
    InitialMeasure(c);
  }

  lemma MeasureNonNegative(c: Config, s: State)
    requires ConfigOk(c) && Inv(c, s)
    ensures Measure(c, s) >= 0
  {
    InvParts(c, s);
    hide Inv, NQueues, Work;
    WorkNonNegative(s);
    Product(NQueues(c) + 1, Work(s));
  }

  lemma InitialMeasure(c: Config)
    requires ConfigOk(c)
    ensures Measure(c, Initial(c)) == (NQueues(c) + 1) * (9 * |c.sha1| + 3 * c.nthreads) + NQueues(c)
  {
    InitialWork(c);
    assert Initial(c).misses == 0;
    hide Work, NQueues, Initial;
  }

  lemma {:induction false} SameEach(s: seq<int>, a: nat)
    requires forall k :: 0 <= k < |s| ==> s[k] == a
    ensures Sum(s) == a * |s|
  {
    if s != [] { SameEach(s[..|s| - 1], a); }
  }

  lemma InitialWork(c: Config)
    requires ConfigOk(c)
    ensures Work(Initial(c)) == 9 * |c.sha1| + 3 * c.nthreads
  {
    SameEach(HopsOf(Initial(c).loc), 9);
    SameEach(Running(Initial(c).refineDone), 1);
  }

  lemma Product(a: nat, b: nat)
    ensures a * b >= 0
  {
  }

  /** A chunk whose data Reorder is waiting for is with, or queued for, a Deduplicate or Compress thread. */
  lemma WaitedForIsUnderWay(c: Config, s: State)
    requires ConfigOk(c) && Inv(c, s) && s.writing && s.state[Original(s, s.next)] == UNCOMPRESSED
    ensures var o := Original(s, s.next);
      !s.isDuplicate[o] && (s.loc[o].Routing? || s.loc[o].CompressQue? || s.loc[o].Compressing?)
  {
    WriteFinds(c, s);
    var o := Original(s, s.next);
    assert ChunkOk(s.loc[o], s.isDuplicate[o], s.state[o]);
  }

  /** Compressed data exists, now or formerly, of exactly the originals that are past the compression stage. */
  lemma DataAfterCompression(c: Config, steps: seq<Step>, s: State, i: nat)
    requires ConfigOk(c) && Run(c, Initial(c), steps, s) && Sized(c, s) && i < |s.loc|
    ensures s.state[i] != UNCOMPRESSED <==>
      !s.isDuplicate[i] && (s.loc[i].Compressed? || s.loc[i].ReorderQue? || s.loc[i].Cached? || s.loc[i].Written?)
  {
    InvInitially(c);
    RunKeeps(c, Initial(c), steps, s);
    assert ChunkOk(s.loc[i], s.isDuplicate[i], s.state[i]);
  }

  /** The assertion in queue_enqueue holds: nobody enqueues into a queue that all its producers have terminated. */
  lemma EnqueueAssertions(c: Config, s: State, i: nat)
    requires ConfigOk(c) && Inv(c, s) && i < |s.loc|
    ensures s.loc[i].Todo? ==> !Terminated(s.refineDone, Lane(c, i))
    ensures s.loc[i].Routing? && !s.isDuplicate[i] ==> !Terminated(s.dedupDone, Lane(c, i))
    ensures s.loc[i].Routing? && s.isDuplicate[i] ==> !Terminated(s.compressDone, Lane(c, i))
    ensures s.loc[i].Compressed? ==> !Terminated(s.compressDone, Lane(c, i))
  {
    hide SerialStream, TableOk, DataOk, FlushOk, EndOk, ReorderOk, QueueEmpty;
    LanesAreQueues(c, Lane(c, i));
    if s.loc[i].Routing? {
      assert !Terminated(s.dedupDone, Lane(c, i));
      assert QueueOf(MAX_THREADS_PER_QUEUE * Lane(c, i)) == Lane(c, i);
    }
  }

  /** How often Reorder has turned to the next queue. */
  ghost function Turns(steps: seq<Step>): nat
  {
    if steps == [] then 0 else (if steps[0].ReorderFetch? || steps[0].ReorderSkip? then 1 else 0) + Turns(steps[1..])
  }

  lemma {:induction false} TurnsOnward(c: Config, s: State, steps: seq<Step>, s': State)
    requires ConfigOk(c) && Run(c, s, steps, s') && s.qid == s.qid % NQueues(c)
    ensures s'.qid == (s.qid + Turns(steps)) % NQueues(c)
    decreases |steps|
  {
    LanesAreQueues(c, 0);
    if steps != [] {
      var s1, turn := Apply(c, s, steps[0]), if steps[0].ReorderFetch? || steps[0].ReorderSkip? then 1 else 0;
      NextQueue(c, s, steps[0]);
      hide Enabled, Apply, NQueues, Sized;
      Around(s.qid + turn, 0, NQueues(c));
      TurnsOnward(c, s1, steps[1..], s');
      Around(s.qid + turn, Turns(steps[1..]), NQueues(c));
    }
  }

  lemma NextQueue(c: Config, s: State, step: Step)
    requires ConfigOk(c) && Sized(c, s) && Enabled(c, s, step) && s.qid == s.qid % NQueues(c)
    ensures Apply(c, s, step).qid == (s.qid + if step.ReorderFetch? || step.ReorderSkip? then 1 else 0) % NQueues(c)
  {
    hide Terminated, QueueEmpty, DedupIdle, CompressIdle, NQueues;
  }

  lemma Around(a: nat, b: nat, n: nat)
    requires n > 0
    ensures (a % n + b) % n == (a + b) % n
  {
    var q, r := a / n, (a + b) / n;
    assert a == n * q + a % n && a + b == n * r + (a + b) % n;
    assert a % n + b == n * (r - q) + (a + b) % n;
    Quotient(a % n + b, n, r - q, (a + b) % n);
  }

  /** Reorder turns to its queues one after the other, in a circle. */
  lemma QueuesInCircle(c: Config, steps: seq<Step>, s: State)
    requires ConfigOk(c) && Run(c, Initial(c), steps, s)
    ensures NQueues(c) > 0 && s.qid == Turns(steps) % NQueues(c)
  {
    LanesAreQueues(c, 0);
    TurnsOnward(c, Initial(c), steps, s);
  }

  /** Somebody upstream of Reorder can move. */
  lemma UpstreamStep(c: Config, s: State) returns (step: Step)
    requires ConfigOk(c) && Inv(c, s)
    requires exists i :: 0 <= i < |s.loc| && !s.loc[i].ReorderQue? && !s.loc[i].Cached? && !s.loc[i].Written?
    ensures Enabled(c, s, step)
  {
    hide SerialStream, TableOk, DataOk, FlushOk, EndOk, ReorderOk;
    if i :| 0 <= i < |s.loc| && s.loc[i].Todo? {
      step := Emit(i);
    } else if t :| 0 <= t < c.nthreads && !s.refineDone[t] {
      step := RefineStop(t);
    } else if i :| 0 <= i < |s.loc| && s.loc[i].Deduplicating? {
      step := Step.Deduplicate(i);
    } else if i :| 0 <= i < |s.loc| && s.loc[i].Routing? {
      step := Route(i);
    } else if i :| 0 <= i < |s.loc| && s.loc[i].Compressing? {
      step := Compress(i);
    } else if i :| 0 <= i < |s.loc| && s.loc[i].Compressed? {
      step := Forward(i);
    } else if i :| 0 <= i < |s.loc| && s.loc[i].DeduplicateQue? {
      LanesAreQueues(c, Lane(c, i));
      step := DedupFetch(i, MAX_THREADS_PER_QUEUE * Lane(c, i));
    } else {
      step := LateStep(c, s);
    }
  }

  lemma LateStep(c: Config, s: State) returns (step: Step)
    requires ConfigOk(c) && Inv(c, s)
    requires forall i :: 0 <= i < |s.loc| ==> s.loc[i].CompressQue? || s.loc[i].ReorderQue? || s.loc[i].Cached? || s.loc[i].Written?
    requires exists i :: 0 <= i < |s.loc| && s.loc[i].CompressQue?
    ensures Enabled(c, s, step)
  {
    hide SerialStream, TableOk, DataOk, FlushOk, EndOk, ReorderOk;
    var i :| 0 <= i < |s.loc| && s.loc[i].CompressQue?;
    LanesAreQueues(c, Lane(c, i));
    step := CompressFetch(i, MAX_THREADS_PER_QUEUE * Lane(c, i));
  }

  /** With all chunks through, the threads stop one stage after the other. */
  lemma StopStep(c: Config, s: State) returns (step: Step)
    requires ConfigOk(c) && Inv(c, s)
    requires forall i :: 0 <= i < |s.loc| ==> s.loc[i].ReorderQue? || s.loc[i].Cached? || s.loc[i].Written?
    requires exists t :: 0 <= t < c.nthreads && !s.compressDone[t]
    ensures Enabled(c, s, step)
  {
    hide SerialStream, TableOk, DataOk, FlushOk, EndOk, ReorderOk;
    if t :| 0 <= t < c.nthreads && !s.refineDone[t] {
      step := RefineStop(t);
    } else if t :| 0 <= t < c.nthreads && !s.dedupDone[t] {
      step := DedupStop(t);
    } else {
      var t :| 0 <= t < c.nthreads && !s.compressDone[t];
      step := CompressStop(t);
    }
  }

  lemma ReorderStep(c: Config, s: State) returns (step: Step)
    requires ConfigOk(c) && Inv(c, s) && !s.ended
    requires forall i :: 0 <= i < |s.loc| ==> s.loc[i].ReorderQue? || s.loc[i].Cached? || s.loc[i].Written?
    requires forall t :: 0 <= t < c.nthreads ==> s.compressDone[t]
    ensures Enabled(c, s, step)
  {
    hide SerialStream, FlushOk, StopsOk, HandsOk;
    if s.writing {
      WriteFinds(c, s);
      var o := Original(s, s.next);
      assert ChunkOk(s.loc[o], s.isDuplicate[o], s.state[o]);
      step := WriteChunk;
    } else if i :| 0 <= i < |s.loc| && s.loc[i].ReorderQue? && Lane(c, i) == s.qid {
      step := ReorderFetch(i);
    } else {
      step := ReorderSkip;
    }
  }

  /** No deadlock: until Reorder has ended, some step is enabled. */
  lemma Progress(c: Config, s: State) returns (step: Step)
    requires ConfigOk(c) && Inv(c, s) && !s.ended
    ensures Enabled(c, s, step)
  {
    if i :| 0 <= i < |s.loc| && !s.loc[i].ReorderQue? && !s.loc[i].Cached? && !s.loc[i].Written? {
      step := UpstreamStep(c, s);
    } else if t :| 0 <= t < c.nthreads && !s.compressDone[t] {
      step := StopStep(c, s);
    } else {
      step := ReorderStep(c, s);
    }
  }

  /** Reorder leaves its loop only after every chunk has been enqueued and written, and every thread has stopped. */
  lemma EndedMeansDone(c: Config, s: State)
    requires ConfigOk(c) && Inv(c, s) && s.ended
    ensures s.next == |c.sha1| && s.out == SerialStream(c.sha1, |c.sha1|)
    ensures Deduplicated(c.sha1, s.out) && |s.out| == |c.sha1|
    ensures forall t :: 0 <= t < c.nthreads ==> s.refineDone[t] && s.dedupDone[t] && s.compressDone[t]
  {
    hide SerialStream, TableOk, DataOk, FlushOk, Deduplicated;
    WritesDeduplicated(c, s);
    forall t | 0 <= t < c.nthreads ensures s.compressDone[t] && s.dedupDone[t] && s.refineDone[t] {
      assert QueueOf(t) < NQueues(c);
      assert LaneOver(c, s, QueueOf(t));
    }
    forall i | 0 <= i < |s.loc| ensures s.loc[i].Cached? || s.loc[i].Written? {
      LanesAreQueues(c, 0);
      assert LaneOver(c, s, Lane(c, i));
      assert s.refineDone[c.emitter[i]] && s.dedupDone[c.emitter[i]] && s.compressDone[c.emitter[i]];
    }
  }

  /** Every maximal run ends with the whole serial stream written. */
  lemma EveryRunCompletes(c: Config, steps: seq<Step>, s: State)
    requires ConfigOk(c) && Run(c, Initial(c), steps, s)
    requires Sized(c, s) && forall step :: !Enabled(c, s, step)
    ensures s.ended && s.out == SerialStream(c.sha1, |c.sha1|)
    ensures Deduplicated(c.sha1, s.out) && |s.out| == |c.sha1|
  {
    InvInitially(c);
    RunKeeps(c, Initial(c), steps, s);
    hide Enabled, Inv;
    if !s.ended {
      var step := Progress(c, s);
    } else {
      EndedMeansDone(c, s);
    }
  }

  /** The serial program: deduplicate and write chunk by chunk, with the chunks seen so far in the hash table. */
  method SerialIntegratedPipeline(sha1: seq<nat>, hashfn: nat -> bv32, minsize: nat, expansion: bool) returns (out: seq<Record>)
    requires minsize <= 0x4000_0000
    ensures out == SerialStream(sha1, |sha1|)
    ensures Deduplicated(sha1, out) && |out| == |sha1|
  {
    var cache := new Hashtable<nat, nat>(minsize, hashfn, expansion);
    ghost var m: map<nat, nat> := map[];
    EmptyIsMap<nat, nat>();
    out := [];
    var i := 0;
    while i < |sha1|
      invariant 0 <= i <= |sha1| && out == SerialStream(sha1, i)
      invariant cache.Valid() && fresh(cache) && fresh(cache.table) && IsMap(cache.contents, m)
      invariant forall k :: k in m <==> k in sha1[..i]
    {
      var entry := cache.Search(sha1[i]);
      SearchIsLookup(cache.contents, m, sha1[i], entry);
      if entry == None {
        InsertIsUpdate(cache.contents, m, sha1[i], i);
        cache.Insert(sha1[i], i);
        m := m[sha1[i] := i];
      }
      out := out + [if entry == None then TypeCompress(sha1[i]) else TypeFingerprint(sha1[i])];
      assert sha1[..i + 1] == sha1[..i] + [sha1[i]];
      i := i + 1;
    }
    SerialIsDeduplicated(sha1, |sha1|);
  }
}
