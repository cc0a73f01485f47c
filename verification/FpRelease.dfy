/** release_node_array_after_mining: which node lists the threads of FP_growth_first may still read when a suffix of them is freed. */
module FpRelease {
  import opened Transactions

  /** n lists; oneLoad: each round of the loop over thread_finish_status reads the entry once, for the test and the assignment together. */
  datatype Config = Config(threads: nat, n: nat, oneLoad: bool)

  /** Where a thread is. Seen: the test has found a greater entry i, which is now read again. Entered: it holds the mutex. */
  datatype Pc = Idle | Mining(s: nat) | Scan(i: nat, current: nat) | Seen(i: nat, current: nat) | Entered(current: nat)

  const NOBODY: int := -1

  /** next: the sequences from next on have been handed out. The lists below alive have not been freed. */
  datatype State = State(pc: seq<Pc>, status: seq<nat>, next: nat, releasedPos: nat, alive: nat, mutex: int)

  datatype Step = Take(t: nat) | Finish(t: nat) | Look(t: nat, v: nat) | Again(t: nat, v: nat) | Enter(t: nat) | Release(t: nat)

  ghost predicate Shape(cfg: Config, st: State)
  {
    |st.pc| == |st.status| == cfg.threads && st.next <= cfg.n
  }

  ghost function Start(cfg: Config): State
  {
    State(seq(cfg.threads, _ => Idle), seq(cfg.threads, _ => cfg.n), cfg.n, cfg.n, cfg.n, NOBODY)
  }

  /** What thread t may find in entry i: its own entry as it is, of another one a value that it has or had; entries only decrease. */
  ghost predicate MayBeRead(cfg: Config, st: State, t: nat, i: nat, v: nat)
    requires Shape(cfg, st)
  {
    i < cfg.threads && if i == t then v == st.status[i] else st.status[i] <= v <= cfg.n
  }

  /** lowerbound_array: a new parallel loop begins here, when the one before has been left by all threads. */
  predicate LoopEnd(next: nat) { next == 0x10000 || next == 0x100 }

  ghost predicate AllIdle(cfg: Config, st: State)
    requires Shape(cfg, st)
  {
    forall t :: 0 <= t < cfg.threads ==> st.pc[t].Idle?
  }

  ghost predicate Enabled(cfg: Config, st: State, e: Step)
    requires Shape(cfg, st)
  {
    && e.t < cfg.threads
    && match e
       case Take(t) => st.pc[t].Idle? && st.next > 0 && (LoopEnd(st.next) ==> AllIdle(cfg, st))
       case Finish(t) => st.pc[t].Mining?
       case Look(t, v) => st.pc[t].Scan? && MayBeRead(cfg, st, t, st.pc[t].i, v)
       case Again(t, v) => st.pc[t].Seen? && MayBeRead(cfg, st, t, st.pc[t].i, v)
       case Enter(t) => st.pc[t].Scan? && st.pc[t].i == cfg.threads && st.mutex == NOBODY
       case Release(t) => st.pc[t].Entered?
  }

  /** Take: one counter for all threads gives out the sequences in descending order. */
  ghost function Apply(cfg: Config, st: State, e: Step): State
    requires Shape(cfg, st) && Enabled(cfg, st, e)
  {
    var pc := st.pc[e.t];
    match e
    case Take(t) => st.(pc := st.pc[t := Mining(st.next - 1)], next := st.next - 1)
    case Finish(t) => st.(pc := st.pc[t := Scan(0, 0)], status := st.status[t := pc.s])
    case Look(t, v) =>
      if pc.current < v then st.(pc := st.pc[t := if cfg.oneLoad then Scan(pc.i + 1, v) else Seen(pc.i, pc.current)])
      else st.(pc := st.pc[t := Scan(pc.i + 1, pc.current)])
    case Again(t, v) => st.(pc := st.pc[t := Scan(pc.i + 1, v)])
    case Enter(t) => st.(pc := st.pc[t := Entered(pc.current)], mutex := t)
    case Release(t) =>
      var out := st.(pc := st.pc[t := Idle], mutex := NOBODY);
      // freebuf gives back all lists from number `current` on
      if pc.current < st.releasedPos then out.(releasedPos := pc.current, alive := pc.current) else out
  }

  ghost predicate Run(cfg: Config, st0: State, steps: seq<Step>, st: State)
    requires Shape(cfg, st0)
    decreases |steps|
  {
    if steps == [] then st == st0
    else Enabled(cfg, st0, steps[0]) && Run(cfg, Apply(cfg, st0, steps[0]), steps[1..], st)
  }

  /** Nobody mines a sequence whose list has been freed. */
  ghost predicate Safe(cfg: Config, st: State)
    requires Shape(cfg, st)
  {
    forall t :: 0 <= t < cfg.threads && st.pc[t].Mining? ==> st.pc[t].s < st.alive
  }

  ghost predicate AlwaysSafe(cfg: Config)
  {
    forall steps, st :: Run(cfg, Start(cfg), steps, st) ==> Shape(cfg, st) && Safe(cfg, st)
  }

  /** `current` covers the first i entries. */
  ghost predicate Covers(st: State, i: nat, current: nat)
  {
    i <= |st.status| && forall u :: 0 <= u < i ==> st.status[u] <= current
  }

  /** What a thread has finished has been handed out; what it mines, too, and it comes below. */
  ghost predicate Descending(cfg: Config, st: State)
    requires Shape(cfg, st)
  {
    forall t :: 0 <= t < cfg.threads ==> st.next <= st.status[t] <= cfg.n && (st.pc[t].Mining? ==> st.next <= st.pc[t].s < st.status[t])
  }

  ghost predicate ThreadOk(cfg: Config, st: State, t: nat)
    requires Shape(cfg, st) && t < cfg.threads
  {
    match st.pc[t]
    case Idle => true
    case Mining(s) => true
    case Scan(i, current) => Covers(st, i, current)
    case Seen(i, current) => !cfg.oneLoad && i == 0
    case Entered(current) => Covers(st, cfg.threads, current)
  }

  /** With one load, or one thread: the freed lists are above every thread's status, and a thread mines below its own. */
  ghost predicate Inv(cfg: Config, st: State)
  {
    && Shape(cfg, st) && st.releasedPos == st.alive <= cfg.n && Descending(cfg, st)
    && (forall t :: 0 <= t < cfg.threads ==> st.status[t] <= st.alive)
    && (forall t :: 0 <= t < cfg.threads ==> ThreadOk(cfg, st, t))
  }

  lemma InvStep(cfg: Config, st: State, e: Step)
    requires (cfg.oneLoad || cfg.threads <= 1) && Inv(cfg, st) && Enabled(cfg, st, e)
    ensures Inv(cfg, Apply(cfg, st, e))
  {
    var st' := Apply(cfg, st, e);
    assert ThreadOk(cfg, st, e.t);
    forall u | 0 <= u < cfg.threads ensures ThreadOk(cfg, st', u) { assert ThreadOk(cfg, st, u); }
  }

  lemma {:induction false} InvRun(cfg: Config, st0: State, steps: seq<Step>, st: State)
    requires (cfg.oneLoad || cfg.threads <= 1) && Inv(cfg, st0) && Run(cfg, st0, steps, st)
    ensures Inv(cfg, st)
    decreases |steps|
  {
    if steps != [] {
      InvStep(cfg, st0, steps[0]);
      InvRun(cfg, Apply(cfg, st0, steps[0]), steps[1..], st);
    }
  }

  /** Whatever happens, released_pos never grows, and the lists that are freed are those from released_pos on. */
  lemma {:induction false} ReleasedDescends(cfg: Config, st0: State, steps: seq<Step>, st: State)
    requires Shape(cfg, st0) && Run(cfg, st0, steps, st) && st0.releasedPos == st0.alive
    ensures Shape(cfg, st) && st.releasedPos == st.alive && st.releasedPos <= st0.releasedPos
    decreases |steps|
  {
    if steps != [] { ReleasedDescends(cfg, Apply(cfg, st0, steps[0]), steps[1..], st); }
  }

  /** All that is still to be mined comes below `current`. */
  ghost predicate Left(cfg: Config, st: State, current: nat)
    requires Shape(cfg, st)
  {
    st.next <= current && forall t :: 0 <= t < cfg.threads && st.pc[t].Mining? ==> st.pc[t].s < current
  }

  /** A thread that has looked at the other one's entry knows what is left; its own entry can only raise the maximum. */
  ghost predicate PairOk(cfg: Config, st: State, t: nat)
    requires Shape(cfg, st) && t < cfg.threads
  {
    match st.pc[t]
    case Idle => true
    case Mining(s) => true
    case Scan(i, current) => i <= cfg.threads && (i > 1 - t ==> Left(cfg, st, current))
    case Seen(i, current) => i < cfg.threads && (i > 1 - t ==> Left(cfg, st, current)) && (i == t ==> current < st.status[t])
    case Entered(current) => Left(cfg, st, current)
  }

  ghost predicate InvPair(cfg: Config, st: State)
  {
    && cfg.threads == 2 && Shape(cfg, st) && st.releasedPos == st.alive && Descending(cfg, st) && Left(cfg, st, st.alive)
    && (forall t :: 0 <= t < cfg.threads ==> PairOk(cfg, st, t))
  }

  /** What comes below `current` stays below it: the counter only descends. */
  lemma LeftStays(cfg: Config, st: State, e: Step, current: nat)
    requires Shape(cfg, st) && Enabled(cfg, st, e) && Left(cfg, st, current)
    ensures Left(cfg, Apply(cfg, st, e), current)
  {
  }

  lemma PairSelf(cfg: Config, st: State, e: Step)
    requires InvPair(cfg, st) && Enabled(cfg, st, e)
    ensures PairOk(cfg, Apply(cfg, st, e), e.t)
  {
    assert PairOk(cfg, st, e.t);
  }

  lemma PairStep(cfg: Config, st: State, e: Step)
    requires InvPair(cfg, st) && Enabled(cfg, st, e)
    ensures InvPair(cfg, Apply(cfg, st, e))
  {
    var st' := Apply(cfg, st, e);
    assert PairOk(cfg, st, e.t);
    LeftStays(cfg, st, e, st.alive);
    PairSelf(cfg, st, e);
    forall u | 0 <= u < cfg.threads ensures PairOk(cfg, st', u) {
      if u != e.t {
        assert PairOk(cfg, st, u);
        forall c: nat | Left(cfg, st, c) ensures Left(cfg, st', c) { LeftStays(cfg, st, e, c); }
      }
    }
    if e.Release? { LeftStays(cfg, st, e, st.pc[e.t].current); }
  }

  lemma {:induction false} PairRun(cfg: Config, st0: State, steps: seq<Step>, st: State)
    requires InvPair(cfg, st0) && Run(cfg, st0, steps, st)
    ensures InvPair(cfg, st)
    decreases |steps|
  {
    if steps != [] {
      PairStep(cfg, st0, steps[0]);
      PairRun(cfg, Apply(cfg, st0, steps[0]), steps[1..], st);
    }
  }

  /** Entry i has been passed; if its thread has not finished anything then current is as high as can be. */
  ghost predicate Blocked(cfg: Config, st: State, i: nat, current: nat)
    requires Shape(cfg, st)
  {
    i <= cfg.threads && current <= cfg.n && forall u :: 0 <= u < i && st.status[u] == cfg.n ==> current == cfg.n
  }

  ghost predicate ThreadSmall(cfg: Config, st: State, t: nat)
    requires Shape(cfg, st) && t < cfg.threads
  {
    match st.pc[t]
    case Idle => true
    case Mining(s) => true
    case Scan(i, current) => Blocked(cfg, st, i, current)
    case Seen(i, current) => i < cfg.threads && current < cfg.n && Blocked(cfg, st, i, current)
    case Entered(current) => Blocked(cfg, st, cfg.threads, current)
  }

  /** The sequence a thread has finished or mines is nobody else's. */
  ghost predicate Distinct(cfg: Config, st: State)
    requires Shape(cfg, st)
  {
    && (forall t, u :: 0 <= t < u < cfg.threads && st.status[t] < cfg.n ==> st.status[t] != st.status[u])
    && (forall t, u :: 0 <= t < cfg.threads && 0 <= u < cfg.threads && st.pc[t].Mining? ==> st.status[u] != st.pc[t].s)
    && (forall t, u :: 0 <= t < u < cfg.threads && st.pc[t].Mining? && st.pc[u].Mining? ==> st.pc[t].s != st.pc[u].s)
  }

  /** For every number of loads: nothing is freed before every thread has finished something. */
  ghost predicate InvSmall(cfg: Config, st: State)
  {
    && Shape(cfg, st) && st.releasedPos == st.alive <= cfg.n && Descending(cfg, st) && Distinct(cfg, st)
    && (forall t :: 0 <= t < cfg.threads ==> ThreadSmall(cfg, st, t))
    && (st.alive < cfg.n ==> forall t :: 0 <= t < cfg.threads ==> st.status[t] < cfg.n)
  }

  lemma SmallDistinct(cfg: Config, st: State, e: Step)
    requires InvSmall(cfg, st) && Enabled(cfg, st, e)
    ensures Distinct(cfg, Apply(cfg, st, e))
  {
    hide ThreadSmall, Blocked, MayBeRead, LoopEnd, AllIdle, Distinct;
    match e
    case Take(t) => TakeDistinct(cfg, st, t);
    case Finish(t) => FinishDistinct(cfg, st, t);
    case _ => StillDistinct(cfg, st, Apply(cfg, st, e));
  }

  lemma StillDistinct(cfg: Config, st: State, st': State)
    requires Shape(cfg, st) && Distinct(cfg, st) && Shape(cfg, st') && st'.status == st.status
    requires forall t :: 0 <= t < cfg.threads && st'.pc[t].Mining? ==> st'.pc[t] == st.pc[t]
    ensures Distinct(cfg, st')
  {
  }

  lemma TakeDistinct(cfg: Config, st: State, t: nat)
    requires Shape(cfg, st) && Descending(cfg, st) && Distinct(cfg, st) && Enabled(cfg, st, Take(t))
    ensures Distinct(cfg, Apply(cfg, st, Take(t)))
  {
    hide LoopEnd, AllIdle;
  }

  lemma FinishDistinct(cfg: Config, st: State, t: nat)
    requires Shape(cfg, st) && Distinct(cfg, st) && Enabled(cfg, st, Finish(t))
    ensures Distinct(cfg, Apply(cfg, st, Finish(t)))
  {
  }

  lemma SmallOther(cfg: Config, st: State, e: Step, u: nat)
    requires InvSmall(cfg, st) && Enabled(cfg, st, e) && u < cfg.threads && u != e.t
    ensures ThreadSmall(cfg, Apply(cfg, st, e), u)
  {
    assert ThreadSmall(cfg, st, u);
    var st' := Apply(cfg, st, e);
    assert st'.pc[u] == st.pc[u] && forall w :: 0 <= w < cfg.threads && st'.status[w] == cfg.n ==> st.status[w] == cfg.n;
    hide Distinct, Apply, Enabled;
  }

  lemma SmallSelf(cfg: Config, st: State, e: Step)
    requires InvSmall(cfg, st) && Enabled(cfg, st, e)
    ensures ThreadSmall(cfg, Apply(cfg, st, e), e.t)
  {
    assert ThreadSmall(cfg, st, e.t);
    hide Distinct;
  }

  lemma SmallStep(cfg: Config, st: State, e: Step)
    requires InvSmall(cfg, st) && Enabled(cfg, st, e)
    ensures InvSmall(cfg, Apply(cfg, st, e))
  {
    SmallDistinct(cfg, st, e);
    var st' := Apply(cfg, st, e);
    assert ThreadSmall(cfg, st, e.t);
    forall u | 0 <= u < cfg.threads ensures ThreadSmall(cfg, st', u) {
      if u == e.t { SmallSelf(cfg, st, e); } else { SmallOther(cfg, st, e, u); }
    }
    hide Distinct, ThreadSmall;
  }

  lemma {:induction false} SmallRun(cfg: Config, st0: State, steps: seq<Step>, st: State)
    requires InvSmall(cfg, st0) && Run(cfg, st0, steps, st)
    ensures InvSmall(cfg, st)
    decreases |steps|
  {
    if steps != [] {
      SmallStep(cfg, st0, steps[0]);
      SmallRun(cfg, Apply(cfg, st0, steps[0]), steps[1..], st);
    }
  }

  /** With no more lists than threads, someone who mines has kept everything allocated. */
  lemma SmallIsSafe(cfg: Config, st: State)
    requires InvSmall(cfg, st) && cfg.n <= cfg.threads
    ensures Safe(cfg, st)
  {
    forall t | 0 <= t < cfg.threads && st.pc[t].Mining? ensures st.pc[t].s < st.alive {
      if st.alive < cfg.n { Pigeonhole(st.status + [st.pc[t].s], cfg.n); }
    }
  }

  ghost predicate Reachable(cfg: Config, st: State)
  {
    exists steps :: Run(cfg, Start(cfg), steps, st)
  }

  lemma {:induction false} RunAppend(cfg: Config, st0: State, steps: seq<Step>, st: State, e: Step)
    requires Shape(cfg, st0) && Run(cfg, st0, steps, st) && Shape(cfg, st) && Enabled(cfg, st, e)
    ensures Run(cfg, st0, steps + [e], Apply(cfg, st, e))
    decreases |steps|
  {
    if steps == [] {
      assert [e][1..] == [];
    } else {
      RunAppend(cfg, Apply(cfg, st0, steps[0]), steps[1..], st, e);
      assert (steps + [e])[1..] == steps[1..] + [e];
    }
  }

  lemma Reach(cfg: Config, st: State, e: Step) returns (st': State)
    requires Reachable(cfg, st) && Shape(cfg, st) && Enabled(cfg, st, e)
    ensures Reachable(cfg, st') && st' == Apply(cfg, st, e) && Shape(cfg, st')
  {
    var steps :| Run(cfg, Start(cfg), steps, st);
    RunAppend(cfg, Start(cfg), steps, st, e);
    st' := Apply(cfg, st, e);
  }

  ghost function Max(status: seq<nat>, i: nat): nat
    requires i <= |status|
  {
    if i == 0 then 0 else if Max(status, i - 1) < status[i - 1] then status[i - 1] else Max(status, i - 1)
  }

  /** When nobody interferes, a thread that looks at the first i entries finds their maximum. */
  lemma {:induction false} ReachScan(cfg: Config, st: State, t: nat, i: nat)
    requires !cfg.oneLoad && Shape(cfg, st) && Reachable(cfg, st) && t < cfg.threads && st.pc[t] == Scan(0, 0) && i <= cfg.threads
    requires forall u :: 0 <= u < cfg.threads ==> st.status[u] <= cfg.n
    ensures Reachable(cfg, st.(pc := st.pc[t := Scan(i, Max(st.status, i))]))
  {
    if i == 0 {
      assert st.pc[t := Scan(0, 0)] == st.pc;
    } else {
      ReachScan(cfg, st, t, i - 1);
      var c := Max(st.status, i - 1);
      var at := st.(pc := st.pc[t := Scan(i - 1, c)]);
      var a := Reach(cfg, at, Look(t, st.status[i - 1]));
      if c < st.status[i - 1] {
        a := Reach(cfg, a, Again(t, st.status[i - 1]));
      }
      assert a == st.(pc := st.pc[t := Scan(i, Max(st.status, i))]);
    }
  }

  lemma {:induction false} MaxIs(status: seq<nat>, i: nat, m: nat, u: nat)
    requires u < i <= |status| && status[u] == m && forall w :: 0 <= w < i ==> status[w] <= m
    ensures Max(status, i) == m
  {
    if u < i - 1 {
      MaxIs(status, i - 1, m, u);
    } else {
      MaxBelow(status, i - 1, m);
    }
  }

  lemma {:induction false} MaxBelow(status: seq<nat>, i: nat, m: nat)
    requires i <= |status| && forall w :: 0 <= w < i ==> status[w] <= m
    ensures Max(status, i) <= m
  {
    if i > 0 { MaxBelow(status, i - 1, m); }
  }

  /** One thread takes a sequence, finishes it and frees nothing, because the last thread has not finished anything. */
  lemma ReachRound(cfg: Config, st: State, t: nat)
    requires !cfg.oneLoad && Shape(cfg, st) && Reachable(cfg, st) && AllIdle(cfg, st) && st.next > 0 && st.mutex == NOBODY
    requires t < cfg.threads - 1 && st.status[cfg.threads - 1] == cfg.n && st.releasedPos == st.alive == cfg.n
    requires forall u :: 0 <= u < cfg.threads ==> st.status[u] <= cfg.n
    ensures Reachable(cfg, st.(next := st.next - 1, status := st.status[t := st.next - 1]))
  {
    var a := Reach(cfg, st, Take(t));
    var b := Reach(cfg, a, Finish(t));
    assert b == st.(next := st.next - 1, status := st.status[t := st.next - 1], pc := st.pc[t := Scan(0, 0)]);
    ReachScan(cfg, b, t, cfg.threads);
    MaxIs(b.status, cfg.threads, cfg.n, cfg.threads - 1);
    hide Max, Reachable, AllIdle;
    ReachIdle(cfg, b.(pc := b.pc[t := Scan(cfg.threads, cfg.n)]), t);
    assert b.pc[t := Scan(cfg.threads, cfg.n)][t := Idle] == st.pc[t := Idle] == st.pc;
  }

  lemma ReachIdle(cfg: Config, st: State, t: nat)
    requires Shape(cfg, st) && Reachable(cfg, st) && t < cfg.threads && st.pc[t] == Scan(cfg.threads, cfg.n) && st.mutex == NOBODY
    requires st.releasedPos == cfg.n
    ensures Reachable(cfg, st.(pc := st.pc[t := Idle]))
  {
    var c := Reach(cfg, st, Enter(t));
    var d := Reach(cfg, c, Release(t));
    assert d == st.(pc := st.pc[t := Idle]);
  }

  /** For the example, when the sequences from k on have been mined: thread 1 has taken those from `threads` on, thread t the sequence
    * threads + 1 - t, thread 0 and the last thread none.
    */
  ghost function Prepared(cfg: Config, k: nat): State
    requires 3 <= cfg.threads < cfg.n && 3 <= k <= cfg.n
  {
    Start(cfg).(next := k, status := seq(cfg.threads, t requires 0 <= t < cfg.threads => PreparedStatus(cfg, k, t)))
  }

  ghost function PreparedStatus(cfg: Config, k: nat, t: nat): nat
    requires 3 <= cfg.threads < cfg.n
  {
    if t == 1 then (if k < cfg.threads then cfg.threads else k)
    else if 2 <= t < cfg.threads - 1 && k <= cfg.threads + 1 - t then cfg.threads + 1 - t
    else cfg.n
  }

  lemma {:induction false} ReachPrepared(cfg: Config, k: nat)
    requires !cfg.oneLoad && 3 <= cfg.threads < cfg.n && 3 <= k <= cfg.n
    ensures Reachable(cfg, Prepared(cfg, k))
    decreases cfg.n - k
  {
    if k == cfg.n {
      assert Prepared(cfg, k) == Start(cfg);
      assert Run(cfg, Start(cfg), [], Start(cfg));
    } else {
      ReachPrepared(cfg, k + 1);
      var st := Prepared(cfg, k + 1);
      var t := if k >= cfg.threads then 1 else cfg.threads + 1 - k;
      ReachRound(cfg, st, t);
      assert Prepared(cfg, k) == st.(next := k, status := st.status[t := k]);
    }
  }

  /** For the example: thread 1 mines 2, thread 0 has finished 1, and the last thread mines 0. */
  ghost function Conflict(cfg: Config): State
    requires 3 <= cfg.threads < cfg.n
  {
    var st := Prepared(cfg, 3);
    st.(next := 0, status := st.status[0 := 1], pc := st.pc[1 := Mining(2)][0 := Scan(0, 0)][cfg.threads - 1 := Mining(0)])
  }

  /** Half of the way: thread 1 mines 2, thread 0 mines 1. */
  ghost function HalfWay(cfg: Config): State
    requires 3 <= cfg.threads < cfg.n
  {
    var st := Prepared(cfg, 3);
    st.(next := 1, pc := st.pc[1 := Mining(2)][0 := Mining(1)])
  }

  lemma ReachHalfWay(cfg: Config)
    requires !cfg.oneLoad && 3 <= cfg.threads < cfg.n
    ensures Reachable(cfg, HalfWay(cfg))
  {
    ReachPrepared(cfg, 3);
    hide Reachable, PreparedStatus, AllIdle;
    var a := Reach(cfg, Prepared(cfg, 3), Take(1));
    var b := Reach(cfg, a, Take(0));
    assert b == HalfWay(cfg);
  }

  lemma ReachConflict(cfg: Config)
    requires !cfg.oneLoad && 3 <= cfg.threads < cfg.n
    ensures Reachable(cfg, Conflict(cfg))
  {
    ReachHalfWay(cfg);
    hide Reachable, PreparedStatus, AllIdle;
    var c := Reach(cfg, HalfWay(cfg), Take(cfg.threads - 1));
    var d := Reach(cfg, c, Finish(0));
    assert d == Conflict(cfg);
  }

  /** With two loads: thread 0 finds that the last thread has finished nothing; the last thread finishes 0; thread 0 reads that and takes
    * 0 for the maximum. All lists are freed while thread 1 mines 2.
    */
  lemma TwoLoadsFail(cfg: Config) returns (st: State)
    requires !cfg.oneLoad && 3 <= cfg.threads < cfg.n
    ensures Reachable(cfg, st) && Shape(cfg, st) && !Safe(cfg, st)
  {
    var last := cfg.threads - 1;
    ReachConflict(cfg);
    var d := Conflict(cfg);
    ReachScan(cfg, d, 0, last);
    MaxBelow(d.status, last, cfg.threads);
    var m := Max(d.status, last);
    var a := d.(pc := d.pc[0 := Scan(last, m)]);
    assert a.pc[0] == Scan(last, m) && a.pc[1] == Mining(2) && a.pc[last] == Mining(0) && a.status[last] == cfg.n && a.mutex == NOBODY;
    assert a.releasedPos == cfg.n && |a.pc| == |a.status| == cfg.threads;
    hide Conflict, Max;
    st := FreeAll(cfg, a, m);
  }

  lemma FreeAll(cfg: Config, a: State, m: nat) returns (st: State)
    requires !cfg.oneLoad && 3 <= cfg.threads < cfg.n && Shape(cfg, a) && Reachable(cfg, a) && m < cfg.n
    requires var last := cfg.threads - 1; a.pc[0] == Scan(last, m) && a.pc[last] == Mining(0) && a.status[last] == cfg.n
    requires a.pc[1] == Mining(2) && a.mutex == NOBODY && a.releasedPos == cfg.n
    ensures Reachable(cfg, st) && Shape(cfg, st) && !Safe(cfg, st)
  {
    var e := Reach(cfg, a, Look(0, cfg.n));
    var f := Reach(cfg, e, Finish(cfg.threads - 1));
    var g := Reach(cfg, f, Again(0, 0));
    var h := Reach(cfg, g, Enter(0));
    st := Reach(cfg, h, Release(0));
    assert st.pc[1] == Mining(2) && st.alive == 0;
  }

  /** Exactly when no thread ever mines a sequence whose list is gone. */
  lemma ReleaseIsSafe(cfg: Config)
    ensures AlwaysSafe(cfg) <==> cfg.oneLoad || cfg.threads <= 2 || cfg.n <= cfg.threads
  {
    if !cfg.oneLoad && 3 <= cfg.threads < cfg.n {
      var st := TwoLoadsFail(cfg);
      var steps :| Run(cfg, Start(cfg), steps, st);
    } else {
      forall steps, st | Run(cfg, Start(cfg), steps, st) ensures Shape(cfg, st) && Safe(cfg, st) { SafeRun(cfg, steps, st); }
    }
  }

  lemma SafeRun(cfg: Config, steps: seq<Step>, st: State)
    requires (cfg.oneLoad || cfg.threads <= 2 || cfg.n <= cfg.threads) && Run(cfg, Start(cfg), steps, st)
    ensures Shape(cfg, st) && Safe(cfg, st)
  {
    if cfg.oneLoad || cfg.threads <= 1 {
      InvRun(cfg, Start(cfg), steps, st);
    } else if cfg.threads == 2 {
      PairRun(cfg, Start(cfg), steps, st);
    } else {
      SmallRun(cfg, Start(cfg), steps, st);
      SmallIsSafe(cfg, st);
    }
  }
}
