/** What release_node_array_after_mining gives back: in the end everything that no thread can read any more. */
module FpReleased {
  import opened FpRelease

  /** m is the greatest entry. */
  ghost predicate Greatest(status: seq<nat>, m: nat)
  {
    && (exists u :: 0 <= u < |status| && status[u] == m)
    && (forall u :: 0 <= u < |status| ==> status[u] <= m)
  }

  /** What the step reads is what the entry has now. */
  ghost predicate UpToDate(st: State, e: Step)
  {
    match e
    case Look(t, v) => t < |st.pc| && st.pc[t].Scan? && st.pc[t].i < |st.status| && v == st.status[st.pc[t].i]
    case Again(t, v) => t < |st.pc| && st.pc[t].Seen? && st.pc[t].i < |st.status| && v == st.status[st.pc[t].i]
    case _ => true
  }

  /** A run without outdated reads. */
  ghost predicate CurrentRun(cfg: Config, st0: State, steps: seq<Step>, st: State)
    requires Shape(cfg, st0)
    decreases |steps|
  {
    if steps == [] then st == st0
    else Enabled(cfg, st0, steps[0]) && UpToDate(st0, steps[0]) && CurrentRun(cfg, Apply(cfg, st0, steps[0]), steps[1..], st)
  }

  lemma {:induction false} CurrentRunIsRun(cfg: Config, st0: State, steps: seq<Step>, st: State)
    requires Shape(cfg, st0) && CurrentRun(cfg, st0, steps, st)
    ensures Run(cfg, st0, steps, st)
    decreases |steps|
  {
    if steps != [] { CurrentRunIsRun(cfg, Apply(cfg, st0, steps[0]), steps[1..], st); }
  }

  /** A single thread only reads its own entry. */
  lemma {:induction false} OneThreadIsCurrent(cfg: Config, st0: State, steps: seq<Step>, st: State)
    requires cfg.threads == 1 && Shape(cfg, st0) && Run(cfg, st0, steps, st)
    ensures CurrentRun(cfg, st0, steps, st)
    decreases |steps|
  {
    if steps != [] { OneThreadIsCurrent(cfg, Apply(cfg, st0, steps[0]), steps[1..], st); }
  }

  lemma {:induction false} MaxIsGreatest(status: seq<nat>, i: nat)
    requires 0 < i <= |status|
    ensures Greatest(status[..i], Max(status, i))
  {
    if i == 1 {
      assert status[..1][0] == Max(status, 1);
    } else {
      MaxIsGreatest(status, i - 1);
      var u :| 0 <= u < i - 1 && status[..i - 1][u] == Max(status, i - 1);
      assert status[..i][u] == Max(status, i - 1) && status[..i][i - 1] == status[i - 1];
      forall w | 0 <= w < i ensures status[..i][w] <= Max(status, i) { assert w < i - 1 ==> status[..i - 1][w] == status[w]; }
    }
  }

  /** The greatest entry of all. */
  ghost function Top(status: seq<nat>): nat { Max(status, |status|) }

  lemma TopIsGreatest(status: seq<nat>)
    requires status != []
    ensures Greatest(status, Top(status))
  {
    MaxIsGreatest(status, |status|);
    assert status[..|status|] == status;
  }

  /** This thread is going to release down to m at least. */
  ghost predicate Releasing(pc: Pc, m: nat) { (pc.Scan? || pc.Seen? || pc.Entered?) && pc.current <= m }

  /** What nobody reads any more has been freed, or somebody is about to free it. */
  ghost predicate Due(cfg: Config, st: State)
  {
    && Shape(cfg, st) && cfg.threads > 0 && st.releasedPos == st.alive
    && (st.alive <= Top(st.status) || exists t :: 0 <= t < cfg.threads && Releasing(st.pc[t], Top(st.status)))
  }

  lemma DueStep(cfg: Config, st: State, e: Step)
    requires Due(cfg, st) && Enabled(cfg, st, e) && UpToDate(st, e)
    ensures Due(cfg, Apply(cfg, st, e))
  {
    var st', m := Apply(cfg, st, e), Top(st.status);
    TopIsGreatest(st.status);
    hide Top, Max;
    if e.Finish? {
      assert Releasing(st'.pc[e.t], Top(st'.status));
    } else if st.alive > m {
      var t :| 0 <= t < cfg.threads && Releasing(st.pc[t], m);
      assert st'.status == st.status;
      if t != e.t {
        assert Releasing(st'.pc[t], m);
      } else if !e.Release? {
        assert Releasing(st'.pc[t], m);
      }
    }
  }

  lemma {:induction false} DueRun(cfg: Config, st0: State, steps: seq<Step>, st: State)
    requires Due(cfg, st0) && CurrentRun(cfg, st0, steps, st)
    ensures Due(cfg, st)
    decreases |steps|
  {
    if steps != [] {
      DueStep(cfg, st0, steps[0]);
      DueRun(cfg, Apply(cfg, st0, steps[0]), steps[1..], st);
    }
  }

  lemma {:induction false} StartTop(cfg: Config, i: nat)
    requires 0 < i <= cfg.threads
    ensures Max(Start(cfg).status, i) == cfg.n
  {
    if i > 1 { StartTop(cfg, i - 1); }
  }

  // The schedule alone says which sequence a thread had last.

  ghost function Takes(steps: seq<Step>): nat
  {
    if steps == [] then 0 else Takes(steps[..|steps| - 1]) + if steps[|steps| - 1].Take? then 1 else 0
  }

  /** The last sequence that was handed out to thread t, n before the first. */
  ghost function LastTaken(cfg: Config, steps: seq<Step>, t: nat): int
  {
    if steps == [] then cfg.n
    else if steps[|steps| - 1] == Take(t) then cfg.n - Takes(steps)
    else LastTaken(cfg, steps[..|steps| - 1], t)
  }

  lemma {:induction false} RunInit(cfg: Config, st0: State, steps: seq<Step>, st: State) returns (mid: State)
    requires Shape(cfg, st0) && steps != [] && Run(cfg, st0, steps, st)
    ensures Shape(cfg, mid) && Run(cfg, st0, steps[..|steps| - 1], mid)
    ensures Enabled(cfg, mid, steps[|steps| - 1]) && st == Apply(cfg, mid, steps[|steps| - 1])
    decreases |steps|
  {
    if |steps| == 1 {
      mid := st0;
    } else {
      mid := RunInit(cfg, Apply(cfg, st0, steps[0]), steps[1..], st);
      assert steps[..|steps| - 1][1..] == steps[1..][..|steps| - 2];
    }
  }

  /** What a thread mines, and what its status says when it does not mine, is the last sequence it has got. */
  lemma {:induction false} History(cfg: Config, steps: seq<Step>, st: State)
    requires Run(cfg, Start(cfg), steps, st)
    ensures Shape(cfg, st) && st.next == cfg.n - Takes(steps)
    ensures forall t :: 0 <= t < cfg.threads ==> LastTaken(cfg, steps, t) == if st.pc[t].Mining? then st.pc[t].s else st.status[t]
    decreases |steps|
  {
    if steps != [] {
      var mid := RunInit(cfg, Start(cfg), steps, st);
      History(cfg, steps[..|steps| - 1], mid);
      hide Run, LoopEnd, AllIdle, MayBeRead;
    }
  }

  /** However often an entry is read: with up-to-date reads nothing is left that no thread can read any more. */
  lemma NothingKept(cfg: Config, steps: seq<Step>, st: State)
    requires cfg.threads > 0 && CurrentRun(cfg, Start(cfg), steps, st) && Shape(cfg, st) && AllIdle(cfg, st)
    ensures exists t :: 0 <= t < cfg.threads && st.alive <= LastTaken(cfg, steps, t)
  {
    StartTop(cfg, cfg.threads);
    DueRun(cfg, Start(cfg), steps, st);
    CurrentRunIsRun(cfg, Start(cfg), steps, st);
    TopIsGreatest(st.status);
    History(cfg, steps, st);
    hide Run, CurrentRun, Top;
    var u :| 0 <= u < |st.status| && st.status[u] == Top(st.status);
    assert st.alive <= LastTaken(cfg, steps, u);
  }

  /** In every run whose reads are up to date: when no thread is at work, the lists that are left are those below the greatest of the
    * sequences that the threads have had last. Nothing is kept longer, and nothing else is freed.
    */
  lemma AllReleased(cfg: Config, steps: seq<Step>, st: State)
    requires (cfg.oneLoad || cfg.threads == 1) && cfg.threads > 0
    requires CurrentRun(cfg, Start(cfg), steps, st) && Shape(cfg, st) && AllIdle(cfg, st)
    ensures Greatest(st.status, st.alive)
    ensures exists t :: 0 <= t < cfg.threads && LastTaken(cfg, steps, t) == st.alive
    ensures forall t :: 0 <= t < cfg.threads ==> LastTaken(cfg, steps, t) <= st.alive
  {
    StartTop(cfg, cfg.threads);
    DueRun(cfg, Start(cfg), steps, st);
    CurrentRunIsRun(cfg, Start(cfg), steps, st);
    InvRun(cfg, Start(cfg), steps, st);
    TopIsGreatest(st.status);
    History(cfg, steps, st);
    hide Run, CurrentRun, Top;
    var u :| 0 <= u < |st.status| && st.status[u] == Top(st.status);
    assert LastTaken(cfg, steps, u) == st.alive;
  }

  /** With one thread that is so in every run. */
  lemma OneThreadReleases(cfg: Config, steps: seq<Step>, st: State)
    requires cfg.threads == 1 && Run(cfg, Start(cfg), steps, st) && Shape(cfg, st) && st.pc[0].Idle?
    ensures st.alive == st.status[0] == LastTaken(cfg, steps, 0)
  {
    OneThreadIsCurrent(cfg, Start(cfg), steps, st);
    AllReleased(cfg, steps, st);
    History(cfg, steps, st);
  }

  // One round of one thread, whatever the others are doing.

  /** In a round that nobody interrupts; status and alive are those at its beginning. */
  ghost predicate InRound(cfg: Config, st: State, t: nat, status: seq<nat>, alive: nat)
  {
    && Shape(cfg, st) && t < cfg.threads && st.status == status && st.releasedPos == st.alive
    && match st.pc[t]
       case Idle => st.alive == if Top(status) < alive then Top(status) else alive
       case Mining(s) => false
       case Scan(i, current) => i <= cfg.threads && current == Max(status, i) && st.alive == alive
       case Seen(i, current) => i < cfg.threads && current == Max(status, i) && st.alive == alive && current < status[i]
       case Entered(current) => current == Top(status) && st.alive == alive
  }

  lemma {:induction false} RoundRun(cfg: Config, st: State, steps: seq<Step>, st': State, t: nat, status: seq<nat>, alive: nat)
    requires InRound(cfg, st, t, status, alive) && CurrentRun(cfg, st, steps, st')
    requires forall k :: 0 <= k < |steps| ==> steps[k].t == t && !steps[k].Take?
    ensures InRound(cfg, st', t, status, alive)
    decreases |steps|
  {
    if steps != [] { RoundRun(cfg, Apply(cfg, st, steps[0]), steps[1..], st', t, status, alive); }
  }

  /** A thread that finishes its sequence and gets through without the others making a step frees everything from the greatest status on,
    * and nothing below it.
    */
  lemma RoundReleases(cfg: Config, st: State, steps: seq<Step>, st': State, t: nat)
    requires Shape(cfg, st) && st.releasedPos == st.alive && t < cfg.threads && st.pc[t].Mining? && CurrentRun(cfg, st, steps, st')
    requires forall k :: 0 <= k < |steps| ==> steps[k].t == t && !steps[k].Take?
    requires Shape(cfg, st') && st'.pc[t].Idle?
    ensures st'.status == st.status[t := st.pc[t].s]
    ensures exists m: nat :: Greatest(st'.status, m) && st'.alive == if m < st.alive then m else st.alive
  {
    assert steps != [] && steps[0] == Finish(t);
    var mid := Apply(cfg, st, Finish(t));
    RoundRun(cfg, mid, steps[1..], st', t, mid.status, st.alive);
    TopIsGreatest(st'.status);
  }

  // The loops of lowerbound_array.

  /** The sequence that thread t is busy with. */
  ghost function BusyWith(cfg: Config, st: State, t: nat): nat
    requires Shape(cfg, st) && t < cfg.threads
  {
    if st.pc[t].Mining? then st.pc[t].s else st.status[t]
  }

  /** Whoever is busy is busy with a sequence below the bound, once the counter is below it. */
  ghost predicate Behind(cfg: Config, st: State, bound: nat)
    requires Shape(cfg, st)
  {
    st.next < bound ==> forall t :: 0 <= t < cfg.threads && !st.pc[t].Idle? ==> BusyWith(cfg, st, t) < bound
  }

  lemma {:induction false} BehindRun(cfg: Config, st0: State, steps: seq<Step>, st: State, bound: nat)
    requires Shape(cfg, st0) && Behind(cfg, st0, bound) && Run(cfg, st0, steps, st) && (bound == 0x10000 || bound == 0x100)
    ensures Shape(cfg, st) && Behind(cfg, st, bound)
    decreases |steps|
  {
    if steps != [] {
      var st1 := Apply(cfg, st0, steps[0]);
      forall t | 0 <= t < cfg.threads && !st1.pc[t].Idle? && st1.next < bound ensures BusyWith(cfg, st1, t) < bound {
        if t != steps[0].t { assert st1.pc[t] == st0.pc[t]; }
      }
      BehindRun(cfg, st1, steps[1..], st, bound);
    }
  }

  /** No thread starts on the next of the three loops before all have left the one before: not while an element of the old width is read. */
  lemma LoopsApart(cfg: Config, steps: seq<Step>, st: State, t: nat, u: nat, bound: nat)
    requires Run(cfg, Start(cfg), steps, st) && Shape(cfg, st) && t < cfg.threads && u < cfg.threads && (bound == 0x10000 || bound == 0x100)
    requires !st.pc[t].Idle? && !st.pc[u].Idle? && LastTaken(cfg, steps, t) < bound
    ensures LastTaken(cfg, steps, u) < bound
  {
    BehindRun(cfg, Start(cfg), steps, st, bound);
    History(cfg, steps, st);
    TakenAreAbove(cfg, Start(cfg), steps, st);
    assert BusyWith(cfg, st, t) == LastTaken(cfg, steps, t) && BusyWith(cfg, st, u) == LastTaken(cfg, steps, u);
  }

  lemma {:induction false} TakenAreAbove(cfg: Config, st0: State, steps: seq<Step>, st: State)
    requires Shape(cfg, st0) && Run(cfg, st0, steps, st)
    requires forall t :: 0 <= t < cfg.threads ==> BusyWith(cfg, st0, t) >= st0.next
    ensures Shape(cfg, st) && forall t :: 0 <= t < cfg.threads ==> BusyWith(cfg, st, t) >= st.next
    decreases |steps|
  {
    if steps != [] {
      var st1 := Apply(cfg, st0, steps[0]);
      forall t | 0 <= t < cfg.threads ensures BusyWith(cfg, st1, t) >= st1.next { assert BusyWith(cfg, st0, t) >= st0.next; }
      TakenAreAbove(cfg, st1, steps[1..], st);
    }
  }

  /** The critical section has one thread in it at most. */
  lemma OneInside(cfg: Config, steps: seq<Step>, st: State, t: nat, u: nat)
    requires Run(cfg, Start(cfg), steps, st) && Shape(cfg, st) && t < cfg.threads && u < cfg.threads
    requires st.pc[t].Entered? && st.pc[u].Entered?
    ensures t == u
  {
    InsideRun(cfg, Start(cfg), steps, st);
  }

  ghost predicate Inside(cfg: Config, st: State)
    requires Shape(cfg, st)
  {
    forall t :: 0 <= t < cfg.threads && st.pc[t].Entered? ==> st.mutex == t
  }

  lemma {:induction false} InsideRun(cfg: Config, st0: State, steps: seq<Step>, st: State)
    requires Shape(cfg, st0) && Inside(cfg, st0) && Run(cfg, st0, steps, st)
    ensures Shape(cfg, st) && Inside(cfg, st)
    decreases |steps|
  {
    if steps != [] { InsideRun(cfg, Apply(cfg, st0, steps[0]), steps[1..], st); }
  }
}
