/** Every interleaving of RebuildGridMT fills the cells as the serial RebuildGrid does. */
module FluidInterleavings {
  import opened Sums
  import opened Common
  import opened FluidBlocks
  import opened FluidRebuild
  import opened FluidPartition
  import opened FluidParallel

  /** Each step of a thread keeps the invariant. */
  lemma StepKeeps(cfg: Config, s: State, t: nat, all: seq<Particle>)
    requires Inv(cfg, s, all) && Enabled(cfg, s, t)
    ensures InBounds(cfg, s, t) && Inv(cfg, Step(cfg, s, t), all)
  {
    InvInBounds(cfg, s, t, all);
    var pc := s.pc[t];
    hide Inv, Enter, Fetch, Extend, Count, Leave, Write, InBounds;
    match pc
    case Ready => EnterKeeps(cfg, s, t, all);
    case Entered => FetchKeeps(cfg, s, t, all);
    case Fetched(_, _) => ExtendKeeps(cfg, s, t, all);
    case Extended(_, _) => CountKeeps(cfg, s, t, all);
    case Counted(_, _, _, _) => LeaveKeeps(cfg, s, t, all);
    case Left(_, _, _, _) => WriteKeeps(cfg, s, t, all);
  }

  /** The schedule says which thread makes each step. */
  ghost predicate Run(cfg: Config, s0: State, schedule: seq<nat>, s: State)
    requires ConfigOk(cfg) && Shape(cfg, s0)
    decreases |schedule|
  {
    if schedule == [] then s == s0
    else
      var t := schedule[0];
      && Enabled(cfg, s0, t) && InBounds(cfg, s0, t)
      && Shape(cfg, Step(cfg, s0, t))
      && Run(cfg, Step(cfg, s0, t), schedule[1..], s)
  }

  lemma {:induction false} RunKeeps(cfg: Config, s0: State, schedule: seq<nat>, s: State, all: seq<Particle>)
    requires Inv(cfg, s0, all) && Run(cfg, s0, schedule, s)
    ensures Inv(cfg, s, all)
    decreases |schedule|
  {
    if schedule != [] {
      StepKeeps(cfg, s0, schedule[0], all);
      RunKeeps(cfg, Step(cfg, s0, schedule[0]), schedule[1..], s, all);
    }
  }

  /** The source particles of thread t: its cells among the first n, in order. */
  ghost function Own(src: seq<seq<Particle>>, owner: seq<nat>, t: nat, n: nat): seq<Particle>
    requires n <= |src| == |owner|
  {
    if n == 0 then [] else Own(src, owner, t, n - 1) + if owner[n - 1] == t then src[n - 1] else []
  }

  ghost function OwnCounts(src: seq<seq<Particle>>, owner: seq<nat>, threads: nat, n: nat, x: Particle): seq<int>
    requires n <= |src| == |owner|
  {
    seq(threads, t requires 0 <= t < threads => multiset(Own(src, owner, t, n))[x])
  }

  lemma OneMoreCell(src: seq<seq<Particle>>, owner: seq<nat>, threads: nat, n: nat, x: Particle)
    requires 0 < n <= |src| == |owner| && owner[n - 1] < threads
    ensures var a := OwnCounts(src, owner, threads, n - 1, x); var t := owner[n - 1];
      OwnCounts(src, owner, threads, n, x) == a[t := a[t] + multiset(src[n - 1])[x]]
  {
  }

  /** The threads' parts are all there is. */
  lemma {:induction false} OwnIsAll(src: seq<seq<Particle>>, owner: seq<nat>, threads: nat, n: nat, x: Particle)
    requires n <= |src| == |owner| && forall c :: 0 <= c < |owner| ==> owner[c] < threads
    ensures Sum(OwnCounts(src, owner, threads, n, x)) == multiset(Flatten(src[..n]))[x]
  {
    var b := OwnCounts(src, owner, threads, n, x);
    if n == 0 {
      SumZero(b);
    } else {
      var a, t := OwnCounts(src, owner, threads, n - 1, x), owner[n - 1];
      OneMoreCell(src, owner, threads, n, x);
      hide *;
      OwnIsAll(src, owner, threads, n - 1, x);
      SumUpdate(a, t, b[t]);
      FlattenNext(src, n);
    }
  }

  /** After ClearParticlesMT: every destination cell one empty block; nobody has begun. */
  ghost function Start(cfg: Config, src: seq<seq<Particle>>): State
    requires ConfigOk(cfg) && |src| == NumCells(cfg.g)
  {
    var n := NumCells(cfg.g);
    State(seq(cfg.threads, t requires 0 <= t < cfg.threads => Own(src, cfg.owner, t, n)), seq(cfg.threads, _ => Ready),
          seq(n, _ => NULL), seq(n, _ => 0), seq(n, _ => 0), seq(n, _ => [seq(cfg.PPC, _ => Hole)]), seq(n, _ => []))
  }

  /** Who moves a particle to a cell that is not on the border is that cell's owner. */
  ghost predicate Confined(cfg: Config, src: seq<seq<Particle>>)
    requires ConfigOk(cfg) && |src| == NumCells(cfg.g)
  {
    forall c, j :: 0 <= c < |src| && 0 <= j < |src[c]| && !cfg.border[CellOf(cfg.g, src[c][j])]
      ==> cfg.owner[CellOf(cfg.g, src[c][j])] == cfg.owner[c]
  }

  lemma {:induction false} OwnConfined(cfg: Config, src: seq<seq<Particle>>, t: nat, n: nat)
    requires ConfigOk(cfg) && |src| == NumCells(cfg.g) && Confined(cfg, src) && n <= |src|
    ensures MayMove(cfg, Own(src, cfg.owner, t, n), t)
  {
    hide GeometryOk, NumCells, CellOf;
    if n > 0 {
      OwnConfined(cfg, src, t, n - 1);
      var own, before := Own(src, cfg.owner, t, n), Own(src, cfg.owner, t, n - 1);
      forall j | 0 <= j < |own| ensures cfg.border[CellOf(cfg.g, own[j])] || cfg.owner[CellOf(cfg.g, own[j])] == t {
        if j < |before| { assert own[j] == before[j]; } else { assert own[j] == src[n - 1][j - |before|]; }
      }
    }
  }

  lemma StartInv(cfg: Config, src: seq<seq<Particle>>)
    requires ConfigOk(cfg) && |src| == NumCells(cfg.g) && Confined(cfg, src) && forall c :: 0 <= c < |src| ==> cfg.owner[c] < cfg.threads
    ensures Inv(cfg, Start(cfg, src), Flatten(src))
  {
    hide GeometryOk, NumCells, CellOf, Own, Flatten, Conserved;
    var s := Start(cfg, src);
    forall t | 0 <= t < cfg.threads ensures ThreadOk(cfg, s, t) {
      OwnConfined(cfg, src, t, NumCells(cfg.g));
      assert s.todo[t] == Own(src, cfg.owner, t, NumCells(cfg.g)) && s.pc[t] == Ready;
    }
    forall d | 0 <= d < NumCells(cfg.g) ensures CellChainOk(cfg, s, d) && SlotsOk(cfg, s, d) && LockOk(cfg, s, d) {}
    hide ThreadOk, CellChainOk, SlotsOk, LockOk;
    StartConserves(cfg, src);
  }

  lemma StartConserves(cfg: Config, src: seq<seq<Particle>>)
    requires ConfigOk(cfg) && |src| == NumCells(cfg.g) && forall c :: 0 <= c < |src| ==> cfg.owner[c] < cfg.threads
    ensures Conserved(cfg, Start(cfg, src), Flatten(src))
  {
    hide GeometryOk, NumCells, CellOf, Flatten, Own;
    var s, n, all := Start(cfg, src), NumCells(cfg.g), Flatten(src);
    forall x ensures multiset(s.log[CellOf(cfg.g, x)])[x] + Sum(ToCome(s, x)) == multiset(all)[x] {
      OwnIsAll(src, cfg.owner, cfg.threads, n, x);
      assert src[..n] == src;
      assert ToCome(s, x) == OwnCounts(src, cfg.owner, cfg.threads, n, x);
    }
  }

  /** Everyone is through. */
  ghost predicate Finished(cfg: Config, s: State)
    requires Shape(cfg, s)
  {
    forall t :: 0 <= t < cfg.threads ==> s.pc[t].Ready? && s.todo[t] == []
  }

  lemma {:induction false} InCellCount(g: Geometry, all: seq<Particle>, c: nat, x: Particle)
    requires GeometryOk(g)
    ensures multiset(InCell(g, all, c))[x] == if CellOf(g, x) == c then multiset(all)[x] else 0
  {
    hide CellOf;
    if all != [] {
      var n := |all| - 1;
      assert all == all[..n] + [all[n]];
      InCellCount(g, all[..n], c, x);
    }
  }

  /** The cell as the program leaves it: slot by slot the particles ps, in as many blocks as they need, last_cells at the tail. */
  ghost predicate CellIs(cfg: Config, s: State, d: nat, ps: seq<Particle>)
    requires ConfigOk(cfg) && Shape(cfg, s) && d < NumCells(cfg.g)
  {
    && s.cnum[d] == |ps|
    && |s.blocks[d]| == Blocks(|ps|, cfg.PPC) == s.last[d] + 1
    && forall np: nat :: np < |ps| ==> SlotIs(cfg, s, d, np, Full(ps[np]))
  }

  lemma SameBagLiesIn(g: Geometry, all: seq<Particle>, ps: seq<Particle>, d: nat)
    requires GeometryOk(g) && multiset(ps) == multiset(InCell(g, all, d))
    ensures forall p :: p in ps ==> LiesIn(g, p, d)
  {
    hide InCell, LiesIn;
    forall p | p in ps ensures LiesIn(g, p, d) {
      assert p in multiset(InCell(g, all, d));
      InCellBelongs(g, all, d, p);
    }
  }

  /** At the end every cell holds the particles that the serial rebuild puts there, and every mutex is free. */
  lemma FinishedIsSerial(cfg: Config, s: State, all: seq<Particle>, d: nat)
    requires Inv(cfg, s, all) && Finished(cfg, s) && d < NumCells(cfg.g)
    ensures CellIs(cfg, s, d, s.log[d]) && multiset(s.log[d]) == multiset(InCell(cfg.g, all, d)) && s.lock[d] == NULL
    ensures forall p :: p in s.log[d] ==> LiesIn(cfg.g, p, d)
  {
    assert GeometryOk(cfg.g);
    hide *;
    FinishedCells(cfg, s, all, d);
    SameBagLiesIn(cfg.g, all, s.log[d], d);
  }

  lemma FinishedCells(cfg: Config, s: State, all: seq<Particle>, d: nat)
    requires Inv(cfg, s, all) && Finished(cfg, s) && d < NumCells(cfg.g)
    ensures CellIs(cfg, s, d, s.log[d]) && multiset(s.log[d]) == multiset(InCell(cfg.g, all, d)) && s.lock[d] == NULL
  {
    hide GeometryOk, NumCells, CellOf, Blocks, ThreadOk;
    assert CellChainOk(cfg, s, d) && SlotsOk(cfg, s, d) && LockOk(cfg, s, d);
    forall x ensures multiset(s.log[d])[x] == multiset(InCell(cfg.g, all, d))[x] {
      InCellCount(cfg.g, all, d, x);
      SumZero(ToCome(s, x));
      if multiset(s.log[d])[x] > 0 {
        assert x in s.log[d];
      }
    }
  }

  /** No deadlock: as long as a particle is under way or left, some thread can go on. */
  lemma Progress(cfg: Config, s: State, all: seq<Particle>) returns (t: nat)
    requires Inv(cfg, s, all) && !Finished(cfg, s)
    ensures Enabled(cfg, s, t)
  {
    hide GeometryOk, NumCells, CellOf, ThreadOk, CellChainOk, SlotsOk;
    t :| 0 <= t < cfg.threads && !(s.pc[t].Ready? && s.todo[t] == []);
    if s.pc[t].Ready? {
      var d := CellOf(cfg.g, s.todo[t][0]);
      assert LockOk(cfg, s, d);
      if s.lock[d] != NULL { t := s.lock[d]; }
    }
  }

  /** The steps that thread t still has to make. */
  ghost function StepsOf(s: State, t: nat): int
    requires t < |s.pc| == |s.todo|
  {
    6 * |s.todo[t]| + match s.pc[t]
      case Ready => 0
      case Entered => -1
      case Fetched(_, _) => -2
      case Extended(_, _) => -3
      case Counted(_, _, _, _) => 2
      case Left(_, _, _, _) => 1
  }

  ghost function Steps(s: State): seq<int>
    requires |s.pc| == |s.todo|
  {
    seq(|s.pc|, t requires 0 <= t < |s.pc| => StepsOf(s, t))
  }

  lemma StepCounts(cfg: Config, s: State, t: nat, all: seq<Particle>)
    requires Inv(cfg, s, all) && Enabled(cfg, s, t) && InBounds(cfg, s, t) && Shape(cfg, Step(cfg, s, t))
    ensures Sum(Steps(Step(cfg, s, t))) == Sum(Steps(s)) - 1
  {
    var s', a := Step(cfg, s, t), Steps(s);
    StepIsOne(cfg, s, t, all);
    hide Inv, GeometryOk, NumCells, CellOf, Dest, Enabled, Step, InBounds, StepsOf, Sum;
    assert Steps(s') == a[t := a[t] - 1];
    SumUpdate(a, t, a[t] - 1);
  }

  lemma StepIsOne(cfg: Config, s: State, t: nat, all: seq<Particle>)
    requires Inv(cfg, s, all) && Enabled(cfg, s, t) && InBounds(cfg, s, t) && Shape(cfg, Step(cfg, s, t))
    ensures StepsOf(Step(cfg, s, t), t) == StepsOf(s, t) - 1
    ensures forall u :: 0 <= u < cfg.threads && u != t ==> StepsOf(Step(cfg, s, t), u) == StepsOf(s, u)
  {
    assert Shape(cfg, s);
    hide Inv, GeometryOk, NumCells, CellOf, Dest;
  }

  /** Every run has exactly as many steps as the state has fewer to make. */
  lemma {:induction false} RunLength(cfg: Config, s0: State, schedule: seq<nat>, s: State, all: seq<Particle>)
    requires Inv(cfg, s0, all) && Run(cfg, s0, schedule, s)
    ensures Shape(cfg, s) && |schedule| == Sum(Steps(s0)) - Sum(Steps(s))
    decreases |schedule|
  {
    if schedule != [] {
      StepKeeps(cfg, s0, schedule[0], all);
      StepCounts(cfg, s0, schedule[0], all);
      RunLength(cfg, Step(cfg, s0, schedule[0]), schedule[1..], s, all);
    }
  }

  /** No run goes on for ever. */
  lemma RunsAreBounded(cfg: Config, s0: State, schedule: seq<nat>, s: State, all: seq<Particle>)
    requires Inv(cfg, s0, all) && Run(cfg, s0, schedule, s)
    ensures |schedule| <= Sum(Steps(s0))
  {
    RunLength(cfg, s0, schedule, s, all);
    RunKeeps(cfg, s0, schedule, s, all);
    var a := Steps(s);
    forall t | 0 <= t < |a| ensures a[t] >= 0 { assert ThreadOk(cfg, s, t); }
    SumNonNegative(a);
  }

  /** From the start: at most six steps per particle. */
  lemma RunsAreShort(cfg: Config, src: seq<seq<Particle>>, schedule: seq<nat>, s: State)
    requires ConfigOk(cfg) && |src| == NumCells(cfg.g) && Confined(cfg, src) && forall c :: 0 <= c < |src| ==> cfg.owner[c] < cfg.threads
    requires Run(cfg, Start(cfg, src), schedule, s)
    ensures |schedule| <= 6 * |Flatten(src)|
  {
    StartInv(cfg, src);
    RunsAreBounded(cfg, Start(cfg, src), schedule, s, Flatten(src));
    OwnSizes(src, cfg.owner, cfg.threads, |src|);
    hide Run, Inv, Sum;
    assert Steps(Start(cfg, src)) == OwnSteps(src, cfg.owner, cfg.threads, |src|);
    assert src[..|src|] == src;
  }

  ghost function OwnSteps(src: seq<seq<Particle>>, owner: seq<nat>, threads: nat, n: nat): seq<int>
    requires n <= |src| == |owner|
  {
    seq(threads, t requires 0 <= t < threads => 6 * |Own(src, owner, t, n)|)
  }

  lemma {:induction false} OwnSizes(src: seq<seq<Particle>>, owner: seq<nat>, threads: nat, n: nat)
    requires n <= |src| == |owner| && forall c :: 0 <= c < |owner| ==> owner[c] < threads
    ensures Sum(OwnSteps(src, owner, threads, n)) == 6 * |Flatten(src[..n])|
  {
    var b := OwnSteps(src, owner, threads, n);
    if n == 0 {
      SumZero(b);
    } else {
      var a, t := OwnSteps(src, owner, threads, n - 1), owner[n - 1];
      assert b == a[t := a[t] + 6 * |src[n - 1]|];
      hide *;
      OwnSizes(src, owner, threads, n - 1);
      SumUpdate(a, t, b[t]);
      FlattenNext(src, n);
    }
  }

  /** The parallel rebuild refines the serial one: whatever the schedule, when the threads are through every cell holds what RebuildGrid
    * makes of the same source cells.
    */
  lemma ParallelIsSerial(cfg: Config, src: seq<seq<Particle>>, schedule: seq<nat>, s: State, d: nat)
    requires ConfigOk(cfg) && |src| == NumCells(cfg.g) && Confined(cfg, src) && forall c :: 0 <= c < |src| ==> cfg.owner[c] < cfg.threads
    requires Run(cfg, Start(cfg, src), schedule, s) && Shape(cfg, s) && Finished(cfg, s) && d < NumCells(cfg.g)
    ensures CellIs(cfg, s, d, s.log[d]) && multiset(s.log[d]) == multiset(InCell(cfg.g, Flatten(src), d))
    ensures forall p :: p in s.log[d] ==> LiesIn(cfg.g, p, d)
  {
    StartInv(cfg, src);
    RunKeeps(cfg, Start(cfg, src), schedule, s, Flatten(src));
    FinishedIsSerial(cfg, s, Flatten(src), d);
  }

  /** Where a cell number is. */
  ghost function CoordOf(g: Geometry, i: nat): (c: Coord)
    requires GeometryOk(g) && i < NumCells(g)
    ensures InDomain(g, c) && At(g, c) == i
  {
    RowsOf(i, g.nz * g.ny, g.nx);
    RowsOf(i / g.nx, g.nz, g.ny);
    var c := Coord(i % g.nx, i / g.nx % g.ny, i / g.nx / g.ny);
    c
  }

  lemma RowsOf(i: nat, m: nat, n: nat)
    requires n > 0 && i < m * n
    ensures i / n < m && i % n < n && i == i / n * n + i % n
  {
    var q := i / n;
    assert i == n * q + i % n;
    if q > m { Larger(n, q, m); }
  }

  /** The configuration of the program: owners from the grids, mutexes where Border says. */
  ghost predicate FromPartition(cfg: Config, grids: seq<Grid>, XDIVS: nat, ZDIVS: nat)
  {
    && ConfigOk(cfg) && Partitioned(grids, cfg.g, XDIVS, ZDIVS) && cfg.threads == |grids|
    && forall c {:trigger At(cfg.g, c)} :: InDomain(cfg.g, c) ==>
         && cfg.owner[At(cfg.g, c)] == OwnerOf(grids, cfg.g, XDIVS, ZDIVS, c)
         && (cfg.border[At(cfg.g, c)] <==> OnBorder(grids, cfg.g, XDIVS, ZDIVS, c))
  }

  /** In a time step a particle gets to a neighbouring cell at most: what the locking is built on. */
  ghost predicate OneCellAtMost(g: Geometry, src: seq<seq<Particle>>)
    requires GeometryOk(g) && |src| == NumCells(g)
  {
    forall c, j :: 0 <= c < |src| && 0 <= j < |src[c]| ==> Adjacent(CoordOf(g, c), CoordOf(g, CellOf(g, src[c][j])))
  }

  lemma PartitionConfines(cfg: Config, grids: seq<Grid>, XDIVS: nat, ZDIVS: nat, src: seq<seq<Particle>>)
    requires FromPartition(cfg, grids, XDIVS, ZDIVS) && |src| == NumCells(cfg.g) && OneCellAtMost(cfg.g, src)
    ensures Confined(cfg, src) && forall c :: 0 <= c < |src| ==> cfg.owner[c] < cfg.threads
  {
    hide GeometryOk, NumCells, CellOf, Partitioned, OwnerOf, OnBorder, At, CoordOf, Adjacent;
    forall c | 0 <= c < |src| ensures cfg.owner[c] < cfg.threads { var p := CoordOf(cfg.g, c); }
    forall c, j | 0 <= c < |src| && 0 <= j < |src[c]| && !cfg.border[CellOf(cfg.g, src[c][j])]
      ensures cfg.owner[CellOf(cfg.g, src[c][j])] == cfg.owner[c]
    {
      var p, q := CoordOf(cfg.g, c), CoordOf(cfg.g, CellOf(cfg.g, src[c][j]));
      InteriorIsPrivate(grids, cfg.g, XDIVS, ZDIVS, p, q);
    }
  }

  /** All together: with the grids and the border flags of InitSim, and particles that move one cell at most per axis. */
  lemma RebuildRefined(cfg: Config, grids: seq<Grid>, XDIVS: nat, ZDIVS: nat, src: seq<seq<Particle>>, schedule: seq<nat>, s: State, d: nat)
    requires FromPartition(cfg, grids, XDIVS, ZDIVS) && |src| == NumCells(cfg.g) && OneCellAtMost(cfg.g, src)
    requires Run(cfg, Start(cfg, src), schedule, s) && Shape(cfg, s) && Finished(cfg, s) && d < NumCells(cfg.g)
    ensures CellIs(cfg, s, d, s.log[d]) && multiset(s.log[d]) == multiset(InCell(cfg.g, Flatten(src), d))
    ensures forall p :: p in s.log[d] ==> LiesIn(cfg.g, p, d)
  {
    PartitionConfines(cfg, grids, XDIVS, ZDIVS, src);
    ParallelIsSerial(cfg, src, schedule, s, d);
  }
}
