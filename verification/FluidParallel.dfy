/** RebuildGridMT of the parallel fluidanimate, as a state machine: one step of one thread at a time, every interleaving. */
module FluidParallel {
  import opened Common
  import opened Sums
  import opened FluidBlocks
  import opened FluidRebuild

  /** `owner` and `border` come from the partition; PPC is the room of a block. */
  datatype Config = Config(g: Geometry, PPC: nat, owner: seq<nat>, border: seq<bool>, threads: nat)

  /** A place for a particle in a block. */
  datatype Slot = Hole | Full(p: Particle)

  /** Where a thread is in the loop body for its next particle. np and k are its variables np and cell (as a place in the chain). */
  datatype Pc =
    | Ready
    | Entered
    | Fetched(np: nat, k: nat)
    | Extended(np: nat, k: nat)
    | Counted(p: Particle, d: nat, np: nat, k: nat)
    | Left(p: Particle, d: nat, np: nat, k: nat)

  /** todo: per thread, the particles of its cells that it has not counted yet. Per destination cell: the holder of its mutex (NULL if free),
    * cnumPars, last_cells (as a place in the chain) and the chain of blocks. `log` is no variable of the program: it records,
    * per cell, the particles in the order they got their slots.
    */
  datatype State = State(todo: seq<seq<Particle>>, pc: seq<Pc>, lock: seq<int>, cnum: seq<nat>, last: seq<nat>, blocks: seq<seq<seq<Slot>>>,
                         log: seq<seq<Particle>>)

  ghost predicate ConfigOk(cfg: Config)
  {
    GeometryOk(cfg.g) && cfg.PPC > 0 && |cfg.owner| == |cfg.border| == NumCells(cfg.g)
  }

  ghost predicate Shape(cfg: Config, s: State)
  {
    && |s.todo| == |s.pc| == cfg.threads
    && |s.lock| == |s.cnum| == |s.last| == |s.blocks| == |s.log| == NumCells(cfg.g)
  }

  /** The destination of the particle a thread is at. */
  ghost function Dest(cfg: Config, s: State, t: nat): (d: nat)
    requires ConfigOk(cfg) && Shape(cfg, s) && t < cfg.threads
  {
    match s.pc[t]
    case Counted(p, d, np, k) => d
    case Left(p, d, np, k) => d
    case _ => if s.todo[t] == [] then 0 else CellOf(cfg.g, s.todo[t][0])
  }

  /** Between lock and unlock. */
  predicate InSection(pc: Pc) { !pc.Ready? && !pc.Left? }

  /** The mutex of a border cell, the cell itself otherwise. */
  ghost predicate MayUse(cfg: Config, s: State, t: nat, d: nat)
    requires ConfigOk(cfg) && Shape(cfg, s) && d < NumCells(cfg.g)
  {
    if cfg.border[d] then s.lock[d] == t else cfg.owner[d] == t
  }

  /** Of the particles ps, those that go to cells without a mutex go to cells of thread t. */
  ghost predicate MayMove(cfg: Config, ps: seq<Particle>, t: nat)
    requires ConfigOk(cfg)
  {
    forall j :: 0 <= j < |ps| ==> cfg.border[CellOf(cfg.g, ps[j])] || cfg.owner[CellOf(cfg.g, ps[j])] == t
  }

  /** What thread t relies on. */
  ghost predicate ThreadOk(cfg: Config, s: State, t: nat)
    requires ConfigOk(cfg) && Shape(cfg, s) && t < cfg.threads
  {
    var d := Dest(cfg, s, t);
    && MayMove(cfg, s.todo[t], t)
    && (s.pc[t].Entered? || s.pc[t].Fetched? || s.pc[t].Extended? ==> s.todo[t] != [])
    && (InSection(s.pc[t]) ==> d < NumCells(cfg.g) && MayUse(cfg, s, t, d))
    && match s.pc[t]
       case Ready => true
       case Entered => true
       case Fetched(np, k) => np == s.cnum[d] && k == s.last[d] && |s.blocks[d]| == Blocks(np, cfg.PPC)
       case Extended(np, k) => np == s.cnum[d] && k == s.last[d] == np / cfg.PPC
       case Counted(p, _, np, k) => np + 1 == s.cnum[d] && Reserved(cfg, s, p, d, np, k)
       case Left(p, _, np, k) => d < NumCells(cfg.g) && Reserved(cfg, s, p, d, np, k)
  }

  /** Slot np of cell d is there for p. */
  ghost predicate Reserved(cfg: Config, s: State, p: Particle, d: nat, np: nat, k: nat)
    requires ConfigOk(cfg) && Shape(cfg, s) && d < NumCells(cfg.g)
  {
    np < s.cnum[d] && np < |s.log[d]| && s.log[d][np] == p && k == np / cfg.PPC < |s.blocks[d]|
  }

  /** Some thread has the slot and has yet to write it. */
  ghost predicate Pending(cfg: Config, s: State, d: nat, np: nat)
    requires Shape(cfg, s)
  {
    exists t :: 0 <= t < cfg.threads && Writing(s.pc[t], d, np)
  }

  predicate Writing(pc: Pc, d: nat, np: nat) { (pc.Counted? || pc.Left?) && pc.d == d && pc.np == np }

  /** Thread t has put a new block to cell d and not counted its particle yet. */
  ghost predicate Extending(cfg: Config, s: State, d: nat, t: nat)
    requires ConfigOk(cfg) && Shape(cfg, s) && t < cfg.threads
  {
    s.pc[t].Extended? && Dest(cfg, s, t) == d
  }

  ghost predicate SlotIs(cfg: Config, s: State, d: nat, np: nat, v: Slot)
    requires ConfigOk(cfg) && Shape(cfg, s) && d < NumCells(cfg.g)
  {
    && np / cfg.PPC < |s.blocks[d]|
    && np % cfg.PPC < |s.blocks[d][np / cfg.PPC]|
    && s.blocks[d][np / cfg.PPC][np % cfg.PPC] == v
  }

  /** The chain of a destination cell. */
  ghost predicate CellChainOk(cfg: Config, s: State, d: nat)
    requires ConfigOk(cfg) && Shape(cfg, s) && d < NumCells(cfg.g)
  {
    && |s.log[d]| == s.cnum[d]
    && |s.blocks[d]| == s.last[d] + 1
    && (forall k :: 0 <= k < |s.blocks[d]| ==> |s.blocks[d][k]| == cfg.PPC)
    && (forall j :: 0 <= j < |s.log[d]| ==> CellOf(cfg.g, s.log[d][j]) == d)
    && (|s.blocks[d]| == Blocks(s.cnum[d], cfg.PPC) || exists t :: 0 <= t < cfg.threads && Extending(cfg, s, d, t))
  }

  /** Every slot given out has its particle or a thread that will write it. */
  ghost predicate SlotsOk(cfg: Config, s: State, d: nat)
    requires ConfigOk(cfg) && Shape(cfg, s) && d < NumCells(cfg.g)
  {
    forall np: nat :: np < |s.log[d]| ==> SlotIs(cfg, s, d, np, Full(s.log[d][np])) || Pending(cfg, s, d, np)
  }

  /** A taken mutex is that of a border cell, and its holder is between lock and unlock. */
  ghost predicate LockOk(cfg: Config, s: State, d: nat)
    requires ConfigOk(cfg) && Shape(cfg, s) && d < NumCells(cfg.g)
  {
    s.lock[d] == NULL || (0 <= s.lock[d] < cfg.threads && cfg.border[d] && InSection(s.pc[s.lock[d]]) && Dest(cfg, s, s.lock[d]) == d)
  }

  /** No two threads write to the same slot. */
  ghost predicate Disjoint(cfg: Config, s: State)
    requires Shape(cfg, s)
  {
    forall t, u, d, np :: 0 <= t < cfg.threads && 0 <= u < cfg.threads && Writing(s.pc[t], d, np) && Writing(s.pc[u], d, np) ==> t == u
  }

  /** How often x is still to come. */
  ghost function ToCome(s: State, x: Particle): seq<int>
  {
    seq(|s.todo|, t requires 0 <= t < |s.todo| => multiset(s.todo[t])[x])
  }

  /** What was to do is to do still, or in the cell where it belongs. */
  ghost predicate Conserved(cfg: Config, s: State, all: seq<Particle>)
    requires ConfigOk(cfg) && Shape(cfg, s)
  {
    forall x :: multiset(s.log[CellOf(cfg.g, x)])[x] + Sum(ToCome(s, x)) == multiset(all)[x]
  }

  ghost predicate Inv(cfg: Config, s: State, all: seq<Particle>)
  {
    && ConfigOk(cfg) && Shape(cfg, s)
    && (forall t :: 0 <= t < cfg.threads ==> ThreadOk(cfg, s, t))
    && (forall d :: 0 <= d < NumCells(cfg.g) ==> CellChainOk(cfg, s, d))
    && (forall d :: 0 <= d < NumCells(cfg.g) ==> SlotsOk(cfg, s, d))
    && (forall d :: 0 <= d < NumCells(cfg.g) ==> LockOk(cfg, s, d))
    && Disjoint(cfg, s) && Conserved(cfg, s, all)
  }

  /** Thread t can go on: it has a particle left, and does not wait for a mutex. */
  ghost predicate Enabled(cfg: Config, s: State, t: nat)
    requires ConfigOk(cfg) && Shape(cfg, s)
  {
    && t < cfg.threads
    && (s.pc[t].Ready? ==> s.todo[t] != [] && var d := CellOf(cfg.g, s.todo[t][0]); cfg.border[d] ==> s.lock[d] == NULL)
  }

  /** The blocks that the next step of t touches are there. */
  ghost predicate InBounds(cfg: Config, s: State, t: nat)
    requires ConfigOk(cfg) && Shape(cfg, s) && t < cfg.threads
  {
    var d := Dest(cfg, s, t);
    match s.pc[t]
    case Ready => true
    case Fetched(np, k) => d < NumCells(cfg.g) && k < |s.blocks[d]|
    case Extended(np, k) => d < NumCells(cfg.g) && s.todo[t] != []
    case Left(p, _, np, k) => d < NumCells(cfg.g) && k < |s.blocks[d]| && |s.blocks[d][k]| == cfg.PPC
    case _ => d < NumCells(cfg.g)
  }

  /** One step of thread t. */
  ghost function Step(cfg: Config, s: State, t: nat): State
    requires ConfigOk(cfg) && Shape(cfg, s) && Enabled(cfg, s, t) && InBounds(cfg, s, t)
  {
    match s.pc[t]
    case Ready => Enter(cfg, s, t)
    case Entered => Fetch(cfg, s, t)
    case Fetched(_, _) => Extend(cfg, s, t)
    case Extended(_, _) => Count(cfg, s, t)
    case Counted(_, _, _, _) => Leave(cfg, s, t)
    case Left(_, _, _, _) => Write(cfg, s, t)
  }

  lemma InvInBounds(cfg: Config, s: State, t: nat, all: seq<Particle>)
    requires Inv(cfg, s, all) && t < cfg.threads
    ensures InBounds(cfg, s, t)
  {
    hide GeometryOk, NumCells, CellOf, Blocks, SlotsOk, LockOk, Disjoint, Conserved;
    assert ThreadOk(cfg, s, t);
    var d := Dest(cfg, s, t);
    if d < NumCells(cfg.g) { assert CellChainOk(cfg, s, d); }
  }

  /** if(border[index]) pthread_mutex_lock */
  ghost function Enter(cfg: Config, s: State, t: nat): State
    requires ConfigOk(cfg) && Shape(cfg, s) && Enabled(cfg, s, t) && s.pc[t].Ready?
  {
    var d := CellOf(cfg.g, s.todo[t][0]);
    s.(pc := s.pc[t := Entered], lock := if cfg.border[d] then s.lock[d := t] else s.lock)
  }

  /** cell = last_cells[index]; np = cnumPars[index]; */
  ghost function Fetch(cfg: Config, s: State, t: nat): State
    requires ConfigOk(cfg) && Shape(cfg, s) && t < cfg.threads && s.pc[t].Entered? && Dest(cfg, s, t) < NumCells(cfg.g)
  {
    var d := Dest(cfg, s, t);
    s.(pc := s.pc[t := Fetched(s.cnum[d], s.last[d])])
  }

  /** Another block from the thread's own pool, if everything is full. Linking it behind `cell` drops whatever was linked there. */
  ghost function Extend(cfg: Config, s: State, t: nat): State
    requires ConfigOk(cfg) && Shape(cfg, s) && t < cfg.threads && s.pc[t].Fetched? && Dest(cfg, s, t) < NumCells(cfg.g)
    requires s.pc[t].k < |s.blocks[Dest(cfg, s, t)]|
  {
    var d, np, k := Dest(cfg, s, t), s.pc[t].np, s.pc[t].k;
    if np % cfg.PPC == 0 && s.cnum[d] != 0 then
      s.(pc := s.pc[t := Extended(np, k + 1)], last := s.last[d := k + 1],
        blocks := s.blocks[d := s.blocks[d][..k + 1] + [seq(cfg.PPC, _ => Hole)]])
    else
      s.(pc := s.pc[t := Extended(np, k)])
  }

  /** ++cnumPars[index] */
  ghost function Count(cfg: Config, s: State, t: nat): State
    requires ConfigOk(cfg) && Shape(cfg, s) && t < cfg.threads && s.pc[t].Extended? && Dest(cfg, s, t) < NumCells(cfg.g) && s.todo[t] != []
  {
    var d, p := Dest(cfg, s, t), s.todo[t][0];
    s.(pc := s.pc[t := Counted(p, d, s.pc[t].np, s.pc[t].k)], todo := s.todo[t := s.todo[t][1..]],
      cnum := s.cnum[d := s.cnum[d] + 1], log := s.log[d := s.log[d] + [p]])
  }

  /** if(border[index]) pthread_mutex_unlock */
  ghost function Leave(cfg: Config, s: State, t: nat): State
    requires ConfigOk(cfg) && Shape(cfg, s) && t < cfg.threads && s.pc[t].Counted? && Dest(cfg, s, t) < NumCells(cfg.g)
  {
    var pc := s.pc[t];
    s.(pc := s.pc[t := Left(pc.p, pc.d, pc.np, pc.k)], lock := if cfg.border[pc.d] then s.lock[pc.d := NULL] else s.lock)
  }

  /** cell->p[np % PARTICLES_PER_CELL] = ..., outside the mutex. */
  ghost function Write(cfg: Config, s: State, t: nat): State
    requires ConfigOk(cfg) && Shape(cfg, s) && t < cfg.threads && s.pc[t].Left? && s.pc[t].d < NumCells(cfg.g)
    requires s.pc[t].k < |s.blocks[s.pc[t].d]| && |s.blocks[s.pc[t].d][s.pc[t].k]| == cfg.PPC
  {
    var pc := s.pc[t];
    var chain := s.blocks[pc.d];
    s.(pc := s.pc[t := Ready], blocks := s.blocks[pc.d := chain[pc.k := chain[pc.k][pc.np % cfg.PPC := Full(pc.p)]]])
  }

  /** Mutual exclusion, also for the cells that nobody locks. */
  lemma Exclusive(cfg: Config, s: State, t: nat, u: nat)
    requires ConfigOk(cfg) && Shape(cfg, s) && t < cfg.threads && u < cfg.threads && ThreadOk(cfg, s, t) && ThreadOk(cfg, s, u)
    requires InSection(s.pc[t]) && InSection(s.pc[u]) && Dest(cfg, s, t) == Dest(cfg, s, u)
    ensures t == u
  {
  }

  /** Nothing that thread u relies on has changed. */
  ghost predicate Undisturbed(cfg: Config, s: State, s': State, u: nat)
    requires ConfigOk(cfg) && Shape(cfg, s) && Shape(cfg, s') && u < cfg.threads
  {
    && s'.pc[u] == s.pc[u] && s'.todo[u] == s.todo[u]
    && forall d :: 0 <= d < NumCells(cfg.g) && d == Dest(cfg, s, u) ==>
         && (s.lock[d] == u ==> s'.lock[d] == u)
         && (InSection(s.pc[u]) ==> s'.cnum[d] == s.cnum[d] && s'.last[d] == s.last[d] && |s'.blocks[d]| == |s.blocks[d]|)
         && s.cnum[d] <= s'.cnum[d] && s.log[d] <= s'.log[d] && |s.blocks[d]| <= |s'.blocks[d]|
  }

  lemma ThreadFrame(cfg: Config, s: State, s': State, u: nat)
    requires ConfigOk(cfg) && Shape(cfg, s) && Shape(cfg, s') && u < cfg.threads && ThreadOk(cfg, s, u) && Undisturbed(cfg, s, s', u)
    ensures ThreadOk(cfg, s', u)
  {
    hide GeometryOk, NumCells, CellOf, Blocks;
    assert Dest(cfg, s', u) == Dest(cfg, s, u);
  }

  lemma SameToCome(cfg: Config, s: State, s': State, all: seq<Particle>)
    requires ConfigOk(cfg) && Shape(cfg, s) && Shape(cfg, s') && Conserved(cfg, s, all) && s'.todo == s.todo && s'.log == s.log
    ensures Conserved(cfg, s', all)
  {
    forall x ensures multiset(s'.log[CellOf(cfg.g, x)])[x] + Sum(ToCome(s', x)) == multiset(all)[x] {
      assert ToCome(s', x) == ToCome(s, x);
    }
  }

  lemma EnterKeeps(cfg: Config, s: State, t: nat, all: seq<Particle>)
    requires Inv(cfg, s, all) && Enabled(cfg, s, t) && s.pc[t].Ready?
    ensures Inv(cfg, Enter(cfg, s, t), all)
  {
    hide GeometryOk, NumCells, CellOf, Blocks;
    var s', d := Enter(cfg, s, t), CellOf(cfg.g, s.todo[t][0]);
    assert ThreadOk(cfg, s, t);
    assert Dest(cfg, s', t) == d;
    forall u | 0 <= u < cfg.threads ensures ThreadOk(cfg, s', u) {
      if u != t { assert ThreadOk(cfg, s, u); ThreadFrame(cfg, s, s', u); }
    }
    QuietStep(cfg, s, s', t, all);
    forall c | 0 <= c < NumCells(cfg.g) ensures LockOk(cfg, s', c) { assert LockOk(cfg, s, c); }
  }

  /** The chains do not change, and t does not reserve anything. */
  lemma QuietStep(cfg: Config, s: State, s': State, t: nat, all: seq<Particle>)
    requires Inv(cfg, s, all) && Shape(cfg, s') && t < cfg.threads && s'.todo == s.todo && s'.cnum == s.cnum && s'.last == s.last
    requires s'.blocks == s.blocks && s'.log == s.log && (forall u :: 0 <= u < cfg.threads && u != t ==> s'.pc[u] == s.pc[u])
    requires forall d, np :: Writing(s'.pc[t], d, np) <==> Writing(s.pc[t], d, np)
    requires !s.pc[t].Extended?
    ensures Conserved(cfg, s', all) && Disjoint(cfg, s')
    ensures forall d :: 0 <= d < NumCells(cfg.g) ==> CellChainOk(cfg, s', d) && SlotsOk(cfg, s', d)
  {
    hide GeometryOk, NumCells, CellOf, Blocks;
    SameToCome(cfg, s, s', all);
    forall u, d, np | 0 <= u < cfg.threads ensures Writing(s'.pc[u], d, np) <==> Writing(s.pc[u], d, np) {}
    forall d | 0 <= d < NumCells(cfg.g) ensures CellChainOk(cfg, s', d) && SlotsOk(cfg, s', d) {
      assert CellChainOk(cfg, s, d) && SlotsOk(cfg, s, d);
      SlotsFrame(cfg, s, s', d);
      ChainFrame(cfg, s, s', d, t);
    }
  }

  lemma ChainFrame(cfg: Config, s: State, s': State, d: nat, t: nat)
    requires ConfigOk(cfg) && Shape(cfg, s) && Shape(cfg, s') && d < NumCells(cfg.g) && CellChainOk(cfg, s, d) && t < cfg.threads
    requires s'.blocks[d] == s.blocks[d] && s'.log[d] == s.log[d] && s'.cnum[d] == s.cnum[d] && s'.last[d] == s.last[d]
    requires forall u :: 0 <= u < cfg.threads && u != t ==> s'.pc[u] == s.pc[u] && s'.todo[u] == s.todo[u]
    requires !Extending(cfg, s, d, t)
    ensures CellChainOk(cfg, s', d)
  {
    hide GeometryOk, NumCells, CellOf, Blocks;
    if u :| 0 <= u < cfg.threads && Extending(cfg, s, d, u) { assert Extending(cfg, s', d, u); }
  }

  lemma SlotsFrame(cfg: Config, s: State, s': State, d: nat)
    requires ConfigOk(cfg) && Shape(cfg, s) && Shape(cfg, s') && d < NumCells(cfg.g) && SlotsOk(cfg, s, d)
    requires s'.log[d] == s.log[d]
    requires forall np: nat, v: Slot :: np < |s.log[d]| && SlotIs(cfg, s, d, np, v) ==> SlotIs(cfg, s', d, np, v)
    requires forall np: nat :: Pending(cfg, s, d, np) ==> Pending(cfg, s', d, np) || (np < |s.log[d]| && SlotIs(cfg, s', d, np, Full(s.log[d][np])))
    ensures SlotsOk(cfg, s', d)
  {
    hide GeometryOk, NumCells, SlotIs, Pending;
  }

  lemma FetchKeeps(cfg: Config, s: State, t: nat, all: seq<Particle>)
    requires Inv(cfg, s, all) && t < cfg.threads && s.pc[t].Entered?
    ensures Dest(cfg, s, t) < NumCells(cfg.g) && Inv(cfg, Fetch(cfg, s, t), all)
  {
    hide GeometryOk, NumCells, CellOf, Blocks;
    assert ThreadOk(cfg, s, t);
    var s', d := Fetch(cfg, s, t), Dest(cfg, s, t);
    assert Dest(cfg, s', t) == d;
    assert CellChainOk(cfg, s, d);
    if u :| 0 <= u < cfg.threads && Extending(cfg, s, d, u) {
      assert ThreadOk(cfg, s, u);
      Exclusive(cfg, s, t, u);
    }
    forall u | 0 <= u < cfg.threads ensures ThreadOk(cfg, s', u) {
      if u != t { assert ThreadOk(cfg, s, u); ThreadFrame(cfg, s, s', u); }
    }
    QuietStep(cfg, s, s', t, all);
    forall c | 0 <= c < NumCells(cfg.g) ensures LockOk(cfg, s', c) { assert LockOk(cfg, s, c); }
  }

  lemma LeaveKeeps(cfg: Config, s: State, t: nat, all: seq<Particle>)
    requires Inv(cfg, s, all) && t < cfg.threads && s.pc[t].Counted?
    ensures Dest(cfg, s, t) < NumCells(cfg.g) && Inv(cfg, Leave(cfg, s, t), all)
  {
    hide GeometryOk, NumCells, CellOf, Blocks;
    assert ThreadOk(cfg, s, t);
    var s', d := Leave(cfg, s, t), Dest(cfg, s, t);
    assert Dest(cfg, s', t) == d;
    forall u | 0 <= u < cfg.threads ensures ThreadOk(cfg, s', u) {
      if u != t { assert ThreadOk(cfg, s, u); ThreadFrame(cfg, s, s', u); }
    }
    QuietStep(cfg, s, s', t, all);
    forall c | 0 <= c < NumCells(cfg.g) ensures LockOk(cfg, s', c) { assert LockOk(cfg, s, c); }
  }

  /** The other threads and the mutexes, when t goes on within, or outside, its section. */
  lemma OthersKeep(cfg: Config, s: State, s': State, t: nat, all: seq<Particle>)
    requires Inv(cfg, s, all) && Shape(cfg, s') && t < cfg.threads && s'.lock == s.lock && ThreadOk(cfg, s', t)
    requires forall u :: 0 <= u < cfg.threads && u != t ==> Undisturbed(cfg, s, s', u)
    requires InSection(s'.pc[t]) == InSection(s.pc[t]) && (InSection(s.pc[t]) ==> Dest(cfg, s', t) == Dest(cfg, s, t))
    ensures forall u :: 0 <= u < cfg.threads ==> ThreadOk(cfg, s', u)
    ensures forall c :: 0 <= c < NumCells(cfg.g) ==> LockOk(cfg, s', c)
  {
    hide GeometryOk, NumCells, CellOf, Blocks, ThreadOk;
    forall u | 0 <= u < cfg.threads ensures ThreadOk(cfg, s', u) {
      if u != t { assert ThreadOk(cfg, s, u); ThreadFrame(cfg, s, s', u); }
    }
    forall c | 0 <= c < NumCells(cfg.g) ensures LockOk(cfg, s', c) {
      assert LockOk(cfg, s, c);
      var u := s.lock[c];
      if u != NULL && u != t { assert Undisturbed(cfg, s, s', u) && Dest(cfg, s', u) == Dest(cfg, s, u); }
    }
  }

  lemma ExtendThreads(cfg: Config, s: State, t: nat, all: seq<Particle>)
    requires Inv(cfg, s, all) && t < cfg.threads && s.pc[t].Fetched? && InBounds(cfg, s, t)
    ensures ThreadOk(cfg, Extend(cfg, s, t), t)
    ensures forall u :: 0 <= u < cfg.threads && u != t ==> Undisturbed(cfg, s, Extend(cfg, s, t), u)
  {
    hide GeometryOk, NumCells, CellOf, Blocks, SlotsOk, LockOk, Disjoint, Conserved;
    assert ThreadOk(cfg, s, t);
    var s', d, np := Extend(cfg, s, t), Dest(cfg, s, t), s.pc[t].np;
    assert Dest(cfg, s', t) == d;
    assert CellChainOk(cfg, s, d);
    BlocksStep(np, cfg.PPC);
    forall u | 0 <= u < cfg.threads && u != t ensures Undisturbed(cfg, s, s', u) {
      assert ThreadOk(cfg, s, u);
      if InSection(s.pc[u]) && Dest(cfg, s, u) == d { Exclusive(cfg, s, t, u); }
    }
  }

  lemma ExtendCell(cfg: Config, s: State, t: nat, c: nat)
    requires ConfigOk(cfg) && Shape(cfg, s) && t < cfg.threads && s.pc[t].Fetched? && InBounds(cfg, s, t) && ThreadOk(cfg, s, t)
    requires c < NumCells(cfg.g) && CellChainOk(cfg, s, c) && SlotsOk(cfg, s, c)
    ensures CellChainOk(cfg, Extend(cfg, s, t), c) && SlotsOk(cfg, Extend(cfg, s, t), c)
  {
    hide GeometryOk, NumCells, CellOf, Blocks;
    var s', d := Extend(cfg, s, t), Dest(cfg, s, t);
    assert Dest(cfg, s', t) == d;
    forall m: nat | Pending(cfg, s, c, m) ensures Pending(cfg, s', c, m) {
      var u :| 0 <= u < cfg.threads && Writing(s.pc[u], c, m);
      assert Writing(s'.pc[u], c, m);
    }
    SlotsFrame(cfg, s, s', c);
    if c == d { assert Extending(cfg, s', d, t); } else { ChainFrame(cfg, s, s', c, t); }
  }

  lemma ExtendKeeps(cfg: Config, s: State, t: nat, all: seq<Particle>)
    requires Inv(cfg, s, all) && t < cfg.threads && s.pc[t].Fetched?
    ensures InBounds(cfg, s, t) && Inv(cfg, Extend(cfg, s, t), all)
  {
    InvInBounds(cfg, s, t, all);
    hide GeometryOk, NumCells, CellOf, Blocks, CellChainOk, SlotsOk, ThreadOk;
    var s' := Extend(cfg, s, t);
    ExtendThreads(cfg, s, t, all);
    OthersKeep(cfg, s, s', t, all);
    SameToCome(cfg, s, s', all);
    forall u, c, m | 0 <= u < cfg.threads ensures Writing(s'.pc[u], c, m) <==> Writing(s.pc[u], c, m) {}
    forall c | 0 <= c < NumCells(cfg.g) ensures CellChainOk(cfg, s', c) && SlotsOk(cfg, s', c) { ExtendCell(cfg, s, t, c); }
  }

  lemma CountThreads(cfg: Config, s: State, t: nat, all: seq<Particle>)
    requires Inv(cfg, s, all) && t < cfg.threads && s.pc[t].Extended? && InBounds(cfg, s, t)
    ensures ThreadOk(cfg, Count(cfg, s, t), t)
    ensures forall u :: 0 <= u < cfg.threads && u != t ==> Undisturbed(cfg, s, Count(cfg, s, t), u)
  {
    hide GeometryOk, NumCells, CellOf, Blocks, SlotsOk, LockOk, Disjoint, Conserved;
    assert ThreadOk(cfg, s, t);
    var s', d := Count(cfg, s, t), Dest(cfg, s, t);
    assert Dest(cfg, s', t) == d;
    assert CellChainOk(cfg, s, d);
    forall u | 0 <= u < cfg.threads && u != t ensures Undisturbed(cfg, s, s', u) {
      assert ThreadOk(cfg, s, u);
      if InSection(s.pc[u]) && Dest(cfg, s, u) == d { Exclusive(cfg, s, t, u); }
    }
  }

  lemma CountCell(cfg: Config, s: State, t: nat, c: nat)
    requires ConfigOk(cfg) && Shape(cfg, s) && t < cfg.threads && s.pc[t].Extended? && InBounds(cfg, s, t) && ThreadOk(cfg, s, t)
    requires c < NumCells(cfg.g) && CellChainOk(cfg, s, c) && SlotsOk(cfg, s, c)
    ensures CellChainOk(cfg, Count(cfg, s, t), c) && SlotsOk(cfg, Count(cfg, s, t), c)
  {
    hide GeometryOk, NumCells, CellOf, Blocks;
    var s', d, np := Count(cfg, s, t), Dest(cfg, s, t), s.pc[t].np;
    BlocksStep(np, cfg.PPC);
    forall m: nat | Pending(cfg, s, c, m) ensures Pending(cfg, s', c, m) {
      var u :| 0 <= u < cfg.threads && Writing(s.pc[u], c, m);
      assert Writing(s'.pc[u], c, m);
    }
    if c == d {
      assert Writing(s'.pc[t], d, np);
      assert forall m: nat, v: Slot :: SlotIs(cfg, s, d, m, v) ==> SlotIs(cfg, s', d, m, v);
    } else {
      SlotsFrame(cfg, s, s', c);
      ChainFrame(cfg, s, s', c, t);
    }
  }

  lemma CountKeeps(cfg: Config, s: State, t: nat, all: seq<Particle>)
    requires Inv(cfg, s, all) && t < cfg.threads && s.pc[t].Extended?
    ensures InBounds(cfg, s, t) && Inv(cfg, Count(cfg, s, t), all)
  {
    InvInBounds(cfg, s, t, all);
    hide GeometryOk, NumCells, CellOf, Blocks, CellChainOk, SlotsOk, Conserved;
    var s' := Count(cfg, s, t);
    CountThreads(cfg, s, t, all);
    OthersKeep(cfg, s, s', t, all);
    CountConserves(cfg, s, t, all);
    CountDisjoint(cfg, s, t);
    forall c | 0 <= c < NumCells(cfg.g) ensures CellChainOk(cfg, s', c) && SlotsOk(cfg, s', c) { CountCell(cfg, s, t, c); }
  }

  /** The slot that t gets is new. */
  lemma CountDisjoint(cfg: Config, s: State, t: nat)
    requires ConfigOk(cfg) && Shape(cfg, s) && t < cfg.threads && s.pc[t].Extended? && InBounds(cfg, s, t)
    requires (forall u :: 0 <= u < cfg.threads ==> ThreadOk(cfg, s, u)) && Disjoint(cfg, s)
    ensures Disjoint(cfg, Count(cfg, s, t))
  {
    hide GeometryOk, NumCells, CellOf, Blocks;
    var s', d, np := Count(cfg, s, t), Dest(cfg, s, t), s.pc[t].np;
    assert ThreadOk(cfg, s, t);
    forall u, c, m | 0 <= u < cfg.threads && u != t && Writing(s'.pc[u], c, m) ensures Writing(s.pc[u], c, m) && (c != d || m < np) {
      assert ThreadOk(cfg, s, u);
    }
  }

  lemma CountConserves(cfg: Config, s: State, t: nat, all: seq<Particle>)
    requires ConfigOk(cfg) && Shape(cfg, s) && t < cfg.threads && s.pc[t].Extended? && Dest(cfg, s, t) < NumCells(cfg.g) && s.todo[t] != []
    requires Conserved(cfg, s, all)
    ensures Conserved(cfg, Count(cfg, s, t), all)
  {
    var s', p := Count(cfg, s, t), s.todo[t][0];
    hide CellOf, NumCells, GeometryOk, ToCome, Sum;
    forall x ensures multiset(s'.log[CellOf(cfg.g, x)])[x] + Sum(ToCome(s', x)) == multiset(all)[x] {
      OneLess(s, s', t, x);
    }
  }

  lemma OneLess(s: State, s': State, t: nat, x: Particle)
    requires t < |s.todo| && s.todo[t] != [] && s'.todo == s.todo[t := s.todo[t][1..]]
    ensures Sum(ToCome(s', x)) == Sum(ToCome(s, x)) - if x == s.todo[t][0] then 1 else 0
  {
    assert s.todo[t] == [s.todo[t][0]] + s.todo[t][1..];
    var a, b := ToCome(s, x), ToCome(s', x);
    assert b == a[t := a[t] - if x == s.todo[t][0] then 1 else 0];
    SumUpdate(a, t, b[t]);
  }

  lemma WriteKeeps(cfg: Config, s: State, t: nat, all: seq<Particle>)
    requires Inv(cfg, s, all) && t < cfg.threads && s.pc[t].Left?
    ensures InBounds(cfg, s, t) && Inv(cfg, Write(cfg, s, t), all)
  {
    InvInBounds(cfg, s, t, all);
    assert ThreadOk(cfg, s, t);
    hide GeometryOk, NumCells, CellOf, Blocks, CellChainOk, SlotsOk, Reserved;
    var s' := Write(cfg, s, t);
    OthersKeep(cfg, s, s', t, all);
    SameToCome(cfg, s, s', all);
    forall u, c, m | 0 <= u < cfg.threads && Writing(s'.pc[u], c, m) ensures Writing(s.pc[u], c, m) {}
    forall c | 0 <= c < NumCells(cfg.g) ensures CellChainOk(cfg, s', c) && SlotsOk(cfg, s', c) {
      WriteSlots(cfg, s, t, c);
      WriteChain(cfg, s, t, c);
    }
  }

  lemma WriteChain(cfg: Config, s: State, t: nat, c: nat)
    requires ConfigOk(cfg) && Shape(cfg, s) && t < cfg.threads && s.pc[t].Left? && s.pc[t].d < NumCells(cfg.g) && InBounds(cfg, s, t)
    requires c < NumCells(cfg.g) && CellChainOk(cfg, s, c)
    ensures CellChainOk(cfg, Write(cfg, s, t), c)
  {
    hide GeometryOk, NumCells, CellOf, Blocks;
    var s' := Write(cfg, s, t);
    if u :| 0 <= u < cfg.threads && Extending(cfg, s, c, u) { assert Extending(cfg, s', c, u); }
  }

  /** Writing a slot leaves the other slots alone. */
  lemma WriteSlots(cfg: Config, s: State, t: nat, c: nat)
    requires ConfigOk(cfg) && Shape(cfg, s) && t < cfg.threads && s.pc[t].Left? && s.pc[t].d < NumCells(cfg.g) && InBounds(cfg, s, t)
    requires ThreadOk(cfg, s, t) && c < NumCells(cfg.g) && SlotsOk(cfg, s, c)
    ensures SlotsOk(cfg, Write(cfg, s, t), c)
  {
    hide GeometryOk, NumCells, CellOf, Blocks;
    var s', d, np := Write(cfg, s, t), s.pc[t].d, s.pc[t].np;
    forall m: nat | m < |s.log[c]| ensures SlotIs(cfg, s', c, m, Full(s.log[c][m])) || Pending(cfg, s', c, m) {
      if c == d && m == np {
        assert SlotIs(cfg, s', d, np, Full(s.log[d][np]));
      } else if SlotIs(cfg, s, c, m, Full(s.log[c][m])) {
        OtherSlot(cfg, s, t, c, m, Full(s.log[c][m]));
      } else {
        assert Pending(cfg, s, c, m);
        var u :| 0 <= u < cfg.threads && Writing(s.pc[u], c, m);
        assert Writing(s'.pc[u], c, m);
      }
    }
  }

  lemma OtherSlot(cfg: Config, s: State, t: nat, c: nat, m: nat, v: Slot)
    requires ConfigOk(cfg) && Shape(cfg, s) && t < cfg.threads && s.pc[t].Left? && s.pc[t].d < NumCells(cfg.g) && InBounds(cfg, s, t)
    requires c < NumCells(cfg.g) && SlotIs(cfg, s, c, m, v) && (c != s.pc[t].d || m != s.pc[t].np) && s.pc[t].k == s.pc[t].np / cfg.PPC
    ensures SlotIs(cfg, Write(cfg, s, t), c, m, v)
  {
    hide GeometryOk, NumCells, CellOf, Blocks;
    if c == s.pc[t].d && m / cfg.PPC == s.pc[t].k { SameBlock(m, s.pc[t].np, cfg.PPC); }
  }
}
