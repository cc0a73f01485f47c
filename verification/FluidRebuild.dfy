/** RebuildGrid of the serial fluidanimate: every particle moves to the chain of the cell its position is in. */
module FluidRebuild {
  import opened Sums
  import opened Common
  import opened FluidBlocks

  datatype Geometry = Geometry(nx: nat, ny: nat, nz: nat, minX: real, minY: real, minZ: real, deltaX: real, deltaY: real, deltaZ: real)

  ghost predicate GeometryOk(g: Geometry)
  {
    g.nx > 0 && g.ny > 0 && g.nz > 0 && g.deltaX > 0.0 && g.deltaY > 0.0 && g.deltaZ > 0.0
  }

  /** The cast to int: towards zero. */
  function Trunc(r: real): int { if r >= 0.0 then r.Floor else -((-r).Floor) }

  /** Positions outside of the domain count as the cells at its edge. */
  function Clamp(i: int, n: nat): (r: nat)
    requires n > 0
    ensures r < n && (0 <= i < n ==> r == i)
  {
    if i < 0 then 0 else if i >= n then n - 1 else i
  }

  function Index(g: Geometry, ci: nat, cj: nat, ck: nat): nat { (ck * g.ny + cj) * g.nx + ci }

  function NumCells(g: Geometry): nat { g.nz * g.ny * g.nx }

  lemma RowBound(a: nat, m: nat, b: nat, n: nat)
    requires a < m && b < n
    ensures a * n + b < m * n
  {
    assert m * n == a * n + (m - a) * n;
    assert (m - a) * n == n + (m - a - 1) * n;
  }

  lemma IndexInRange(g: Geometry, ci: nat, cj: nat, ck: nat)
    requires ci < g.nx && cj < g.ny && ck < g.nz
    ensures Index(g, ci, cj, ck) < NumCells(g)
  {
    RowBound(ck, g.nz, cj, g.ny);
    RowBound(ck * g.ny + cj, g.nz * g.ny, ci, g.nx);
  }

  /** The cell a particle belongs to. */
  function CellOf(g: Geometry, p: Particle): (c: nat)
    requires GeometryOk(g)
    ensures c < NumCells(g)
  {
    var ci := Clamp(Trunc((p.x - g.minX) / g.deltaX), g.nx);
    var cj := Clamp(Trunc((p.y - g.minY) / g.deltaY), g.ny);
    var ck := Clamp(Trunc((p.z - g.minZ) / g.deltaZ), g.nz);
    IndexInRange(g, ci, cj, ck);
    Index(g, ci, cj, ck)
  }

  /** Slab i of an axis is the one that x lies in; in front of the first one it is the first, behind the last one the last. */
  ghost predicate InSlab(x: real, min: real, delta: real, n: nat, i: nat)
  {
    && i < n
    && (x < min ==> i == 0)
    && (x >= min + n as real * delta ==> i == n - 1)
    && (min <= x < min + n as real * delta ==> min + i as real * delta <= x < min + (i + 1) as real * delta)
  }

  /** Cell c is the box of three slabs that p lies in; the cells are numbered along x, then y, then z. */
  ghost predicate LiesIn(g: Geometry, p: Particle, c: nat)
  {
    exists ci: nat, cj: nat, ck: nat ::
      && InSlab(p.x, g.minX, g.deltaX, g.nx, ci) && InSlab(p.y, g.minY, g.deltaY, g.ny, cj) && InSlab(p.z, g.minZ, g.deltaZ, g.nz, ck)
      && c == (ck * g.ny + cj) * g.nx + ci
  }

  lemma SlabOf(x: real, min: real, delta: real, n: nat)
    requires delta > 0.0 && n > 0
    ensures InSlab(x, min, delta, n, Clamp(Trunc((x - min) / delta), n))
  {
    var q := (x - min) / delta;
    assert q * delta == x - min;
    var i := Clamp(Trunc(q), n);
    if q < 0.0 {
      ScaledBelow(q, 0.0, delta);
      Scaled(0.0, n as real, delta);
    } else if q >= n as real {
      Scaled(n as real, q, delta);
      assert Trunc(q) >= n;
    } else {
      assert i == q.Floor;
      SlabInside(x, min, delta, n, i, q);
    }
  }

  lemma SlabInside(x: real, min: real, delta: real, n: nat, i: nat, q: real)
    requires delta > 0.0 && i < n && q * delta == x - min && i as real <= q < (i + 1) as real
    ensures InSlab(x, min, delta, n, i)
  {
    var a, b, c := i as real * delta, (i + 1) as real * delta, n as real * delta;
    assert a <= q * delta by { Scaled(i as real, q, delta); }
    assert q * delta < b by { ScaledBelow(q, (i + 1) as real, delta); }
    assert b <= c by { Scaled((i + 1) as real, n as real, delta); }
    assert 0.0 <= a by { Scaled(0.0, i as real, delta); }
  }

  lemma Scaled(a: real, b: real, delta: real)
    requires a <= b && delta > 0.0
    ensures a * delta <= b * delta
  {
  }

  lemma ScaledBelow(a: real, b: real, delta: real)
    requires a < b && delta > 0.0
    ensures a * delta < b * delta
  {
  }

  lemma OneSlab(x: real, min: real, delta: real, n: nat, i: nat, j: nat)
    requires delta > 0.0 && InSlab(x, min, delta, n, i) && InSlab(x, min, delta, n, j)
    ensures i == j
  {
    if min <= x < min + n as real * delta {
      SlabOrder(x - min, delta, i, j);
      SlabOrder(x - min, delta, j, i);
    }
  }

  lemma SlabOrder(y: real, delta: real, i: nat, j: nat)
    requires delta > 0.0 && i as real * delta <= y && y < (j + 1) as real * delta
    ensures i <= j
  {
    if i > j { Scaled((j + 1) as real, i as real, delta); }
  }

  /** The cell a particle belongs to is the one it lies in, and no other. */
  lemma CellIsWhereItLies(g: Geometry, p: Particle, c: nat)
    requires GeometryOk(g)
    ensures LiesIn(g, p, c) <==> c == CellOf(g, p)
  {
    hide InSlab, Clamp, Trunc;
    SlabOf(p.x, g.minX, g.deltaX, g.nx);
    SlabOf(p.y, g.minY, g.deltaY, g.ny);
    SlabOf(p.z, g.minZ, g.deltaZ, g.nz);
    if LiesIn(g, p, c) {
      var ci: nat, cj: nat, ck: nat :|
        && InSlab(p.x, g.minX, g.deltaX, g.nx, ci) && InSlab(p.y, g.minY, g.deltaY, g.ny, cj) && InSlab(p.z, g.minZ, g.deltaZ, g.nz, ck)
        && c == (ck * g.ny + cj) * g.nx + ci;
      OneSlab(p.x, g.minX, g.deltaX, g.nx, ci, Clamp(Trunc((p.x - g.minX) / g.deltaX), g.nx));
      OneSlab(p.y, g.minY, g.deltaY, g.ny, cj, Clamp(Trunc((p.y - g.minY) / g.deltaY), g.ny));
      OneSlab(p.z, g.minZ, g.deltaZ, g.nz, ck, Clamp(Trunc((p.z - g.minZ) / g.deltaZ), g.nz));
    }
  }

  /** The particles of `all` that belong to cell c, in order. */
  function InCell(g: Geometry, all: seq<Particle>, c: nat): seq<Particle>
    requires GeometryOk(g)
  {
    if all == [] then []
    else
      var n := |all| - 1;
      InCell(g, all[..n], c) + if CellOf(g, all[n]) == c then [all[n]] else []
  }

  lemma InCellAppend(g: Geometry, all: seq<Particle>, p: Particle, c: nat)
    requires GeometryOk(g)
    ensures InCell(g, all + [p], c) == InCell(g, all, c) + if CellOf(g, p) == c then [p] else []
  {
    assert (all + [p])[..|all|] == all;
  }

  /** Every particle of a cell belongs to it. */
  lemma {:induction false} InCellBelongs(g: Geometry, all: seq<Particle>, c: nat, p: Particle)
    requires GeometryOk(g) && p in InCell(g, all, c)
    ensures CellOf(g, p) == c && p in all && LiesIn(g, p, c)
  {
    CellIsWhereItLies(g, p, c);
    hide CellOf, LiesIn;
    var n := |all| - 1;
    if p in InCell(g, all[..n], c) { InCellBelongs(g, all[..n], c, p); }
  }

  /** How often p is in each of the cells. */
  ghost function PerCell(g: Geometry, all: seq<Particle>, p: Particle): seq<int>
    requires GeometryOk(g)
  {
    seq(NumCells(g), c requires 0 <= c < NumCells(g) => multiset(InCell(g, all, c))[p])
  }

  /** Nothing is lost and nothing doubled: over all cells a particle occurs as often as among the old cells. */
  lemma {:induction false} Conservation(g: Geometry, all: seq<Particle>, p: Particle)
    requires GeometryOk(g)
    ensures Sum(PerCell(g, all, p)) == multiset(all)[p]
  {
    hide CellOf, NumCells;
    if all == [] {
      SumZero(PerCell(g, all, p));
    } else {
      var n := |all| - 1;
      Conservation(g, all[..n], p);
      assert all == all[..n] + [all[n]];
      OneMore(g, all[..n], all[n], p);
    }
  }

  lemma OneMore(g: Geometry, all: seq<Particle>, q: Particle, p: Particle)
    requires GeometryOk(g)
    ensures Sum(PerCell(g, all + [q], p)) == Sum(PerCell(g, all, p)) + if p == q then 1 else 0
  {
    hide CellOf, NumCells, InCell;
    var k, s, s' := CellOf(g, q), PerCell(g, all, p), PerCell(g, all + [q], p);
    forall c | 0 <= c < |s| ensures s'[c] == s[c] + if c == k && p == q then 1 else 0 { InCellAppend(g, all, q, c); }
    assert s' == s[k := s[k] + if p == q then 1 else 0];
    SumUpdate(s, k, s[k] + if p == q then 1 else 0);
  }

  /** All destination cells. */
  ghost predicate Dests(mem: seq<Block>, owner: seq<Owner>, cells: seq<nat>, ids: seq<seq<nat>>, last: seq<nat>, cnt: seq<nat>,
                        ps: seq<seq<Particle>>, n: nat, PPC: nat)
    requires PPC > 0
  {
    && |cells| == |ids| == |last| == |cnt| == |ps| == n && |mem| == |owner|
    && (forall c :: 0 <= c < n ==> CellOk(mem, owner, cells[c], ids[c], last[c], ps[c], c, PPC))
    && (forall c :: 0 <= c < n ==> cnt[c] == |ps[c]|)
  }

  /** The source cells: those before i are used up but for their static blocks, i is used up to slot `from`, the others are whole. */
  ghost predicate Sources(mem: seq<Block>, owner: seq<Owner>, cells2: seq<nat>, ids2: seq<seq<nat>>, cnt2: seq<nat>,
                          src: seq<seq<Particle>>, i: nat, from: nat, n: nat, PPC: nat)
    requires PPC > 0
  {
    && |cells2| == |ids2| == |cnt2| == |src| == n && |mem| == |owner|
    && (forall c :: 0 <= c < n ==> cnt2[c] == |src[c]| && cells2[c] < |mem| && owner[cells2[c]] == Src(c, 0))
    && (forall c :: 0 <= c < i && c < n ==> ids2[c] == [cells2[c]])
    && (i < n ==> SourceOk(mem, owner, cells2[i], ids2[i], src[i], from, i, PPC))
    && (forall c :: i < c < n ==> SourceOk(mem, owner, cells2[c], ids2[c], src[c], 0, c, PPC))
    && (forall b :: 0 <= b < |owner| && owner[b].Src? && owner[b].c == i ==> owner[b].k == 0 || owner[b].k >= from / PPC)
  }

  /** Placing particles leaves the source blocks alone. */
  ghost predicate SameSources(mem: seq<Block>, owner: seq<Owner>, mem': seq<Block>, owner': seq<Owner>)
  {
    && |owner| == |mem| <= |mem'| == |owner'|
    && (forall b :: 0 <= b < |mem| && owner[b].Src? ==> mem'[b] == mem[b] && owner'[b] == owner[b])
    && (forall b :: 0 <= b < |owner'| && owner'[b].Src? ==> b < |owner| && owner[b].Src?)
  }

  lemma SourcesFrame(mem: seq<Block>, owner: seq<Owner>, mem': seq<Block>, owner': seq<Owner>, cells2: seq<nat>, ids2: seq<seq<nat>>,
                     cnt2: seq<nat>, src: seq<seq<Particle>>, i: nat, from: nat, n: nat, PPC: nat)
    requires PPC > 0 && Sources(mem, owner, cells2, ids2, cnt2, src, i, from, n, PPC) && SameSources(mem, owner, mem', owner')
    ensures Sources(mem', owner', cells2, ids2, cnt2, src, i, from, n, PPC)
  {
    hide SourceOk;
    if i < n { SourceFrame(mem, owner, mem', owner', cells2[i], ids2[i], src[i], from, from, i, PPC); }
    forall c | i < c < n ensures SourceOk(mem', owner', cells2[c], ids2[c], src[c], 0, c, PPC) {
      SourceFrame(mem, owner, mem', owner', cells2[c], ids2[c], src[c], 0, 0, c, PPC);
    }
  }

  /** A single block is an empty cell. */
  lemma OneBlock(mem: seq<Block>, owner: seq<Owner>, b: nat, c: nat, PPC: nat)
    requires PPC > 0 && b < |mem| == |owner| && owner[b] == Dst(c, 0) && mem[b].next == NULL
    ensures CellOk(mem, owner, b, [b], b, [], c, PPC)
  {
    assert Linked(mem, owner, [b], 0, Dst(c, 0));
  }

  class FluidGrid {
    const g: Geometry
    const PPC: nat
    ghost const n: nat
    var mem: seq<Block>
    var cells: seq<nat>
    var cells2: seq<nat>
    var cnumPars: seq<nat>
    var cnumPars2: seq<nat>
    var lastCells: seq<nat>
    var pool: seq<nat>
    ghost var ids: seq<seq<nat>>
    ghost var ids2: seq<seq<nat>>
    ghost var owner: seq<Owner>
    ghost var ps: seq<seq<Particle>>
    ghost var src: seq<seq<Particle>>

    /** Two sets of static blocks, all cells empty, an empty pool. */
    constructor (g: Geometry, PPC: nat)
      requires GeometryOk(g) && PPC > 0
      ensures Valid() && this.g == g && this.PPC == PPC && n == NumCells(g) && forall c :: 0 <= c < n ==> ps[c] == []
    {
      var n := NumCells(g);
      this.g, this.PPC, this.n := g, PPC, n;
      mem := seq(2 * n, _ => Block(seq(PPC, _ => Particle(0.0, 0.0, 0.0, 0)), NULL));
      owner := seq(2 * n, b requires 0 <= b < 2 * n => if b < n then Dst(b, 0) else Src(b - n, 0));
      cells, lastCells, ids := seq(n, c => c), seq(n, c => c), seq(n, c => [c]);
      cells2, ids2 := seq(n, c => n + c), seq(n, c => [n + c]);
      cnumPars, cnumPars2, pool := seq(n, _ => 0), seq(n, _ => 0), [];
      ps, src := seq(n, _ => []), seq(n, _ => []);
      new;
      hide CellOk;
      forall c | 0 <= c < n ensures CellOk(mem, owner, cells[c], ids[c], lastCells[c], ps[c], c, PPC) { OneBlock(mem, owner, c, c, PPC); }
    }

    /** The destination side and the pool; holds throughout. */
    ghost predicate Placed()
      reads this
    {
      && GeometryOk(g) && PPC > 0 && n == NumCells(g)
      && Dests(mem, owner, cells, ids, lastCells, cnumPars, ps, n, PPC)
      && PoolOk(mem, owner, pool, PPC) && NoLeak(owner, ids, ids2, pool)
    }

    /** cellpool_getcell: some free block, or a new one; its link is NULL. */
    method GetCell() returns (b: nat)
      requires PPC > 0 && PoolOk(mem, owner, pool, PPC)
      modifies this`mem, this`pool, this`owner
      ensures PoolOk(mem, owner, pool, PPC) && Got(old(mem), old(owner), old(pool), mem, owner, pool, b)
    {
      if |pool| > 0 {
        b := pool[|pool| - 1];
        pool := pool[..|pool| - 1];
      } else {
        b := |mem|;
        mem := mem + [Block(seq(PPC, _ => Particle(0.0, 0.0, 0.0, 0)), NULL)];
        owner := owner + [Free(0)];
      }
      mem := mem[b := mem[b].(next := NULL)];
    }

    /** The first half of moving a particle: make room in the destination cell. */
    method Reserve(index: nat)
      requires Placed() && index < n
      modifies this`mem, this`pool, this`owner, this`ids, this`lastCells, this`cnumPars
      ensures DestsOpen(mem, owner, cells, ids, lastCells, cnumPars, ps, n, PPC, index)
      ensures PoolOk(mem, owner, pool, PPC) && NoLeak(owner, ids, ids2, pool)
      ensures SameSources(old(mem), old(owner), mem, owner)
    {
      hide Dests, DestsOpen, NoLeak, PoolOk, SameSources, Got;
      ghost var mem0, owner0, pool0 := mem, owner, pool;
      DestSizes(mem, owner, cells, ids, lastCells, cnumPars, ps, n, PPC, index);
      var cell, np := lastCells[index], cnumPars[index];
      if np % PPC == 0 && cnumPars[index] != 0 {
        var b := GetCell();
        OpenNew(mem0, owner0, pool0, mem, owner, pool, b, cells, ids, ids2, lastCells, cnumPars, ps, n, PPC, index);
        mem := mem[cell := mem[cell].(next := b)];
        owner := owner[b := Dst(index, |ids[index]|)];
        ids := ids[index := ids[index] + [b]];
        lastCells := lastCells[index := b];
      } else {
        OpenOld(mem, owner, cells, ids, lastCells, cnumPars, ps, n, PPC, index);
      }
      cnumPars := cnumPars[index := cnumPars[index] + 1];
    }

    /** One particle: to the tail of its cell's chain. */
    method Place(p: Particle)
      requires Placed()
      modifies this`mem, this`pool, this`owner, this`ids, this`lastCells, this`cnumPars, this`ps
      ensures Placed() && |ps| == n == |old(ps)|
      ensures forall c :: 0 <= c < n ==> ps[c] == old(ps)[c] + if c == CellOf(g, p) then [p] else []
      ensures LiesIn(g, p, CellOf(g, p))
      ensures SameSources(old(mem), old(owner), mem, owner)
    {
      CellIsWhereItLies(g, p, CellOf(g, p));
      hide Dests, DestsOpen, NoLeak, PoolOk, SameSources, Got;
      var index := CellOf(g, p);
      ghost var mem0, owner0 := mem, owner;
      DestSizes(mem, owner, cells, ids, lastCells, cnumPars, ps, n, PPC, index);
      var np := cnumPars[index];
      Reserve(index);
      WriteOpen(mem0, owner0, mem, owner, pool, cells, ids, lastCells, cnumPars, ps, n, PPC, index, p);
      var cell := lastCells[index];
      mem := mem[cell := mem[cell].(items := mem[cell].items[np % PPC := p])];
      ps := ps[index := ps[index] + [p]];
      forall c | 0 <= c < n ensures ps[c] == old(ps)[c] + if c == CellOf(g, p) then [p] else [] {}
    }

    /** cellpool_returncell, for the block at place k of source chain i. */
    method ReturnCell(b: nat, ghost i: nat, ghost k: nat)
      requires PPC > 0 && PoolOk(mem, owner, pool, PPC) && NoLeak(owner, ids, ids2, pool) && b < |mem| && owner[b] == Src(i, k)
      modifies this`pool, this`owner
      ensures PoolOk(mem, owner, pool, PPC) && NoLeak(owner, ids, ids2, pool)
      ensures pool == old(pool) + [b] && owner == old(owner)[b := Free(|old(pool)|)]
    {
      owner := owner[b := Free(|pool|)];
      pool := pool + [b];
    }

    /** One round of the loop over source cells: its particles move, its extension blocks go back to the pool. */
    method MoveCell(i: nat, ghost done: seq<Particle>)
      requires Placed() && i < n && Sources(mem, owner, cells2, ids2, cnumPars2, src, i, 0, n, PPC)
      requires |ps| == n && forall c :: 0 <= c < n ==> ps[c] == InCell(g, done, c)
      modifies this`mem, this`pool, this`owner, this`ids, this`lastCells, this`cnumPars, this`ps, this`ids2
      ensures Placed() && Sources(mem, owner, cells2, ids2, cnumPars2, src, i + 1, 0, n, PPC)
      ensures |ps| == n && forall c :: 0 <= c < n ==> ps[c] == InCell(g, done + old(src)[i], c)
    {
      hide Dests, Sources, NoLeak, PoolOk, SameSources, InCell;
      SourceSizes(mem, owner, cells2, ids2, cnumPars2, src, i, n, PPC);
      var cell2: int := cells2[i];
      var np2, j := cnumPars2[i], 0;
      ghost var all := src[i];
      Quotient(0, PPC, 0, 0);
      assert done + all[..0] == done && |ps| == n;
      while j < np2
        invariant 0 <= j <= np2 == |all| && |ids2| == |cells2| == |src| == |ps| == n && |ids2[i]| == Blocks(|all|, PPC)
        invariant Placed() && Sources(mem, owner, cells2, ids2, cnumPars2, src, i, j, n, PPC)
        invariant j / PPC <= |ids2[i]| && cell2 == BlockHere(ids2[i], j / PPC)
        invariant forall c :: 0 <= c < n ==> ps[c] == InCell(g, done + all[..j], c)
        invariant ids2 == old(ids2)
      {
        SlotInRange(j, |all|, PPC);
        ghost var ps0 := ps;
        cell2 := MoveParticle(i, j, cell2);
        assert done + all[..j + 1] == done + all[..j] + [all[j]];
        forall c | 0 <= c < n ensures ps[c] == InCell(g, done + all[..j + 1], c) { InCellAppend(g, done + all[..j], all[j], c); }
        j := j + 1;
      }
      assert all[..j] == all;
      FinishCell(i, cell2);
    }

    /** One source particle; then on to the next source block, and the old one back to the pool unless it is static. */
    method MoveParticle(i: nat, j: nat, cell2: int) returns (next: int)
      requires Placed() && i < n && Sources(mem, owner, cells2, ids2, cnumPars2, src, i, j, n, PPC)
      requires |src| == |ids2| == n && j < |src[i]| && 0 <= cell2 == BlockHere(ids2[i], j / PPC)
      modifies this`mem, this`pool, this`owner, this`ids, this`lastCells, this`cnumPars, this`ps
      ensures Placed() && Sources(mem, owner, cells2, ids2, cnumPars2, src, i, j + 1, n, PPC) && |ps| == n == |old(ps)|
      ensures forall c :: 0 <= c < n ==> ps[c] == old(ps)[c] + if c == CellOf(g, src[i][j]) then [src[i][j]] else []
      ensures (j + 1) / PPC <= |ids2[i]| && next == BlockHere(ids2[i], (j + 1) / PPC)
    {
      hide Dests, Sources, NoLeak, PoolOk, SameSources;
      SourceHere(mem, owner, cells2, ids2, cnumPars2, src, i, j, n, PPC);
      ghost var mem0, owner0 := mem, owner;
      Place(mem[cell2].items[j % PPC]);
      SourcesFrame(mem0, owner0, mem, owner, cells2, ids2, cnumPars2, src, i, j, n, PPC);
      SourceHere(mem, owner, cells2, ids2, cnumPars2, src, i, j, n, PPC);
      NextSlot(j, PPC);
      next := cell2;
      if j % PPC == PPC - 1 {
        var temp: nat := cell2;
        next := mem[cell2].next;
        SourceLeft(mem, owner, pool, cells2, ids, ids2, cnumPars2, src, i, j, n, PPC);
        if temp != cells2[i] {
          ghost var owner1 := owner;
          DestsAfterReturn(mem, owner, cells, ids, lastCells, cnumPars, ps, n, PPC, temp, Free(|pool|));
          ReturnCell(temp, i, j / PPC);
        }
      } else {
        SourceStays(mem, owner, cells2, ids2, cnumPars2, src, i, j, n, PPC);
      }
    }

    /** The last block of a source chain goes back to the pool, unless it is the static one. */
    method FinishCell(i: nat, cell2: int)
      requires Placed() && i < n && |src| == |ids2| == |cells2| == n && |ids2[i]| >= 1
      requires Sources(mem, owner, cells2, ids2, cnumPars2, src, i, |src[i]|, n, PPC)
      requires cell2 == BlockHere(ids2[i], |src[i]| / PPC)
      modifies this`pool, this`owner, this`ids2
      ensures Placed() && Sources(mem, owner, cells2, ids2, cnumPars2, src, i + 1, 0, n, PPC)
    {
      hide Dests, Sources, NoLeak, PoolOk;
      SourceDone(mem, owner, pool, cells2, ids, ids2, cnumPars2, src, i, n, PPC);
      if cell2 != NULL && cell2 != cells2[i] {
        DestsAfterReturn(mem, owner, cells, ids, lastCells, cnumPars, ps, n, PPC, cell2, Free(|pool|));
        ReturnCell(cell2, i, |src[i]| / PPC);
      }
      NoLeakHead(owner, ids, ids2, pool, i, cells2[i]);
      ids2 := ids2[i := [cells2[i]]];
    }

    /** Between two frames: of the other set of cells only the static blocks are in use. */
    ghost predicate Valid()
      reads this
    {
      && Placed() && |cnumPars2| == |ps| == n && Heads(mem, owner, cells2, ids2, n)
    }

    /** Source and destination change places, and the destination cells become empty. */
    method SwapAndClear()
      requires Valid()
      modifies this
      ensures Placed() && Sources(mem, owner, cells2, ids2, cnumPars2, src, 0, 0, n, PPC)
      ensures src == old(ps) && |ps| == n && forall c :: 0 <= c < n ==> ps[c] == []
    {
      hide Dests, Sources, NoLeak, PoolOk, Cleared, Exchange;
      ghost var mem0, last0 := mem, lastCells;
      DestCount(mem, owner, cells, ids, lastCells, cnumPars, ps, n, PPC);
      cells, cells2 := cells2, cells;
      cnumPars, cnumPars2 := cnumPars2, cnumPars;
      cnumPars := seq(|cells|, _ => 0);
      ClearLinks();
      lastCells := cells;
      Exchanged(mem0, mem, owner, pool, cells2, cells, ids, ids2, last0, cnumPars2, ps, n, PPC);
      ids, ids2 := ids2, ids;
      owner := Exchange(owner);
      src := ps;
      ps := seq(n, _ => []);
    }

    /** `cells[i].next = NULL` for all cells */
    method ClearLinks()
      requires forall c :: 0 <= c < |cells| ==> cells[c] < |mem|
      modifies this`mem
      ensures Cleared(old(mem), mem, cells, |cells|)
    {
      var i := 0;
      while i < |cells|
        invariant 0 <= i <= |cells| && Cleared(old(mem), mem, cells, i)
      {
        mem := mem[cells[i] := mem[cells[i]].(next := NULL)];
        i := i + 1;
      }
    }

    /** RebuildGrid: afterwards every cell holds exactly the particles that belong to it, in the order of the old cells. */
    method RebuildGrid()
      requires Valid()
      modifies this
      ensures Valid() && |ps| == n == |old(ps)|
      ensures forall c :: 0 <= c < n ==> ps[c] == InCell(g, Flatten(old(ps)), c)
      ensures forall c, i :: 0 <= c < n && 0 <= i < |ps[c]| ==> LiesIn(g, ps[c][i], c)
    {
      hide LiesIn, Dests, Sources, NoLeak, PoolOk, InCell, Heads, GeometryOk, NumCells;
      SwapAndClear();
      ghost var all := src;
      var i := 0;
      assert |cells2| == n by { SourceCount(mem, owner, cells2, ids2, cnumPars2, src, 0, n, PPC); }
      NothingYet(g, n);
      assert Flatten(all[..0]) == [];
      while i < |cells2|
        invariant 0 <= i <= |cells2| == n == |all| && src == all && |ps| == n
        invariant Placed() && Sources(mem, owner, cells2, ids2, cnumPars2, src, i, 0, n, PPC)
        invariant forall c :: 0 <= c < n ==> ps[c] == InCell(g, Flatten(all[..i]), c)
      {
        assert all[..i + 1][..i] == all[..i] && Flatten(all[..i + 1]) == Flatten(all[..i]) + all[i];
        MoveCell(i, Flatten(all[..i]));
        i := i + 1;
        SourceCount(mem, owner, cells2, ids2, cnumPars2, src, i, n, PPC);
      }
      assert all[..i] == all;
      AllDone(mem, owner, cells2, ids2, cnumPars2, src, n, PPC);
      forall c, j | 0 <= c < n && 0 <= j < |ps[c]| ensures LiesIn(g, ps[c][j], c) { InCellBelongs(g, Flatten(all), c, ps[c][j]); }
    }
  }

  /** Block k of a chain, NULL behind its end. */
  function BlockHere(ids: seq<nat>, k: int): int { if 0 <= k < |ids| then ids[k] else NULL }

  /** Of source cell c the static block is there, and nothing else. */
  ghost predicate Heads(mem: seq<Block>, owner: seq<Owner>, cells2: seq<nat>, ids2: seq<seq<nat>>, n: nat)
  {
    && |cells2| == |ids2| == n && |mem| == |owner|
    && (forall c :: 0 <= c < n ==> cells2[c] < |mem| && owner[cells2[c]] == Src(c, 0) && ids2[c] == [cells2[c]])
  }

  /** Heads 0 .. i have lost their links, nothing else has changed. */
  ghost predicate Cleared(mem0: seq<Block>, mem: seq<Block>, heads: seq<nat>, i: nat)
  {
    && |mem| == |mem0| && i <= |heads|
    && (forall c :: 0 <= c < |heads| ==> heads[c] < |mem|)
    && (forall b :: 0 <= b < |mem| && b !in heads ==> mem[b] == mem0[b])
    && (forall b :: 0 <= b < |mem| ==> mem[b].items == mem0[b].items)
    && (forall c :: 0 <= c < i ==> mem[heads[c]].next == NULL)
  }

  /** Source and destination change places. */
  ghost function Exchange(owner: seq<Owner>): (r: seq<Owner>)
    ensures |r| == |owner|
    ensures forall b :: 0 <= b < |owner| ==> r[b] == match owner[b] { case Dst(c, k) => Src(c, k) case Src(c, k) => Dst(c, k) case Free(j) => Free(j) }
  {
    seq(|owner|, b requires 0 <= b < |owner| =>
      match owner[b] { case Dst(c, k) => Src(c, k) case Src(c, k) => Dst(c, k) case Free(j) => Free(j) })
  }

  lemma Exchanged(mem0: seq<Block>, mem: seq<Block>, owner: seq<Owner>, pool: seq<nat>, cells2: seq<nat>, cells: seq<nat>,
                  ids: seq<seq<nat>>, ids2: seq<seq<nat>>, last: seq<nat>, cnt: seq<nat>, ps: seq<seq<Particle>>, n: nat, PPC: nat)
    requires PPC > 0 && Dests(mem0, owner, cells2, ids, last, cnt, ps, n, PPC) && PoolOk(mem0, owner, pool, PPC)
    requires NoLeak(owner, ids, ids2, pool) && |cells| == n && Cleared(mem0, mem, cells, n)
    requires Heads(mem0, owner, cells, ids2, n)
    ensures Sources(mem, Exchange(owner), cells2, ids, cnt, ps, 0, 0, n, PPC)
    ensures Dests(mem, Exchange(owner), cells, ids2, cells, seq(n, _ => 0), seq(n, _ => []), n, PPC)
    ensures PoolOk(mem, Exchange(owner), pool, PPC) && NoLeak(Exchange(owner), ids2, ids, pool)
  {
    var owner' := Exchange(owner);
    Quotient(0, PPC, 0, 0);
    forall c | 0 <= c < n
      ensures SourceOk(mem, owner', cells2[c], ids[c], ps[c], 0, c, PPC) && cells2[c] < |owner'| && owner'[cells2[c]] == Src(c, 0)
    {
      BecomesSource(mem0, mem, owner, cells2, cells, ids, last, ps, c, PPC);
    }
    BecomeDests(mem0, mem, owner, cells, ids2, n, PPC);
    hide SourceOk, CellOk, Dests;
  }

  lemma BecomeDests(mem0: seq<Block>, mem: seq<Block>, owner: seq<Owner>, cells: seq<nat>, ids2: seq<seq<nat>>, n: nat, PPC: nat)
    requires PPC > 0 && |cells| == n && Cleared(mem0, mem, cells, n)
    requires Heads(mem0, owner, cells, ids2, n)
    ensures Dests(mem, Exchange(owner), cells, ids2, cells, seq(n, _ => 0), seq(n, _ => []), n, PPC)
  {
    forall c | 0 <= c < n ensures CellOk(mem, Exchange(owner), cells[c], ids2[c], cells[c], [], c, PPC) {
      assert Linked(mem, Exchange(owner), ids2[c], 0, Dst(c, 0));
    }
    hide CellOk;
  }

  lemma DestCount(mem: seq<Block>, owner: seq<Owner>, cells: seq<nat>, ids: seq<seq<nat>>, last: seq<nat>, cnt: seq<nat>,
                  ps: seq<seq<Particle>>, n: nat, PPC: nat)
    requires PPC > 0 && Dests(mem, owner, cells, ids, last, cnt, ps, n, PPC)
    ensures |cells| == |ids| == |last| == |cnt| == |ps| == n && |mem| == |owner|
  {
  }

  lemma BecomesSource(mem0: seq<Block>, mem: seq<Block>, owner: seq<Owner>, cells2: seq<nat>, cells: seq<nat>, ids: seq<seq<nat>>,
                      last: seq<nat>, ps: seq<seq<Particle>>, c: nat, PPC: nat)
    requires PPC > 0 && |owner| == |mem0| && c < |cells2| == |ids| == |last| == |ps| == |cells|
    requires CellOk(mem0, owner, cells2[c], ids[c], last[c], ps[c], c, PPC) && Cleared(mem0, mem, cells, |cells|)
    requires forall x :: 0 <= x < |cells| ==> cells[x] < |mem0| && owner[cells[x]].Src?
    ensures SourceOk(mem, Exchange(owner), cells2[c], ids[c], ps[c], 0, c, PPC)
    ensures cells2[c] < |owner| && Exchange(owner)[cells2[c]] == Src(c, 0)
  {
    Quotient(0, PPC, 0, 0);
    var w := ids[c];
    forall k | 0 <= k < |w| ensures Linked(mem, Exchange(owner), w, k, Src(c, k)) {
      assert Linked(mem0, owner, w, k, Dst(c, k));
    }
    HoldsFrame(mem0, mem, w, w, ps[c], 0, PPC);
    assert Linked(mem, Exchange(owner), w, 0, Src(c, 0));
  }

  lemma SourceCount(mem: seq<Block>, owner: seq<Owner>, cells2: seq<nat>, ids2: seq<seq<nat>>, cnt2: seq<nat>,
                    src: seq<seq<Particle>>, i: nat, n: nat, PPC: nat)
    requires PPC > 0 && Sources(mem, owner, cells2, ids2, cnt2, src, i, 0, n, PPC)
    ensures |cells2| == |ids2| == |cnt2| == |src| == n
  {
  }

  lemma AllDone(mem: seq<Block>, owner: seq<Owner>, cells2: seq<nat>, ids2: seq<seq<nat>>, cnt2: seq<nat>,
                src: seq<seq<Particle>>, n: nat, PPC: nat)
    requires PPC > 0 && Sources(mem, owner, cells2, ids2, cnt2, src, n, 0, n, PPC)
    ensures |cnt2| == n && Heads(mem, owner, cells2, ids2, n)
  {
  }

  lemma NothingYet(g: Geometry, n: nat)
    requires GeometryOk(g)
    ensures forall c :: 0 <= c < n ==> InCell(g, [], c) == []
  {
  }

  /** The last block of a source chain is given away unless it is static or has been given away already. */
  lemma SourceDone(mem: seq<Block>, owner: seq<Owner>, pool: seq<nat>, cells2: seq<nat>, ids: seq<seq<nat>>, ids2: seq<seq<nat>>,
                   cnt2: seq<nat>, src: seq<seq<Particle>>, i: nat, n: nat, PPC: nat)
    requires PPC > 0 && i < n && |src| == |ids2| == |cells2| == n && |ids2[i]| >= 1
    requires Sources(mem, owner, cells2, ids2, cnt2, src, i, |src[i]|, n, PPC) && NoLeak(owner, ids, ids2, pool)
    ensures |src[i]| / PPC <= |ids2[i]| && cells2[i] == ids2[i][0]
    ensures var k := |src[i]| / PPC;
      if k < |ids2[i]| && ids2[i][k] != cells2[i] then
        && ids2[i][k] < |owner| && owner[ids2[i][k]] == Src(i, k)
        && OnlyHead(owner[ids2[i][k] := Free(|pool|)], i)
        && Sources(mem, owner[ids2[i][k] := Free(|pool|)], cells2, ids2[i := [cells2[i]]], cnt2, src, i + 1, 0, n, PPC)
      else
        && OnlyHead(owner, i)
        && Sources(mem, owner, cells2, ids2[i := [cells2[i]]], cnt2, src, i + 1, 0, n, PPC)
  {
    var k := |src[i]| / PPC;
    LastBlock(|src[i]|, PPC);
    if k < |ids2[i]| { assert Linked(mem, owner, ids2[i], k, Src(i, k)); }
    var back := k < |ids2[i]| && ids2[i][k] != cells2[i];
    var owner' := if back then owner[ids2[i][k] := Free(|pool|)] else owner;
    forall c | i < c < n ensures SourceOk(mem, owner', cells2[c], ids2[c], src[c], 0, c, PPC) {
      SourceFrame(mem, owner, mem, owner', cells2[c], ids2[c], src[c], 0, 0, c, PPC);
    }
    assert OnlyHead(owner', i);
    Quotient(0, PPC, 0, 0);
  }

  lemma LastBlock(n: nat, PPC: nat)
    requires PPC > 0
    ensures Blocks(n, PPC) - 1 <= n / PPC <= Blocks(n, PPC)
  {
    if n > 0 { NextSlot(n - 1, PPC); } else { Quotient(0, PPC, 0, 0); }
  }

  /** Of source chain i only the static block is left. */
  ghost predicate OnlyHead(owner: seq<Owner>, i: nat)
  {
    forall b :: 0 <= b < |owner| && owner[b].Src? && owner[b].c == i ==> owner[b].k == 0
  }

  lemma NoLeakHead(owner: seq<Owner>, ids: seq<seq<nat>>, ids2: seq<seq<nat>>, pool: seq<nat>, i: nat, head: nat)
    requires NoLeak(owner, ids, ids2, pool) && OnlyHead(owner, i) && i < |ids2| && |ids2[i]| >= 1 && ids2[i][0] == head
    ensures NoLeak(owner, ids, ids2[i := [head]], pool)
  {
  }

  /** Giving away a source block does not concern the destination cells. */
  lemma DestsAfterReturn(mem: seq<Block>, owner: seq<Owner>, cells: seq<nat>, ids: seq<seq<nat>>, last: seq<nat>, cnt: seq<nat>,
                         ps: seq<seq<Particle>>, n: nat, PPC: nat, b: nat, o: Owner)
    requires PPC > 0 && Dests(mem, owner, cells, ids, last, cnt, ps, n, PPC) && b < |owner| && owner[b].Src?
    ensures Dests(mem, owner[b := o], cells, ids, last, cnt, ps, n, PPC)
  {
    forall c | 0 <= c < n ensures CellOk(mem, owner[b := o], cells[c], ids[c], last[c], ps[c], c, PPC) {
      CellFrame(mem, owner, mem, owner[b := o], cells[c], ids[c], last[c], ps[c], c, PPC);
    }
  }

  lemma SourceSizes(mem: seq<Block>, owner: seq<Owner>, cells2: seq<nat>, ids2: seq<seq<nat>>, cnt2: seq<nat>,
                    src: seq<seq<Particle>>, i: nat, n: nat, PPC: nat)
    requires PPC > 0 && i < n && Sources(mem, owner, cells2, ids2, cnt2, src, i, 0, n, PPC)
    ensures |cells2| == |ids2| == |cnt2| == |src| == n && cnt2[i] == |src[i]| && |ids2[i]| == Blocks(|src[i]|, PPC) && ids2[i][0] == cells2[i]
  {
  }

  /** The block in hand: its place, its slot, its link. */
  lemma SourceHere(mem: seq<Block>, owner: seq<Owner>, cells2: seq<nat>, ids2: seq<seq<nat>>, cnt2: seq<nat>,
                   src: seq<seq<Particle>>, i: nat, j: nat, n: nat, PPC: nat)
    requires PPC > 0 && i < n && Sources(mem, owner, cells2, ids2, cnt2, src, i, j, n, PPC)
    requires |src| == |ids2| == n && j < |src[i]| && j / PPC < |ids2[i]|
    ensures var b := ids2[i][j / PPC];
      && b < |mem| == |owner| && owner[b] == Src(i, j / PPC) && j % PPC < |mem[b].items| && mem[b].items[j % PPC] == src[i][j]
      && mem[b].next == (if j / PPC + 1 < |ids2[i]| then ids2[i][j / PPC + 1] else NULL)
    ensures |cells2| == n && cells2[i] == ids2[i][0] && (j / PPC > 0 ==> cells2[i] != ids2[i][j / PPC])
    ensures |ids2[i]| == Blocks(|src[i]|, PPC)
  {
    assert Linked(mem, owner, ids2[i], j / PPC, Src(i, j / PPC));
    assert InSlot(mem, ids2[i], j, PPC, src[i][j]);
  }

  /** Within a block nothing happens to the source. */
  lemma SourceStays(mem: seq<Block>, owner: seq<Owner>, cells2: seq<nat>, ids2: seq<seq<nat>>, cnt2: seq<nat>,
                    src: seq<seq<Particle>>, i: nat, j: nat, n: nat, PPC: nat)
    requires PPC > 0 && i < n && Sources(mem, owner, cells2, ids2, cnt2, src, i, j, n, PPC) && (j + 1) / PPC == j / PPC
    ensures Sources(mem, owner, cells2, ids2, cnt2, src, i, j + 1, n, PPC)
  {
    SourceFrame(mem, owner, mem, owner, cells2[i], ids2[i], src[i], j, j + 1, i, PPC);
  }

  /** The block at place j / PPC has been read to its end: whether or not it is given away, the rest of the source is fine. */
  lemma SourceLeft(mem: seq<Block>, owner: seq<Owner>, pool: seq<nat>, cells2: seq<nat>, ids: seq<seq<nat>>, ids2: seq<seq<nat>>, cnt2: seq<nat>,
                   src: seq<seq<Particle>>, i: nat, j: nat, n: nat, PPC: nat)
    requires PPC > 0 && i < n && Sources(mem, owner, cells2, ids2, cnt2, src, i, j, n, PPC) && (j + 1) / PPC == j / PPC + 1
    requires |src| == |ids2| == n && j < |src[i]| && j / PPC < |ids2[i]| && NoLeak(owner, ids, ids2, pool)
    ensures ids2[i][j / PPC] < |owner|
    ensures j / PPC > 0 ==> Sources(mem, owner[ids2[i][j / PPC] := Free(|pool|)], cells2, ids2, cnt2, src, i, j + 1, n, PPC)
    ensures j / PPC == 0 ==> Sources(mem, owner, cells2, ids2, cnt2, src, i, j + 1, n, PPC)
  {
    var b := ids2[i][j / PPC];
    SourceHere(mem, owner, cells2, ids2, cnt2, src, i, j, n, PPC);
    var owner' := if j / PPC > 0 then owner[b := Free(|pool|)] else owner;
    SourceFrame(mem, owner, mem, owner', cells2[i], ids2[i], src[i], j, j + 1, i, PPC);
    forall c | i < c < n ensures SourceOk(mem, owner', cells2[c], ids2[c], src[c], 0, c, PPC) {
      SourceFrame(mem, owner, mem, owner', cells2[c], ids2[c], src[c], 0, 0, c, PPC);
    }
    forall x | 0 <= x < |owner'| && owner'[x].Src? && owner'[x].c == i ensures owner'[x].k == 0 || owner'[x].k >= (j + 1) / PPC {
    }
  }

  /** What cellpool_getcell has done: taken the last block of the pool, or one behind all others. */
  ghost predicate Got(mem0: seq<Block>, owner0: seq<Owner>, pool0: seq<nat>, mem: seq<Block>, owner: seq<Owner>, pool: seq<nat>, b: nat)
  {
    && |mem0| == |owner0| <= |mem| == |owner| && b < |mem| && owner[b] == Free(|pool|) && mem[b].next == NULL
    && (forall x :: 0 <= x < |mem0| ==> owner[x] == owner0[x] && (x != b ==> mem[x] == mem0[x]))
    && (|mem| == |mem0| || (|mem| == |mem0| + 1 && b == |mem0|))
    && (if |pool0| > 0 then pool == pool0[..|pool0| - 1] && b == pool0[|pool|] else pool == [])
  }

  /** All destination cells, `index` with room reserved for one more particle. */
  ghost predicate DestsOpen(mem: seq<Block>, owner: seq<Owner>, cells: seq<nat>, ids: seq<seq<nat>>, last: seq<nat>, cnt: seq<nat>,
                            ps: seq<seq<Particle>>, n: nat, PPC: nat, index: nat)
    requires PPC > 0
  {
    && |cells| == |ids| == |last| == |cnt| == |ps| == n && |mem| == |owner| && index < n
    && (forall c :: 0 <= c < n && c != index ==> CellOk(mem, owner, cells[c], ids[c], last[c], ps[c], c, PPC))
    && (forall c :: 0 <= c < n ==> cnt[c] == |ps[c]| + if c == index then 1 else 0)
    && ChainOk(mem, owner, cells[index], ids[index], |ps[index]| + 1, index, PPC) && Holds(mem, ids[index], ps[index], 0, PPC)
    && last[index] == ids[index][|ids[index]| - 1] && last[index] < |mem| && owner[last[index]].Dst? && owner[last[index]].c == index
  }

  lemma DestSizes(mem: seq<Block>, owner: seq<Owner>, cells: seq<nat>, ids: seq<seq<nat>>, last: seq<nat>, cnt: seq<nat>,
                  ps: seq<seq<Particle>>, n: nat, PPC: nat, index: nat)
    requires PPC > 0 && Dests(mem, owner, cells, ids, last, cnt, ps, n, PPC) && index < n
    ensures |cells| == |ids| == |last| == |cnt| == |ps| == n && cnt[index] == |ps[index]| && last[index] < |mem|
  {
    assert CellOk(mem, owner, cells[index], ids[index], last[index], ps[index], index, PPC);
    assert Linked(mem, owner, ids[index], |ids[index]| - 1, Dst(index, |ids[index]| - 1));
  }

  lemma OpenOld(mem: seq<Block>, owner: seq<Owner>, cells: seq<nat>, ids: seq<seq<nat>>, last: seq<nat>, cnt: seq<nat>,
                ps: seq<seq<Particle>>, n: nat, PPC: nat, index: nat)
    requires PPC > 0 && Dests(mem, owner, cells, ids, last, cnt, ps, n, PPC) && index < n
    requires !(|ps[index]| % PPC == 0 && |ps[index]| != 0)
    ensures DestsOpen(mem, owner, cells, ids, last, cnt[index := cnt[index] + 1], ps, n, PPC, index)
    ensures SameSources(mem, owner, mem, owner)
  {
    assert CellOk(mem, owner, cells[index], ids[index], last[index], ps[index], index, PPC);
    assert Linked(mem, owner, ids[index], |ids[index]| - 1, Dst(index, |ids[index]| - 1));
    BlocksStep(|ps[index]|, PPC);
  }

  lemma OpenNew(mem0: seq<Block>, owner0: seq<Owner>, pool0: seq<nat>, mem: seq<Block>, owner: seq<Owner>, pool: seq<nat>, b: nat,
                cells: seq<nat>, ids: seq<seq<nat>>, ids2: seq<seq<nat>>, last: seq<nat>, cnt: seq<nat>, ps: seq<seq<Particle>>,
                n: nat, PPC: nat, index: nat)
    requires PPC > 0 && Dests(mem0, owner0, cells, ids, last, cnt, ps, n, PPC) && index < n
    requires PoolOk(mem0, owner0, pool0, PPC) && NoLeak(owner0, ids, ids2, pool0)
    requires PoolOk(mem, owner, pool, PPC) && Got(mem0, owner0, pool0, mem, owner, pool, b)
    requires |ps[index]| % PPC == 0 && |ps[index]| != 0
    ensures last[index] < |mem|
    ensures var mem' := mem[last[index] := mem[last[index]].(next := b)]; var owner' := owner[b := Dst(index, |ids[index]|)];
      && DestsOpen(mem', owner', cells, ids[index := ids[index] + [b]], last[index := b], cnt[index := cnt[index] + 1], ps, n, PPC, index)
      && PoolOk(mem', owner', pool, PPC) && NoLeak(owner', ids[index := ids[index] + [b]], ids2, pool)
      && SameSources(mem0, owner0, mem', owner')
  {
    assert CellOk(mem0, owner0, cells[index], ids[index], last[index], ps[index], index, PPC);
    assert Linked(mem0, owner0, ids[index], |ids[index]| - 1, Dst(index, |ids[index]| - 1));
    CellFrame(mem0, owner0, mem, owner, cells[index], ids[index], last[index], ps[index], index, PPC);
    LinkBlock(mem, owner, cells[index], ids[index], ps[index], index, PPC, b);
    var mem', owner' := mem[last[index] := mem[last[index]].(next := b)], owner[b := Dst(index, |ids[index]|)];
    forall c | 0 <= c < n && c != index ensures CellOk(mem', owner', cells[c], ids[c], last[c], ps[c], c, PPC) {
      CellFrame(mem0, owner0, mem', owner', cells[c], ids[c], last[c], ps[c], c, PPC);
    }
  }

  lemma WriteOpen(mem0: seq<Block>, owner0: seq<Owner>, mem: seq<Block>, owner: seq<Owner>, pool: seq<nat>, cells: seq<nat>,
                  ids: seq<seq<nat>>, last: seq<nat>, cnt: seq<nat>, ps: seq<seq<Particle>>, n: nat, PPC: nat, index: nat, p: Particle)
    requires PPC > 0 && DestsOpen(mem, owner, cells, ids, last, cnt, ps, n, PPC, index) && PoolOk(mem, owner, pool, PPC)
    requires SameSources(mem0, owner0, mem, owner)
    ensures |last| == n && |ps| == n && last[index] < |mem| && |mem[last[index]].items| == PPC && |ps[index]| % PPC < PPC
    ensures var mem' := mem[last[index] := mem[last[index]].(items := mem[last[index]].items[|ps[index]| % PPC := p])];
      && Dests(mem', owner, cells, ids, last, cnt, ps[index := ps[index] + [p]], n, PPC)
      && PoolOk(mem', owner, pool, PPC) && SameSources(mem0, owner0, mem', owner)
  {
    var b := last[index];
    WriteSlot(mem, owner, cells[index], ids[index], ps[index], index, PPC, p);
    var mem' := mem[b := mem[b].(items := mem[b].items[|ps[index]| % PPC := p])];
    forall c | 0 <= c < n && c != index ensures CellOk(mem', owner, cells[c], ids[c], last[c], ps[c], c, PPC) {
      CellFrame(mem, owner, mem', owner, cells[c], ids[c], last[c], ps[c], c, PPC);
    }
  }
}
