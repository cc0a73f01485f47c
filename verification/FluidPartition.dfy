/** How fluidanimate divides the cells among the threads: the grids, and the cells near their edges that need a lock. */
module FluidPartition {
  import opened HotBits
  import opened Common
  import opened FluidRebuild

  /** The hamming weight. */
  function Weight(x: nat): nat { if x == 0 then 0 else x % 2 + Weight(x / 2) }

  /** The lowest set bit, -1 if there is none. */
  function Lowest(x: nat): (r: int)
    ensures x > 0 ==> r >= 0
  {
    if x == 0 then -1 else if x % 2 == 1 then 0 else 1 + Lowest(x / 2)
  }

  lemma {:induction false} LowestIsABit(x: nat)
    requires x > 0
    ensures Lowest(x) >= 0 && HasBit(x, Lowest(x)) && forall b: nat :: b < Lowest(x) ==> !HasBit(x, b)
  {
    if x % 2 == 0 {
      LowestIsABit(x / 2);
      forall b: nat | b < Lowest(x) ensures !HasBit(x, b) {
        if b > 0 { assert !HasBit(x / 2, b - 1); }
      }
    }
  }

  /** hmgweight */
  method Hmgweight(x0: nat) returns (weight: nat, lsb: int)
    ensures weight == Weight(x0) && lsb == Lowest(x0)
  {
    var x, count := x0, 0;
    weight, lsb := 0, -1;
    while x > 0
      invariant weight + Weight(x) == Weight(x0)
      invariant if lsb == -1 then Lowest(x0) == (if x == 0 then -1 else count + Lowest(x)) else lsb == Lowest(x0)
      invariant lsb >= -1 && count >= 0 && (x0 > 0 && lsb == -1 ==> x > 0)
    {
      if x % 2 == 1 {
        weight := weight + 1;
        if lsb == -1 { lsb := count; }
      }
      x := x / 2;
      count := count + 1;
    }
  }

  lemma {:induction false} WeightZero(x: nat)
    requires Weight(x) == 0
    ensures x == 0
  {
    if x > 0 { WeightZero(x / 2); }
  }

  /** Weight one means a power of two. */
  lemma {:induction false} PowerOfTwo(x: nat)
    ensures Weight(x) == 1 <==> x > 0 && x == Pow2(Lowest(x))
  {
    if x > 0 {
      LowestIsABit(x);
      if x % 2 == 1 {
        if Weight(x) == 1 { WeightZero(x / 2); }
      } else {
        LowestIsABit(x / 2);
        PowerOfTwo(x / 2);
      }
    }
  }

  lemma {:induction false} Pow2Sum(a: nat, b: nat)
    ensures Pow2(a + b) == Pow2(a) * Pow2(b)
  {
    if a > 0 { Pow2Sum(a - 1, b); }
  }

  /** The partition of InitSim: XDIVS * ZDIVS is the number of threads, whenever that is a power of two. */
  method Divisions(threadnum: nat) returns (ok: bool, XDIVS: nat, ZDIVS: nat)
    ensures ok <==> Weight(threadnum) == 1
    ensures ok ==> XDIVS * ZDIVS == threadnum && XDIVS > 0 && ZDIVS > 0 && (XDIVS == ZDIVS || XDIVS == 2 * ZDIVS)
  {
    var weight, lsb := Hmgweight(threadnum);
    XDIVS, ZDIVS := 1, 1;
    if weight != 1 { return false, XDIVS, ZDIVS; }
    PowerOfTwo(threadnum);
    LowestIsABit(threadnum);
    XDIVS, ZDIVS := Pow2(lsb / 2), Pow2(lsb / 2);
    Pow2Sum(lsb / 2, lsb / 2);
    if XDIVS * ZDIVS != threadnum {
      Pow2Sum(1, 2 * (lsb / 2));
      assert Pow2(1) == 2;
      XDIVS := XDIVS * 2;
      Twice(ZDIVS);
    }
    return true, XDIVS, ZDIVS;
  }

  lemma Twice(z: nat)
    ensures (z * 2) * z == 2 * (z * z)
  {
  }

  /** (int)((fptype)n / (fptype)divs * i + 0.5), without rounding errors. */
  function Cut(n: nat, divs: nat, i: nat): int
    requires divs > 0
  {
    (n as real / divs as real * i as real + 0.5).Floor
  }

  /** The first cut is 0, the last is n. */
  lemma CutEnds(n: nat, divs: nat)
    requires divs > 0
    ensures Cut(n, divs, 0) == 0 && Cut(n, divs, divs) == n
  {
    assert n as real / divs as real * 0.0 == 0.0;
    assert n as real / divs as real * divs as real == n as real;
  }

  /** x is n * i / divs rounded: at most one half away from it. */
  predicate Nearest(n: nat, divs: nat, i: nat, x: int) { 2 * (n * i) - divs <= 2 * (divs * x) <= 2 * (n * i) + divs }

  lemma CutIsNearest(n: nat, divs: nat, i: nat)
    requires divs > 0
    ensures Nearest(n, divs, i, Cut(n, divs, i))
  {
    var d, q, c := divs as real, n as real / divs as real, Cut(n, divs, i);
    var r := q * i as real;
    assert c as real <= r + 0.5 < c as real + 1.0;
    assert d * r == (n * i) as real by {
      assert d * q == n as real;
      assert d * (q * i as real) == (d * q) * i as real;
    }
    Scaled(c as real - 0.5, r, d);
    Scaled(r, c as real + 0.5, d);
    assert d * c as real == (divs * c) as real;
  }

  /** `assert(sx < ex)`: with at least one cell per division, cuts strictly grow. */
  lemma CutGrows(n: nat, divs: nat, i: nat)
    requires divs > 0 && n >= divs
    ensures Cut(n, divs, i) < Cut(n, divs, i + 1)
  {
    var q := n as real / divs as real;
    assert q >= 1.0;
    assert q * (i + 1) as real == q * i as real + q;
  }

  lemma {:induction false} CutMonotone(n: nat, divs: nat, i: nat, j: nat)
    requires divs > 0 && n >= divs && i <= j
    ensures Cut(n, divs, i) <= Cut(n, divs, j)
    decreases j
  {
    if i < j {
      CutMonotone(n, divs, i, j - 1);
      CutGrows(n, divs, j - 1);
    }
  }

  /** The division a coordinate falls into. */
  ghost function DivisionOf(n: nat, divs: nat, x: nat, i: nat): (k: nat)
    requires divs > 0 && n >= divs && i < divs && x < Cut(n, divs, i + 1)
    ensures k <= i && Cut(n, divs, k) <= x < Cut(n, divs, k + 1)
    decreases i
  {
    CutEnds(n, divs);
    if Cut(n, divs, i) <= x then i else DivisionOf(n, divs, x, i - 1)
  }

  lemma DivisionUnique(n: nat, divs: nat, x: nat, i: nat, j: nat)
    requires divs > 0 && n >= divs && Cut(n, divs, i) <= x < Cut(n, divs, i + 1) && Cut(n, divs, j) <= x < Cut(n, divs, j + 1)
    ensures i == j
  {
    hide Cut;
    if i < j { CutMonotone(n, divs, i + 1, j); } else if j < i { CutMonotone(n, divs, j + 1, i); }
  }

  /** One thread's part of the cells. */
  datatype Grid = Grid(sx: int, sy: int, sz: int, ex: int, ey: int, ez: int)

  /** A cell's coordinates. */
  datatype Coord = Coord(x: int, y: int, z: int)

  predicate Inside(g: Grid, c: Coord) { g.sx <= c.x < g.ex && g.sy <= c.y < g.ey && g.sz <= c.z < g.ez }

  predicate InDomain(g: Geometry, c: Coord) { 0 <= c.x < g.nx && 0 <= c.y < g.ny && 0 <= c.z < g.nz }

  function GridAt(g: Geometry, XDIVS: nat, ZDIVS: nat, i: nat, j: nat): Grid
    requires XDIVS > 0 && ZDIVS > 0
  {
    Grid(Cut(g.nx, XDIVS, i), 0, Cut(g.nz, ZDIVS, j), Cut(g.nx, XDIVS, i + 1), g.ny, Cut(g.nz, ZDIVS, j + 1))
  }

  /** Row by row: grid k has column k / ZDIVS, k % ZDIVS. */
  ghost predicate AreGrids(grids: seq<Grid>, g: Geometry, XDIVS: nat, ZDIVS: nat)
    requires XDIVS > 0 && ZDIVS > 0
  {
    forall k: nat :: k < |grids| ==> grids[k] == GridAt(g, XDIVS, ZDIVS, k / ZDIVS, k % ZDIVS)
  }

  /** Grid k has the equal share of column k / ZDIVS and row k % ZDIVS, to the nearest cell. */
  predicate EqualShare(t: Grid, g: Geometry, XDIVS: nat, ZDIVS: nat, k: nat)
    requires XDIVS > 0 && ZDIVS > 0
  {
    && Nearest(g.nx, XDIVS, k / ZDIVS, t.sx) && Nearest(g.nx, XDIVS, k / ZDIVS + 1, t.ex)
    && Nearest(g.nz, ZDIVS, k % ZDIVS, t.sz) && Nearest(g.nz, ZDIVS, k % ZDIVS + 1, t.ez)
    && t.sy == 0 && t.ey == g.ny
  }

  lemma GridsAreShares(grids: seq<Grid>, g: Geometry, XDIVS: nat, ZDIVS: nat)
    requires XDIVS > 0 && ZDIVS > 0 && AreGrids(grids, g, XDIVS, ZDIVS)
    ensures forall k :: 0 <= k < |grids| ==> EqualShare(grids[k], g, XDIVS, ZDIVS, k)
  {
    forall k | 0 <= k < |grids| ensures EqualShare(grids[k], g, XDIVS, ZDIVS, k) {
      assert grids[k] == GridAt(g, XDIVS, ZDIVS, k / ZDIVS, k % ZDIVS);
      hide Cut, Nearest;
      CutIsNearest(g.nx, XDIVS, k / ZDIVS);
      CutIsNearest(g.nx, XDIVS, k / ZDIVS + 1);
      CutIsNearest(g.nz, ZDIVS, k % ZDIVS);
      CutIsNearest(g.nz, ZDIVS, k % ZDIVS + 1);
    }
  }

  lemma NoGrids(g: Geometry, XDIVS: nat, ZDIVS: nat)
    requires XDIVS > 0 && ZDIVS > 0
    ensures AreGrids([], g, XDIVS, ZDIVS)
  {
  }

  lemma AddGrid(grids: seq<Grid>, g: Geometry, XDIVS: nat, ZDIVS: nat, i: nat, j: nat)
    requires XDIVS > 0 && j < ZDIVS && AreGrids(grids, g, XDIVS, ZDIVS) && |grids| == i * ZDIVS + j
    ensures AreGrids(grids + [GridAt(g, XDIVS, ZDIVS, i, j)], g, XDIVS, ZDIVS)
  {
    hide GridAt;
    Quotient(i * ZDIVS + j, ZDIVS, i, j);
  }

  /** The loop of InitSim over the divisions. */
  method Partition(g: Geometry, XDIVS: nat, ZDIVS: nat) returns (grids: seq<Grid>)
    requires 0 < XDIVS <= g.nx && 0 < ZDIVS <= g.nz
    ensures |grids| == XDIVS * ZDIVS && AreGrids(grids, g, XDIVS, ZDIVS)
    ensures forall k :: 0 <= k < |grids| ==> EqualShare(grids[k], g, XDIVS, ZDIVS, k)
  {
    grids := [];
    var i, ex := 0, 0;
    CutEnds(g.nx, XDIVS);
    NoGrids(g, XDIVS, ZDIVS);
    hide Cut, AreGrids, EqualShare;
    while i < XDIVS
      invariant 0 <= i <= XDIVS && ex == Cut(g.nx, XDIVS, i) && |grids| == i * ZDIVS && AreGrids(grids, g, XDIVS, ZDIVS)
    {
      var sx := ex;
      ex := Cut(g.nx, XDIVS, i + 1);
      CutGrows(g.nx, XDIVS, i);
      assert sx < ex;
      var j, ez := 0, 0;
      CutEnds(g.nz, ZDIVS);
      while j < ZDIVS
        invariant 0 <= j <= ZDIVS && ez == Cut(g.nz, ZDIVS, j) && |grids| == i * ZDIVS + j && AreGrids(grids, g, XDIVS, ZDIVS)
      {
        var sz := ez;
        ez := Cut(g.nz, ZDIVS, j + 1);
        CutGrows(g.nz, ZDIVS, j);
        assert sz < ez;
        AddGrid(grids, g, XDIVS, ZDIVS, i, j);
        grids := grids + [Grid(sx, 0, sz, ex, g.ny, ez)];
        j := j + 1;
      }
      assert (i + 1) * ZDIVS == i * ZDIVS + ZDIVS;
      i := i + 1;
    }
    GridsAreShares(grids, g, XDIVS, ZDIVS);
  }

  /** The grids of a domain: as many as there are threads. */
  ghost predicate Partitioned(grids: seq<Grid>, g: Geometry, XDIVS: nat, ZDIVS: nat)
  {
    0 < XDIVS <= g.nx && 0 < ZDIVS <= g.nz && |grids| == XDIVS * ZDIVS && AreGrids(grids, g, XDIVS, ZDIVS)
  }

  /** The thread a cell belongs to. */
  ghost function OwnerOf(grids: seq<Grid>, g: Geometry, XDIVS: nat, ZDIVS: nat, c: Coord): (k: nat)
    requires Partitioned(grids, g, XDIVS, ZDIVS) && InDomain(g, c)
    ensures k < |grids| && Inside(grids[k], c)
  {
    CutEnds(g.nx, XDIVS);
    CutEnds(g.nz, ZDIVS);
    var i, j := DivisionOf(g.nx, XDIVS, c.x, XDIVS - 1), DivisionOf(g.nz, ZDIVS, c.z, ZDIVS - 1);
    Quotient(i * ZDIVS + j, ZDIVS, i, j);
    RowBound(i, XDIVS, j, ZDIVS);
    i * ZDIVS + j
  }

  /** The grids are an exact cover: each cell is inside one grid only, and nothing outside the domain is. */
  lemma ExactCover(grids: seq<Grid>, g: Geometry, XDIVS: nat, ZDIVS: nat, c: Coord, k: nat)
    requires Partitioned(grids, g, XDIVS, ZDIVS) && k < |grids|
    ensures Inside(grids[k], c) <==> InDomain(g, c) && k == OwnerOf(grids, g, XDIVS, ZDIVS, c)
  {
    hide Cut, OwnerOf, AreGrids;
    if Inside(grids[k], c) {
      var i, j := InsideColumn(grids, g, XDIVS, ZDIVS, c, k);
      InsideOne(grids, g, XDIVS, ZDIVS, c, k, OwnerOf(grids, g, XDIVS, ZDIVS, c));
    }
  }

  lemma InsideOne(grids: seq<Grid>, g: Geometry, XDIVS: nat, ZDIVS: nat, c: Coord, k: nat, m: nat)
    requires Partitioned(grids, g, XDIVS, ZDIVS) && k < |grids| && m < |grids| && Inside(grids[k], c) && Inside(grids[m], c)
    ensures k == m
  {
    var i, j := InsideColumn(grids, g, XDIVS, ZDIVS, c, k);
    var i', j' := InsideColumn(grids, g, XDIVS, ZDIVS, c, m);
    hide *;
    DivisionUnique(g.nx, XDIVS, c.x, i, i');
    DivisionUnique(g.nz, ZDIVS, c.z, j, j');
  }

  /** The divisions of a cell inside grid k. */
  lemma InsideColumn(grids: seq<Grid>, g: Geometry, XDIVS: nat, ZDIVS: nat, c: Coord, k: nat) returns (i: nat, j: nat)
    requires Partitioned(grids, g, XDIVS, ZDIVS) && k < |grids| && Inside(grids[k], c)
    ensures InDomain(g, c) && g.nx >= XDIVS > 0 && g.nz >= ZDIVS > 0 && k == i * ZDIVS + j
    ensures Cut(g.nx, XDIVS, i) <= c.x < Cut(g.nx, XDIVS, i + 1)
    ensures Cut(g.nz, ZDIVS, j) <= c.z < Cut(g.nz, ZDIVS, j + 1)
  {
    hide Cut;
    i, j := k / ZDIVS, k % ZDIVS;
    ColumnBounds(k, XDIVS, ZDIVS);
    InColumns(g.nx, XDIVS, i, c.x);
    InColumns(g.nz, ZDIVS, j, c.z);
  }

  lemma ColumnBounds(k: nat, XDIVS: nat, ZDIVS: nat)
    requires ZDIVS > 0 && k < XDIVS * ZDIVS
    ensures k / ZDIVS < XDIVS && k % ZDIVS < ZDIVS
  {
    var q := k / ZDIVS;
    assert k == ZDIVS * q + k % ZDIVS;
    if q >= XDIVS { if q > XDIVS { Larger(ZDIVS, q, XDIVS); } }
  }

  lemma InColumns(n: nat, divs: nat, i: nat, x: int)
    requires 0 < divs <= n && i < divs && Cut(n, divs, i) <= x < Cut(n, divs, i + 1)
    ensures 0 <= x < n
  {
    hide Cut;
    CutEnds(n, divs);
    CutMonotone(n, divs, 0, i);
    CutMonotone(n, divs, i + 1, divs);
  }

  function At(g: Geometry, c: Coord): (r: nat)
    requires InDomain(g, c)
    ensures r < NumCells(g)
  {
    IndexInRange(g, c.x, c.y, c.z);
    Index(g, c.x, c.y, c.z)
  }

  /** Different cells have different numbers. */
  lemma AtInjective(g: Geometry, c: Coord, d: Coord)
    requires InDomain(g, c) && InDomain(g, d) && At(g, c) == At(g, d)
    ensures c == d
  {
    var row, row' := c.z * g.ny + c.y, d.z * g.ny + d.y;
    Quotient(At(g, c), g.nx, row, c.x);
    Quotient(At(g, d), g.nx, row', d.x);
    Quotient(row, g.ny, c.z, c.y);
    Quotient(row', g.ny, d.z, d.y);
  }

  predicate Adjacent(c: Coord, d: Coord) { -1 <= d.x - c.x <= 1 && -1 <= d.y - c.y <= 1 && -1 <= d.z - c.z <= 1 }

  /** Some cell next to c lies outside grid t. */
  ghost predicate NearOutside(g: Geometry, t: Grid, c: Coord)
  {
    exists d :: InDomain(g, d) && Adjacent(c, d) && !Inside(t, d)
  }

  /** The cell looked at for an offset: confined to the domain. */
  function Probe(g: Geometry, c: Coord, di: int, dj: int, dk: int): (d: Coord)
    requires g.nx > 0 && g.ny > 0 && g.nz > 0 && InDomain(g, c)
    ensures InDomain(g, d) && (-1 <= di <= 1 && -1 <= dj <= 1 && -1 <= dk <= 1 ==> Adjacent(c, d))
  {
    Coord(Clamp(c.x + di, g.nx), Clamp(c.y + dj, g.ny), Clamp(c.z + dk, g.nz))
  }

  /** Every offset that comes before (di, dj, dk) in the order of the loops leads into the grid. */
  ghost predicate InsideBefore(g: Geometry, t: Grid, c: Coord, di: int, dj: int, dk: int)
    requires g.nx > 0 && g.ny > 0 && g.nz > 0 && InDomain(g, c)
  {
    forall a, b, e :: -1 <= a <= 1 && -1 <= b <= 1 && -1 <= e <= 1 && (e < dk || (e == dk && (b < dj || (b == dj && a < di))))
      ==> Inside(t, Probe(g, c, a, b, e))
  }

  lemma AllInside(g: Geometry, t: Grid, c: Coord)
    requires g.nx > 0 && g.ny > 0 && g.nz > 0 && InDomain(g, c) && InsideBefore(g, t, c, -1, -1, 2)
    ensures !NearOutside(g, t, c)
  {
    forall d | InDomain(g, d) && Adjacent(c, d) ensures Inside(t, d) {
      assert Probe(g, c, d.x - c.x, d.y - c.y, d.z - c.z) == d;
    }
  }

  /** The body of the loops over a grid's cells: look at the 27 places around, stop at the first one outside. */
  method MarkCell(border: array<bool>, g: Geometry, t: Grid, c: Coord)
    requires g.nx > 0 && g.ny > 0 && g.nz > 0 && InDomain(g, c) && border.Length == NumCells(g)
    modifies border
    ensures border[At(g, c)] <==> NearOutside(g, t, c)
    ensures forall k :: 0 <= k < border.Length && k != At(g, c) ==> border[k] == old(border[k])
  {
    var index := At(g, c);
    hide Index, Clamp, Probe;
    border[index] := false;
    var dk := -1;
    while dk <= 1
      invariant -1 <= dk <= 2 && !border[index] && InsideBefore(g, t, c, -1, -1, dk)
      invariant forall k :: 0 <= k < border.Length && k != index ==> border[k] == old(border[k])
    {
      var dj := -1;
      while dj <= 1
        invariant -1 <= dj <= 2 && !border[index] && InsideBefore(g, t, c, -1, dj, dk)
        invariant forall k :: 0 <= k < border.Length && k != index ==> border[k] == old(border[k])
      {
        var di := -1;
        while di <= 1
          invariant -1 <= di <= 2 && !border[index] && InsideBefore(g, t, c, di, dj, dk)
          invariant forall k :: 0 <= k < border.Length && k != index ==> border[k] == old(border[k])
        {
          var p := Probe(g, c, di, dj, dk);
          if p.x < t.sx || p.x >= t.ex || p.y < t.sy || p.y >= t.ey || p.z < t.sz || p.z >= t.ez {
            border[index] := true;
            break;
          }
          di := di + 1;
        }
        if border[index] { break; }
        dj := dj + 1;
      }
      if border[index] { break; }
      dk := dk + 1;
    }
    if !border[index] { AllInside(g, t, c); }
  }

  /** The order of the loops over a grid: z, then y, then x. */
  predicate Before(c: Coord, d: Coord)
  {
    c.z < d.z || (c.z == d.z && (c.y < d.y || (c.y == d.y && c.x < d.x)))
  }

  /** The cells of grid t before d have their marks, the others what b0 says. */
  ghost predicate MarkedBefore(b: seq<bool>, b0: seq<bool>, g: Geometry, t: Grid, d: Coord)
  {
    && |b| == |b0| == NumCells(g)
    && forall c {:trigger At(g, c)} :: InDomain(g, c) ==> (b[At(g, c)] <==> if Inside(t, c) && Before(c, d) then NearOutside(g, t, c) else b0[At(g, c)])
  }

  lemma MarkNext(b: seq<bool>, b0: seq<bool>, b': seq<bool>, g: Geometry, t: Grid, d: Coord)
    requires InDomain(g, d) && Inside(t, d) && MarkedBefore(b, b0, g, t, d) && |b'| == |b| && (b'[At(g, d)] <==> NearOutside(g, t, d))
    requires forall k :: 0 <= k < |b| && k != At(g, d) ==> b'[k] == b[k]
    ensures MarkedBefore(b', b0, g, t, Coord(d.x + 1, d.y, d.z))
  {
    hide NearOutside, At;
    forall c | InDomain(g, c)
      ensures b'[At(g, c)] <==> if Inside(t, c) && Before(c, Coord(d.x + 1, d.y, d.z)) then NearOutside(g, t, c) else b0[At(g, c)]
    {
      if c != d && At(g, c) == At(g, d) { AtInjective(g, c, d); }
    }
  }

  /** Between two cells with no cell of the grid in between nothing is left to mark. */
  lemma MarkSkip(b: seq<bool>, b0: seq<bool>, g: Geometry, t: Grid, d: Coord, d': Coord)
    requires MarkedBefore(b, b0, g, t, d)
    requires forall c :: Inside(t, c) ==> (Before(c, d) <==> Before(c, d'))
    ensures MarkedBefore(b, b0, g, t, d')
  {
    hide NearOutside, At;
  }

  ghost predicate GridInDomain(g: Geometry, t: Grid)
  {
    0 <= t.sx <= t.ex <= g.nx && 0 <= t.sy <= t.ey <= g.ny && 0 <= t.sz <= t.ez <= g.nz
  }

  /** The loops over the cells of one grid. */
  method MarkGrid(border: array<bool>, g: Geometry, t: Grid)
    requires g.nx > 0 && g.ny > 0 && g.nz > 0 && border.Length == NumCells(g) && GridInDomain(g, t)
    modifies border
    ensures MarkedBefore(border[..], old(border[..]), g, t, Coord(t.sx, t.sy, t.ez))
  {
    hide NearOutside, At, MarkedBefore;
    ghost var b0 := border[..];
    NothingMarked(b0, g, t);
    var iz := t.sz;
    while iz < t.ez
      invariant t.sz <= iz <= t.ez && MarkedBefore(border[..], b0, g, t, Coord(t.sx, t.sy, iz))
    {
      var iy := t.sy;
      while iy < t.ey
        invariant t.sy <= iy <= t.ey && MarkedBefore(border[..], b0, g, t, Coord(t.sx, iy, iz))
      {
        var ix := t.sx;
        while ix < t.ex
          invariant t.sx <= ix <= t.ex && MarkedBefore(border[..], b0, g, t, Coord(ix, iy, iz))
        {
          ghost var b := border[..];
          MarkCell(border, g, t, Coord(ix, iy, iz));
          MarkNext(b, b0, border[..], g, t, Coord(ix, iy, iz));
          ix := ix + 1;
        }
        MarkSkip(border[..], b0, g, t, Coord(ix, iy, iz), Coord(t.sx, iy + 1, iz));
        iy := iy + 1;
      }
      MarkSkip(border[..], b0, g, t, Coord(t.sx, iy, iz), Coord(t.sx, t.sy, iz + 1));
      iz := iz + 1;
    }
  }

  lemma NothingMarked(b: seq<bool>, g: Geometry, t: Grid)
    requires |b| == NumCells(g)
    ensures MarkedBefore(b, b, g, t, Coord(t.sx, t.sy, t.sz))
  {
    hide NearOutside, At;
  }

  lemma GridsInDomain(grids: seq<Grid>, g: Geometry, XDIVS: nat, ZDIVS: nat, k: nat)
    requires Partitioned(grids, g, XDIVS, ZDIVS) && k < |grids|
    ensures GridInDomain(g, grids[k])
  {
    hide Cut;
    ColumnBounds(k, XDIVS, ZDIVS);
    var i, j := k / ZDIVS, k % ZDIVS;
    CutEnds(g.nx, XDIVS);
    CutEnds(g.nz, ZDIVS);
    CutMonotone(g.nx, XDIVS, 0, i);
    CutGrows(g.nx, XDIVS, i);
    CutMonotone(g.nx, XDIVS, i + 1, XDIVS);
    CutMonotone(g.nz, ZDIVS, 0, j);
    CutGrows(g.nz, ZDIVS, j);
    CutMonotone(g.nz, ZDIVS, j + 1, ZDIVS);
  }

  /** A cell is on the border if a neighbour belongs to another thread. */
  ghost predicate OnBorder(grids: seq<Grid>, g: Geometry, XDIVS: nat, ZDIVS: nat, c: Coord)
    requires Partitioned(grids, g, XDIVS, ZDIVS) && InDomain(g, c)
  {
    exists d :: InDomain(g, d) && Adjacent(c, d) && OwnerOf(grids, g, XDIVS, ZDIVS, d) != OwnerOf(grids, g, XDIVS, ZDIVS, c)
  }

  lemma OutsideIsElsewhere(grids: seq<Grid>, g: Geometry, XDIVS: nat, ZDIVS: nat, c: Coord)
    requires Partitioned(grids, g, XDIVS, ZDIVS) && InDomain(g, c)
    ensures NearOutside(g, grids[OwnerOf(grids, g, XDIVS, ZDIVS, c)], c) <==> OnBorder(grids, g, XDIVS, ZDIVS, c)
  {
    hide Partitioned, OwnerOf, Inside;
    var k := OwnerOf(grids, g, XDIVS, ZDIVS, c);
    forall d | InDomain(g, d) ensures Inside(grids[k], d) <==> k == OwnerOf(grids, g, XDIVS, ZDIVS, d) {
      ExactCover(grids, g, XDIVS, ZDIVS, d, k);
    }
  }

  /** The cells of the first i grids have their marks. */
  ghost predicate GridsMarked(b: seq<bool>, grids: seq<Grid>, g: Geometry, XDIVS: nat, ZDIVS: nat, i: nat)
    requires Partitioned(grids, g, XDIVS, ZDIVS)
  {
    && |b| == NumCells(g)
    && forall c {:trigger At(g, c)} :: InDomain(g, c) && OwnerOf(grids, g, XDIVS, ZDIVS, c) < i ==> (b[At(g, c)] <==> OnBorder(grids, g, XDIVS, ZDIVS, c))
  }

  lemma NextGridMarked(b0: seq<bool>, b: seq<bool>, grids: seq<Grid>, g: Geometry, XDIVS: nat, ZDIVS: nat, i: nat)
    requires Partitioned(grids, g, XDIVS, ZDIVS) && i < |grids| && GridsMarked(b0, grids, g, XDIVS, ZDIVS, i)
    requires MarkedBefore(b, b0, g, grids[i], Coord(grids[i].sx, grids[i].sy, grids[i].ez))
    ensures GridsMarked(b, grids, g, XDIVS, ZDIVS, i + 1)
  {
    hide Partitioned, OwnerOf, OnBorder, NearOutside, At;
    forall c | InDomain(g, c) && OwnerOf(grids, g, XDIVS, ZDIVS, c) < i + 1 ensures b[At(g, c)] <==> OnBorder(grids, g, XDIVS, ZDIVS, c) {
      ExactCover(grids, g, XDIVS, ZDIVS, c, i);
      if OwnerOf(grids, g, XDIVS, ZDIVS, c) == i {
        OutsideIsElsewhere(grids, g, XDIVS, ZDIVS, c);
      }
    }
  }

  /** All of the border computation: exactly the cells with a neighbour of another thread are marked. */
  method Border(g: Geometry, grids: seq<Grid>, XDIVS: nat, ZDIVS: nat) returns (border: array<bool>)
    requires Partitioned(grids, g, XDIVS, ZDIVS) && g.ny > 0
    ensures border.Length == NumCells(g)
    ensures forall c {:trigger At(g, c)} :: InDomain(g, c) ==> (border[At(g, c)] <==> OnBorder(grids, g, XDIVS, ZDIVS, c))
  {
    hide OwnerOf, OnBorder, NearOutside, At, MarkedBefore, GridInDomain;
    border := new bool[NumCells(g)];
    var i := 0;
    while i < |grids|
      invariant 0 <= i <= |grids| && GridsMarked(border[..], grids, g, XDIVS, ZDIVS, i)
    {
      ghost var b0 := border[..];
      GridsInDomain(grids, g, XDIVS, ZDIVS, i);
      MarkGrid(border, g, grids[i]);
      NextGridMarked(b0, border[..], grids, g, XDIVS, ZDIVS, i);
      i := i + 1;
    }
  }

  /** What the locking relies on: whoever reaches a cell that is not on the border from a cell next to it is its own thread. */
  lemma InteriorIsPrivate(grids: seq<Grid>, g: Geometry, XDIVS: nat, ZDIVS: nat, c: Coord, d: Coord)
    requires Partitioned(grids, g, XDIVS, ZDIVS) && InDomain(g, c) && InDomain(g, d) && Adjacent(c, d) && !OnBorder(grids, g, XDIVS, ZDIVS, d)
    ensures OwnerOf(grids, g, XDIVS, ZDIVS, c) == OwnerOf(grids, g, XDIVS, ZDIVS, d)
  {
    assert Adjacent(d, c);
  }
}
