/** The databases a tree is built from, and the loop of FPArray_scan2_DB that links the hot nodes, pushing
  * their weights up to their parents.
  */
module FpLinking {
  import opened Common
  import opened HotBits
  import opened Transactions
  import opened Sums
  import opened FpShape
  import opened FpInsertion

  /** A transaction as the tree sees it: its hot items as a bitmask, the others in ascending order. */
  datatype HotTrans = HotTrans(mask: nat, rest: seq<nat>, weight: nat)

  function Flat(t: HotTrans): Trans { Trans(Bits(t.mask) + t.rest, t.weight) }

  function FlatAll(db: seq<HotTrans>): (r: seq<Trans>)
    ensures |r| == |db| && forall k :: 0 <= k < |db| ==> r[k] == Flat(db[k])
  {
    if db == [] then [] else FlatAll(Init(db)) + [Flat(Last(db))]
  }

  ghost predicate TransOk(t: HotTrans, numHot: nat, itemno: nat)
  {
    && t.mask < Pow2(numHot) && t.weight > 0 && Ascending(t.rest)
    && (forall i :: 0 <= i < |t.rest| ==> numHot <= t.rest[i] < itemno)
  }

  ghost predicate DbOk(db: seq<HotTrans>, numHot: nat, itemno: nat)
  {
    forall k :: 0 <= k < |db| ==> TransOk(db[k], numHot, itemno)
  }

  /** Weight of the transactions whose bitmask settles on m once the masks above i are processed. */
  function SettledWeight(db: seq<HotTrans>, m: nat, i: nat): nat
  {
    if db == [] then 0
    else SettledWeight(Init(db), m, i) + if Settle(Last(db).mask, i) == m then Last(db).weight else 0
  }

  lemma SettledAppend(db: seq<HotTrans>, t: HotTrans, m: nat, i: nat)
    ensures SettledWeight(db + [t], m, i) == SettledWeight(db, m, i) + if Settle(t.mask, i) == m then t.weight else 0
  {
    assert Init(db + [t]) == db;
  }

  lemma FlatAppend(db: seq<HotTrans>, t: HotTrans)
    ensures FlatAll(db + [t]) == FlatAll(db) + [Flat(t)]
  {
    assert Init(db + [t]) == db;
  }

  /** Processing index i hands its weight to its parent. */
  lemma {:induction false} SettledStep(db: seq<HotTrans>, m: nat, i: nat)
    requires i > 0
    ensures SettledWeight(db, m, i - 1) == if m == i then 0 else
      SettledWeight(db, m, i) + if m == ClearTop(i) then SettledWeight(db, i, i) else 0
  {
    ClearTopValue(i);
    if db != [] {
      SettledStep(Init(db), m, i);
      SettleStep(Last(db).mask, i);
    }
  }

  /** By then everything below the hot node i has arrived there. */
  lemma {:induction false} SettledIsPrefixWeight(db: seq<HotTrans>, i: nat, numHot: nat, itemno: nat)
    requires DbOk(db, numHot, itemno) && i < Pow2(numHot)
    ensures SettledWeight(db, i, i) == PrefixWeight(FlatAll(db), Bits(i))
  {
    if db != [] {
      SettledIsPrefixWeight(Init(db), i, numHot, itemno);
      var t := Last(db);
      SettleIsPrefix(t.mask, i);
      if Bits(i) <= Bits(t.mask) + t.rest && |Bits(i)| > |Bits(t.mask)| {
        MaskIsHot(i, numHot, |Bits(t.mask)|);
        assert false;
      }
    }
  }

  /** The weights of the cold paths are complete as soon as all transactions are inserted. */
  ghost predicate ColdCountsOk(ns: seq<Fnode>, sh: Shape, db: seq<HotTrans>, numHot: nat)
  {
    forall p :: Cold(p, numHot) ==>
      Cnt(ns, sh, p) == PrefixWeight(FlatAll(db), p) && (p in sh.at <==> Cnt(ns, sh, p) > 0)
  }

  /** hashtable, while the masks above i are already linked and removed from it. */
  ghost predicate LinkIndexOk(ht: seq<int>, sh: Shape, numHot: nat, i: nat)
  {
    && |ht| == Pow2(numHot)
    && (forall m :: 0 <= m < |ht| ==> ht[m] == if m <= i && Bits(m) in sh.at then sh.at[Bits(m)] else NULL)
  }

  ghost predicate HotCountsOk(hc: seq<nat>, ht: seq<int>, db: seq<HotTrans>, i: nat)
  {
    && |hc| == |ht|
    && (forall m :: 0 <= m < |hc| ==> hc[m] == if m <= i then SettledWeight(db, m, i) else 0)
    && (forall m :: 0 <= m < |hc| ==> (ht[m] != NULL <==> m == 0 || hc[m] > 0))
  }

  ghost predicate HotDone(ns: seq<Fnode>, sh: Shape, db: seq<HotTrans>, numHot: nat, i: nat)
  {
    forall m :: i < m < Pow2(numHot) ==>
      && Cnt(ns, sh, Bits(m)) == PrefixWeight(FlatAll(db), Bits(m))
      && (Bits(m) in sh.at <==> Cnt(ns, sh, Bits(m)) > 0)
      && (Bits(m) in sh.at ==> sh.at[Bits(m)] < |sh.par| && sh.par[sh.at[Bits(m)]] != NULL)
  }

  ghost predicate HotTodo(ns: seq<Fnode>, sh: Shape, ht: seq<int>, i: nat)
  {
    forall m :: 0 < m <= i && m < |ht| && ht[m] != NULL ==>
      0 <= ht[m] < |ns| == |sh.par| && sh.par[ht[m]] == NULL && ns[ht[m]].itemname == TopBit(m)
  }

  ghost predicate PathsKnown(sh: Shape, numHot: nat)
  {
    forall p :: p in sh.at && p != [] && !Cold(p, numHot) ==> exists m :: 0 < m < Pow2(numHot) && p == Bits(m)
  }

  /** The finished prefix tree of a database: one node per prefix of a transaction, counting its weight. */
  ghost predicate PrefixTree(ns: seq<Fnode>, sh: Shape, db: seq<Trans>, itemno: nat)
  {
    && Linked(ns, sh) && |ns| > 0 && sh.path[0] == []
    && (forall n :: 0 < n < |ns| ==> sh.par[n] != NULL)
    && (forall n, i :: 0 <= n < |ns| && 0 <= i < |sh.path[n]| ==> sh.path[n][i] < itemno)
    && (forall p :: p in sh.at <==> p == [] || PrefixWeight(db, p) > 0)
    && (forall n :: 0 < n < |ns| ==> ns[n].count == PrefixWeight(db, sh.path[n]))
  }

  lemma {:induction false} PrefixOfBits(m: nat, p: seq<nat>) returns (m': nat)
    requires p <= Bits(m)
    ensures m' <= m && Bits(m') == p
  {
    if p == Bits(m) {
      m' := m;
    } else {
      ClearTopValue(m);
      assert p == Bits(ClearTop(m))[..|p|];
      m' := PrefixOfBits(ClearTop(m), p);
    }
  }

  /** A prefix some transaction has is a hot path or a cold one. */
  lemma {:induction false} SeenPrefix(db: seq<HotTrans>, p: seq<nat>, numHot: nat, itemno: nat)
    requires DbOk(db, numHot, itemno) && PrefixWeight(FlatAll(db), p) > 0 && p != [] && !Cold(p, numHot)
    ensures exists m :: 0 < m < Pow2(numHot) && p == Bits(m)
  {
    var t := Last(db);
    if p <= Flat(t).items {
      if |p| > |Bits(t.mask)| {
        assert false;
      }
      assert p <= Bits(t.mask);
      var m := PrefixOfBits(t.mask, p);
    } else {
      SeenPrefix(Init(db), p, numHot, itemno);
    }
  }

  /** When the linking loop is through, the tree is the prefix tree of the database. */
  lemma LinkingDone(ns: seq<Fnode>, sh: Shape, db: seq<HotTrans>, numHot: nat, itemno: nat)
    requires NodesOk(ns, sh, numHot, itemno) && DbOk(db, numHot, itemno)
    requires ColdCountsOk(ns, sh, db, numHot) && HotDone(ns, sh, db, numHot, 0) && PathsKnown(sh, numHot)
    ensures PrefixTree(ns, sh, FlatAll(db), itemno)
  {
    forall n | 0 <= n < |ns| ensures sh.path[n] in sh.at && sh.at[sh.path[n]] == n { assert NodeOk(ns, sh, n); }
    forall p | p != [] ensures p in sh.at <==> PrefixWeight(FlatAll(db), p) > 0
                       ensures p in sh.at ==> ns[sh.at[p]].count == PrefixWeight(FlatAll(db), p) && sh.par[sh.at[p]] != NULL {
      if !Cold(p, numHot) {
        if PrefixWeight(FlatAll(db), p) > 0 { SeenPrefix(db, p, numHot, itemno); }
        if p in sh.at { assert exists m :: 0 < m < Pow2(numHot) && p == Bits(m); }
      }
    }
    forall n | 0 < n < |ns| ensures sh.path[n] != [] {
      assert sh.at[sh.path[0]] == 0;
    }
  }

  lemma HotIsNotCold(m: nat, numHot: nat)
    requires m < Pow2(numHot)
    ensures !Cold(Bits(m), numHot)
  {
    if m > 0 { MaskIsHot(m, numHot, |Bits(m)| - 1); }
  }

  /** Creating a hot node on demand: the structure, the index and the slots. */
  lemma NewHotStructure(ns: seq<Fnode>, sh: Shape, ht: seq<int>, m: nat, i: nat, numHot: nat, itemno: nat, data: nat)
    requires NodesOk(ns, sh, numHot, itemno) && LinkIndexOk(ht, sh, numHot, i)
    requires 0 < m <= i && m < |ht| && ht[m] == NULL && SlotsOk(data, ht, sh, 0)
    ensures NodesOk(NewHot(ns, m), ShapeNewHot(sh, m), numHot, itemno)
    ensures LinkIndexOk(ht[m := |ns|], ShapeNewHot(sh, m), numHot, i)
    ensures SlotsOk(data, ht[m := |ns|], ShapeNewHot(sh, m), 0)
  {
    NewHotNodes(ns, sh, m, numHot, itemno);
    hide NodesOk, Bits, Pow2;
    OtherBits(m);
    NewHotSlots(ns, sh, ht, m, data);
  }

  lemma NewHotNodes(ns: seq<Fnode>, sh: Shape, m: nat, numHot: nat, itemno: nat)
    requires NodesOk(ns, sh, numHot, itemno) && 0 < m < Pow2(numHot) && Bits(m) !in sh.at
    ensures NodesOk(NewHot(ns, m), ShapeNewHot(sh, m), numHot, itemno)
  {
    hide Bits, Pow2;
    NewHotLinked(ns, sh, m);
    HotIsNotCold(m, numHot);
    forall j | 0 <= j < |Bits(m)| ensures Bits(m)[j] < itemno { MaskIsHot(m, numHot, j); }
  }

  lemma NewHotSlots(ns: seq<Fnode>, sh: Shape, ht: seq<int>, m: nat, data: nat)
    requires |ns| == |sh.path| && 0 < m < |ht| && ht[m] == NULL && SlotsOk(data, ht, sh, 0)
    ensures SlotsOk(data, ht[m := |ns|], ShapeNewHot(sh, m), 0)
  {
    LeafDepthsNewHot(sh, m);
    var d := HotDepths(ht);
    assert HotDepths(ht[m := |ns|]) == d[m := |Bits(m)|];
    SumUpdate(d, m, |Bits(m)|);
  }

  lemma OtherBits(m: nat)
    ensures forall m': nat :: m' != m ==> Bits(m') != Bits(m)
  {
    forall m': nat | m' != m ensures Bits(m') != Bits(m) {
      if Bits(m') == Bits(m) { BitsInjective(m', m); }
    }
  }

  lemma NewHotBooks(ns: seq<Fnode>, sh: Shape, m: nat, numHot: nat, itemno: nat, nodenum: seq<nat>, ft: seq<seq<int>>)
    requires Sized(ns, sh) && 0 < m < Pow2(numHot) && Bits(m) !in sh.at
    requires NodenumOk(nodenum, ns, sh, itemno) && FastOk(ft, sh, numHot, itemno)
    ensures NodenumOk(nodenum, NewHot(ns, m), ShapeNewHot(sh, m), itemno)
    ensures FastOk(ft, ShapeNewHot(sh, m), numHot, itemno)
  {
    forall x: nat ensures Sum(LinkedWith(NewHot(ns, m), ShapeNewHot(sh, m), x)) == Sum(LinkedWith(ns, sh, x)) {
      LinkedWithNewHot(ns, sh, m, x);
    }
    HotIsNotCold(m, numHot);
    forall m': nat, x: nat | x >= numHot ensures Bits(m') + [x] != Bits(m) {
      assert Last(Bits(m') + [x]) == x;
    }
  }

  /** Creating a hot node shows no new count to anybody. */
  lemma NewHotCounts(ns: seq<Fnode>, sh: Shape, ht: seq<int>, m: nat, i: nat, numHot: nat, itemno: nat, db: seq<HotTrans>)
    requires NodesOk(ns, sh, numHot, itemno) && LinkIndexOk(ht, sh, numHot, i)
    requires 0 < m <= i && m < |ht| && ht[m] == NULL
    requires HotTodo(ns, sh, ht, i) && PathsKnown(sh, numHot) && HotDone(ns, sh, db, numHot, i)
    ensures forall p :: Cnt(NewHot(ns, m), ShapeNewHot(sh, m), p) == Cnt(ns, sh, p)
    ensures forall p :: p in ShapeNewHot(sh, m).at <==> p in sh.at || p == Bits(m)
    ensures HotTodo(NewHot(ns, m), ShapeNewHot(sh, m), ht[m := |ns|], i)
    ensures PathsKnown(ShapeNewHot(sh, m), numHot)
    ensures HotDone(NewHot(ns, m), ShapeNewHot(sh, m), db, numHot, i)
  {
    assert Bits(m) !in sh.at && Sized(ns, sh);
    hide NodesOk, HotTodo, PathsKnown;
    forall p ensures Cnt(NewHot(ns, m), ShapeNewHot(sh, m), p) == Cnt(ns, sh, p) { NewHotCnt(ns, sh, m, p, numHot, itemno); }
    NewHotTodo(ns, sh, ht, m, i);
    NewHotPaths(sh, m, numHot);
    OtherBits(m);
    hide Cnt, NewHot, LinkIndexOk, TopBit, Bits, Pow2;
  }

  lemma NewHotCnt(ns: seq<Fnode>, sh: Shape, m: nat, p: seq<nat>, numHot: nat, itemno: nat)
    requires NodesOk(ns, sh, numHot, itemno) && m > 0 && Bits(m) !in sh.at
    ensures Cnt(NewHot(ns, m), ShapeNewHot(sh, m), p) == Cnt(ns, sh, p)
  {
    hide NodeOk;
  }

  lemma NewHotTodo(ns: seq<Fnode>, sh: Shape, ht: seq<int>, m: nat, i: nat)
    requires Sized(ns, sh) && 0 < m < |ht| && HotTodo(ns, sh, ht, i)
    ensures HotTodo(NewHot(ns, m), ShapeNewHot(sh, m), ht[m := |ns|], i)
  {
  }

  lemma NewHotPaths(sh: Shape, m: nat, numHot: nat)
    requires 0 < m < Pow2(numHot) && PathsKnown(sh, numHot)
    ensures PathsKnown(ShapeNewHot(sh, m), numHot)
  {
  }

  /** hot_node_count after index i has been processed. */
  function PushUp(hc: seq<nat>, i: nat): seq<nat>
    requires 0 < i < |hc| && ClearTop(i) < |hc|
  {
    hc[ClearTop(i) := hc[ClearTop(i)] + hc[i]][i := 0]
  }

  lemma PushUpCounts(hc: seq<nat>, ht: seq<int>, db: seq<HotTrans>, i: nat)
    requires |hc| == |ht| && 0 < i < |hc| && ClearTop(i) < i
    requires forall m :: 0 <= m < |hc| ==> hc[m] == if m <= i then SettledWeight(db, m, i) else 0
    requires forall m :: 0 <= m < |hc| && m != ClearTop(i) ==> (ht[m] != NULL <==> m == 0 || hc[m] > 0)
    requires ht[ClearTop(i)] != NULL && ht[i] != NULL
    ensures HotCountsOk(PushUp(hc, i), ht[i := NULL], db, i - 1)
  {
    forall m | 0 <= m < |hc| ensures PushUp(hc, i)[m] == if m <= i - 1 then SettledWeight(db, m, i - 1) else 0 {
      SettledStep(db, m, i);
    }
  }

  lemma SkipCounts(hc: seq<nat>, ht: seq<int>, ns: seq<Fnode>, sh: Shape, db: seq<HotTrans>, i: nat, numHot: nat, itemno: nat)
    requires HotCountsOk(hc, ht, db, i) && 0 < i < |ht| && ht[i] == NULL
    requires LinkIndexOk(ht, sh, numHot, i) && DbOk(db, numHot, itemno) && HotDone(ns, sh, db, numHot, i)
    ensures HotCountsOk(hc, ht, db, i - 1) && LinkIndexOk(ht, sh, numHot, i - 1) && HotDone(ns, sh, db, numHot, i - 1)
  {
    SettledIsPrefixWeight(db, i, numHot, itemno);
    forall m | 0 <= m < |hc| ensures hc[m] == if m <= i - 1 then SettledWeight(db, m, i - 1) else 0 {
      SettledStep(db, m, i);
    }
  }

  /** The nodes after hot node c = hashtable[i] has been linked below p with its final count. */
  function LinkNode(ns: seq<Fnode>, p: nat, c: nat, w: nat): seq<Fnode>
    requires p < |ns| && c < |ns|
  {
    var ns1 := AttachFirst(ns, p, c);
    ns1[c := ns1[c].(count := w)]
  }

  /** Hot node c with bitmask i is about to be linked below the node p of its parent bitmask. */
  ghost predicate LinkPair(ht: seq<int>, i: nat, p: nat, c: nat)
  {
    0 < i < |ht| && ClearTop(i) < i && ht[ClearTop(i)] == p && ht[i] == c
  }

  lemma LinkStructure(ns: seq<Fnode>, sh: Shape, ht: seq<int>, i: nat, p: nat, c: nat, numHot: nat, itemno: nat, w: nat)
    requires NodesOk(ns, sh, numHot, itemno) && LinkIndexOk(ht, sh, numHot, i) && HotTodo(ns, sh, ht, i)
    requires LinkPair(ht, i, p, c)
    ensures Attachable(ns, sh, p, c) && p < |sh.kids| && c < |sh.par|
    ensures i < Pow2(numHot) && |ht| == Pow2(numHot)
    ensures sh.path[c] == Bits(i) && sh.path[p] == Bits(ClearTop(i)) && |Bits(i)| == |Bits(ClearTop(i))| + 1
    ensures NodesOk(LinkNode(ns, p, c, w), ShapeAttach(sh, p, c), numHot, itemno)
    ensures LinkIndexOk(ht[i := NULL], ShapeAttach(sh, p, c), numHot, i - 1)
  {
    assert sh.path[p] == Bits(ClearTop(i)) && sh.path[c] == Bits(i);
    AttachLinked(ns, sh, p, c);
    CountsDoNotMatter(AttachFirst(ns, p, c), LinkNode(ns, p, c, w), ShapeAttach(sh, p, c));
  }

  lemma LinkCnt(ns: seq<Fnode>, sh: Shape, p: nat, c: nat, w: nat)
    requires Attachable(ns, sh, p, c)
    ensures forall q :: Cnt(LinkNode(ns, p, c, w), ShapeAttach(sh, p, c), q) == if q == sh.path[c] then w else Cnt(ns, sh, q)
    ensures forall q :: q in ShapeAttach(sh, p, c).at <==> q in sh.at
    ensures forall n :: 0 <= n < |ns| ==> ShapeAttach(sh, p, c).par[n] == if n == c then p else sh.par[n]
    ensures sh.path[c] in sh.at && sh.at[sh.path[c]] == c
  {
    assert NodeOk(ns, sh, c);
  }

  lemma LinkColdCounts(ns: seq<Fnode>, sh: Shape, i: nat, p: nat, c: nat, numHot: nat, w: nat, db: seq<HotTrans>)
    requires Attachable(ns, sh, p, c) && sh.path[c] == Bits(i) && i < Pow2(numHot)
    requires ColdCountsOk(ns, sh, db, numHot)
    ensures ColdCountsOk(LinkNode(ns, p, c, w), ShapeAttach(sh, p, c), db, numHot)
  {
    HotIsNotCold(i, numHot);
    LinkCnt(ns, sh, p, c, w);
  }

  lemma LinkHotCounts(ns: seq<Fnode>, sh: Shape, i: nat, p: nat, c: nat, numHot: nat, itemno: nat, w: nat, db: seq<HotTrans>)
    requires Attachable(ns, sh, p, c) && sh.path[c] == Bits(i) && 0 < i < Pow2(numHot)
    requires DbOk(db, numHot, itemno) && w == SettledWeight(db, i, i) && w > 0
    requires HotDone(ns, sh, db, numHot, i)
    ensures HotDone(LinkNode(ns, p, c, w), ShapeAttach(sh, p, c), db, numHot, i - 1)
  {
    SettledIsPrefixWeight(db, i, numHot, itemno);
    LinkCnt(ns, sh, p, c, w);
    hide Attachable, LinkNode, AttachFirst, DbOk;
    forall m: nat | m != i ensures Bits(m) != Bits(i) {
      if Bits(m) == Bits(i) { BitsInjective(m, i); }
    }
  }

  lemma LinkTodo(ns: seq<Fnode>, sh: Shape, ht: seq<int>, i: nat, p: nat, c: nat, numHot: nat, w: nat)
    requires Attachable(ns, sh, p, c) && LinkIndexOk(ht, sh, numHot, i) && HotTodo(ns, sh, ht, i)
    requires LinkPair(ht, i, p, c) && PathsKnown(sh, numHot)
    ensures HotTodo(LinkNode(ns, p, c, w), ShapeAttach(sh, p, c), ht[i := NULL], i - 1)
    ensures PathsKnown(ShapeAttach(sh, p, c), numHot)
  {
    assert sh.path[c] == Bits(i);
    forall m | 0 < m < i && ht[m] != NULL ensures ht[m] != c {
      assert sh.path[ht[m]] == Bits(m);
      if Bits(m) == Bits(i) { BitsInjective(m, i); }
    }
  }

  /** One more node of this item. */
  lemma LinkNodenum(ns: seq<Fnode>, sh: Shape, p: nat, c: nat, itemno: nat, w: nat, nodenum: seq<nat>, item: nat)
    requires Attachable(ns, sh, p, c) && ns[c].itemname == item < itemno && NodenumOk(nodenum, ns, sh, itemno)
    ensures item < |nodenum|
    ensures NodenumOk(nodenum[item := nodenum[item] + 1], LinkNode(ns, p, c, w), ShapeAttach(sh, p, c), itemno)
  {
    var ns1, sh1 := AttachFirst(ns, p, c), ShapeAttach(sh, p, c);
    forall x: nat ensures Sum(LinkedWith(LinkNode(ns, p, c, w), sh1, x))
                       == Sum(LinkedWith(ns, sh, x)) + if x == item then 1 else 0 {
      LinkedWithAttach(ns, sh, p, c, x);
      assert LinkedWith(LinkNode(ns, p, c, w), sh1, x) == LinkedWith(ns1, sh1, x);
    }
  }

  /** The branch that loses its place as first child now needs a hot path of its own. */
  lemma LinkSlots(ns: seq<Fnode>, sh: Shape, ht: seq<int>, i: nat, p: nat, c: nat, data: nat)
    requires Attachable(ns, sh, p, c) && LinkPair(ht, i, p, c)
    requires |sh.path[p]| + 1 == |Bits(i)| && SlotsOk(data, ht, sh, 0)
    ensures SlotsOk(data + if ns[p].leftchild == NULL then 1 else |Bits(i)|, ht[i := NULL], ShapeAttach(sh, p, c), 0)
  {
    assert NodeOk(ns, sh, p);
    if sh.kids[p] != [] { assert KidOk(ns, sh, p, 0); }
    LeafDepthsAttach(sh, p, c);
    assert HotDepths(ht[i := NULL]) == HotDepths(ht)[i := 0];
    SumUpdate(HotDepths(ht), i, 0);
  }

  /** Adding a transaction to hot_node_count, while no index has been processed yet. */
  lemma CountMask(hc: seq<nat>, ht: seq<int>, ht': seq<int>, db: seq<HotTrans>, t: HotTrans, i: nat)
    requires HotCountsOk(hc, ht, db, i) && |ht| == |ht'| == i + 1 && t.mask <= i && t.weight > 0
    requires forall m :: 0 <= m < |ht| ==> (ht'[m] != NULL <==> ht[m] != NULL || m == t.mask)
    ensures HotCountsOk(hc[t.mask := hc[t.mask] + t.weight], ht', db + [t], i)
  {
    forall m | 0 <= m < |hc| ensures SettledWeight(db + [t], m, i) == hc[m] + if m == t.mask then t.weight else 0 {
      SettledAppend(db, t, m, i);
    }
  }

  /** What the insertion of t has to do to the cold counts, and does. */
  lemma CountCold(ns0: seq<Fnode>, sh0: Shape, ns: seq<Fnode>, sh: Shape, db: seq<HotTrans>, t: HotTrans, numHot: nat, itemno: nat)
    requires ColdCountsOk(ns0, sh0, db, numHot) && TransOk(t, numHot, itemno)
    requires forall p :: Cnt(ns, sh, p) == Cnt(ns0, sh0, p) + if OnWay(Flat(t).items, |Bits(t.mask)|, |Flat(t).items|, p) then t.weight else 0
    requires forall p :: Cold(p, numHot) ==> (p in sh.at <==> p in sh0.at || OnWay(Flat(t).items, |Bits(t.mask)|, |Flat(t).items|, p))
    ensures ColdCountsOk(ns, sh, db + [t], numHot)
  {
    var full, h := Flat(t).items, |Bits(t.mask)|;
    FlatAppend(db, t);
    forall p | Cold(p, numHot) ensures p <= full <==> OnWay(full, h, |full|, p)
                               ensures PrefixWeight(FlatAll(db + [t]), p) == PrefixWeight(FlatAll(db), p) + if p <= full then t.weight else 0 {
      PrefixWeightAppend(FlatAll(db), Flat(t), p);
      if p <= full && |p| <= h {
        MaskIsHot(t.mask, numHot, |p| - 1);
        assert false;
      }
    }
  }

  /** A transaction without cold items, or none at all, changes no cold count. */
  lemma NoColdItems(t: HotTrans)
    requires t.rest == []
    ensures forall p :: !OnWay(Flat(t).items, |Bits(t.mask)|, |Flat(t).items|, p)
  {
  }

  /** The hot nodes are not touched by an insertion. */
  lemma TodoAfterInsert(ns0: seq<Fnode>, sh0: Shape, ns: seq<Fnode>, sh: Shape, ht: seq<int>, i: nat, full: seq<nat>, h: nat, w: nat,
                        ntype: nat, numHot: nat, itemno: nat)
    requires Inserted(ns0, sh0, ns, sh, full, h, |full|, w) && SplitAt(full, h, ntype, numHot, itemno)
    requires HotTodo(ns0, sh0, ht, i) && PathsKnown(sh0, numHot) && NodesOk(ns, sh, numHot, itemno)
    ensures HotTodo(ns, sh, ht, i) && PathsKnown(sh, numHot)
  {
    forall p | OnWay(full, h, |full|, p) ensures Cold(p, numHot) {}
  }

  /** All that TouchHot has to keep. */
  ghost predicate IndexState(ns: seq<Fnode>, sh: Shape, ht: seq<int>, ft: seq<seq<int>>, nodenum: seq<nat>, data: nat,
                             db: seq<HotTrans>, numHot: nat, itemno: nat, i: nat)
  {
    && NodesOk(ns, sh, numHot, itemno)
    && LinkIndexOk(ht, sh, numHot, i)
    && FastOk(ft, sh, numHot, itemno)
    && SlotsOk(data, ht, sh, 0)
    && NodenumOk(nodenum, ns, sh, itemno)
    && HotTodo(ns, sh, ht, i)
    && PathsKnown(sh, numHot)
    && HotDone(ns, sh, db, numHot, i)
  }

  lemma TouchHotOk(ns: seq<Fnode>, sh: Shape, ht: seq<int>, ft: seq<seq<int>>, nodenum: seq<nat>, data: nat,
                   db: seq<HotTrans>, numHot: nat, itemno: nat, i: nat, m: nat)
    requires IndexState(ns, sh, ht, ft, nodenum, data, db, numHot, itemno, i)
    requires m <= i && m < |ht|
    ensures ht[m] != NULL ==> Bits(m) in sh.at
    ensures ht[m] == NULL ==> m > 0 && IndexState(NewHot(ns, m), ShapeNewHot(sh, m), ht[m := |ns|], ft, nodenum, data, db, numHot, itemno, i)
    ensures ht[m] == NULL ==> forall p :: Cnt(NewHot(ns, m), ShapeNewHot(sh, m), p) == Cnt(ns, sh, p)
    ensures ht[m] == NULL ==> forall p :: p in ShapeNewHot(sh, m).at <==> p in sh.at || p == Bits(m)
  {
    if ht[m] == NULL {
      assert NodeOk(ns, sh, 0);
      NewHotStructure(ns, sh, ht, m, i, numHot, itemno, data);
      NewHotBooks(ns, sh, m, numHot, itemno, nodenum, ft);
      NewHotCounts(ns, sh, ht, m, i, numHot, itemno, db);
      hide Linked, NodesOk, LinkIndexOk, FastOk, SlotsOk, NodenumOk, HotTodo, PathsKnown, HotDone, NewHot, ShapeNewHot;
    }
  }

  /** Before any index is processed, all of the above is the validity of the tree. */
  lemma IndexStateIsValid(ns: seq<Fnode>, sh: Shape, ht: seq<int>, ft: seq<seq<int>>, nodenum: seq<nat>, data: nat,
                          db: seq<HotTrans>, numHot: nat, itemno: nat, i: nat)
    requires i + 1 == Pow2(numHot)
    ensures IndexState(ns, sh, ht, ft, nodenum, data, db, numHot, itemno, i) <==>
      && NodesOk(ns, sh, numHot, itemno) && IndexOk(ht, sh, numHot) && FastOk(ft, sh, numHot, itemno)
      && SlotsOk(data, ht, sh, 0) && NodenumOk(nodenum, ns, sh, itemno)
      && HotTodo(ns, sh, ht, i) && PathsKnown(sh, numHot)
  {
    hide NodesOk, FastOk, SlotsOk, NodenumOk, HotTodo, PathsKnown;
  }

  lemma SplitOfTrans(t: HotTrans, numHot: nat, itemno: nat)
    requires TransOk(t, numHot, itemno)
    ensures SplitAt(Bits(t.mask) + t.rest, |Bits(t.mask)|, t.mask, numHot, itemno)
  {
    assert (Bits(t.mask) + t.rest)[..|Bits(t.mask)|] == Bits(t.mask);
  }

  /** The counts after one whole transaction: (ns0, sh0) before, (ns1, sh1) once its hot node exists. */
  lemma TransactionCounted(ns0: seq<Fnode>, sh0: Shape, ns1: seq<Fnode>, sh1: Shape, ns: seq<Fnode>, sh: Shape,
                           db: seq<HotTrans>, t: HotTrans, numHot: nat, itemno: nat)
    requires ColdCountsOk(ns0, sh0, db, numHot) && TransOk(t, numHot, itemno)
    requires forall p :: Cnt(ns1, sh1, p) == Cnt(ns0, sh0, p)
    requires forall p :: p in sh1.at <==> p in sh0.at || p == Bits(t.mask)
    requires if t.rest == [] then ns == ns1 && sh == sh1
             else Inserted(ns1, sh1, ns, sh, Bits(t.mask) + t.rest, |Bits(t.mask)|, |Bits(t.mask) + t.rest|, t.weight)
    ensures ColdCountsOk(ns, sh, db + [t], numHot)
  {
    HotIsNotCold(t.mask, numHot);
    if t.rest == [] { NoColdItems(t); }
    CountCold(ns0, sh0, ns, sh, db, t, numHot, itemno);
  }

  lemma IndexStateSameDb(ns: seq<Fnode>, sh: Shape, ht: seq<int>, ft: seq<seq<int>>, nodenum: seq<nat>, data: nat,
                         db: seq<HotTrans>, t: HotTrans, numHot: nat, itemno: nat, i: nat)
    requires i + 1 == Pow2(numHot) && IndexState(ns, sh, ht, ft, nodenum, data, db, numHot, itemno, i)
    ensures IndexState(ns, sh, ht, ft, nodenum, data, db + [t], numHot, itemno, i)
  {
    IndexStateIsValid(ns, sh, ht, ft, nodenum, data, db, numHot, itemno, i);
    IndexStateIsValid(ns, sh, ht, ft, nodenum, data, db + [t], numHot, itemno, i);
  }

  /** The linking loop's invariant is kept by linking index i ... */
  lemma LinkOneOk(ns: seq<Fnode>, sh: Shape, ht: seq<int>, hc: seq<nat>, ft: seq<seq<int>>, nodenum: seq<nat>, data: nat,
                  db: seq<HotTrans>, numHot: nat, itemno: nat, i: nat, p: nat, c: nat)
    requires IndexState(ns, sh, ht, ft, nodenum, data, db, numHot, itemno, i) && LinkPair(ht, i, p, c)
    requires DbOk(db, numHot, itemno) && i < |hc| && hc[i] == SettledWeight(db, i, i) && hc[i] > 0
    requires ColdCountsOk(ns, sh, db, numHot)
    ensures Attachable(ns, sh, p, c) && TopBit(i) < |nodenum| && p < |sh.kids| && c < |sh.par|
    ensures IndexState(LinkNode(ns, p, c, hc[i]), ShapeAttach(sh, p, c), ht[i := NULL], ft,
                       nodenum[TopBit(i) := nodenum[TopBit(i)] + 1],
                       data + if ns[p].leftchild == NULL then 1 else |Bits(i)|, db, numHot, itemno, i - 1)
    ensures ColdCountsOk(LinkNode(ns, p, c, hc[i]), ShapeAttach(sh, p, c), db, numHot)
  {
    hide NodesOk, LinkIndexOk, FastOk, SlotsOk, NodenumOk, HotTodo, PathsKnown, HotDone, LinkNode, ShapeAttach, ColdCountsOk, DbOk;
    var w := hc[i];
    LinkStructure(ns, sh, ht, i, p, c, numHot, itemno, w);
    LinkTodo(ns, sh, ht, i, p, c, numHot, w);
    LinkHotCounts(ns, sh, i, p, c, numHot, itemno, w, db);
    LinkColdCounts(ns, sh, i, p, c, numHot, w, db);
    TopItem(ns, sh, ht, i, c, numHot, itemno);
    LinkNodenum(ns, sh, p, c, itemno, w, nodenum, TopBit(i));
    LinkSlots(ns, sh, ht, i, p, c, data);
    FastAttach(ft, sh, p, c, numHot, itemno);
  }

  lemma FastAttach(ft: seq<seq<int>>, sh: Shape, p: nat, c: nat, numHot: nat, itemno: nat)
    requires FastOk(ft, sh, numHot, itemno) && p < |sh.kids| && c < |sh.par|
    ensures FastOk(ft, ShapeAttach(sh, p, c), numHot, itemno)
  {
  }

  lemma TopItem(ns: seq<Fnode>, sh: Shape, ht: seq<int>, i: nat, c: nat, numHot: nat, itemno: nat)
    requires NodesOk(ns, sh, numHot, itemno) && HotTodo(ns, sh, ht, i) && 0 < i < |ht| == Pow2(numHot) && ht[i] == c
    ensures ns[c].itemname == TopBit(i) < itemno
  {
    MaskIsHot(i, numHot, |Bits(i)| - 1);
  }

  /** ... or by skipping it when no transaction has it. */
  lemma SkipOneOk(ns: seq<Fnode>, sh: Shape, ht: seq<int>, hc: seq<nat>, ft: seq<seq<int>>, nodenum: seq<nat>, data: nat,
                  db: seq<HotTrans>, numHot: nat, itemno: nat, i: nat)
    requires IndexState(ns, sh, ht, ft, nodenum, data, db, numHot, itemno, i) && 0 < i < |ht| && ht[i] == NULL
    requires DbOk(db, numHot, itemno) && HotCountsOk(hc, ht, db, i)
    ensures IndexState(ns, sh, ht, ft, nodenum, data, db, numHot, itemno, i - 1)
    ensures HotCountsOk(hc, ht, db, i - 1)
  {
    SkipCounts(hc, ht, ns, sh, db, i, numHot, itemno);
    assert HotTodo(ns, sh, ht, i - 1);
    hide NodesOk, LinkIndexOk, FastOk, SlotsOk, NodenumOk, HotTodo, PathsKnown, HotDone;
  }

  lemma PushUpOk(hc: seq<nat>, ht0: seq<int>, ht: seq<int>, db: seq<HotTrans>, i: nat)
    requires HotCountsOk(hc, ht0, db, i) && |ht| == |ht0| && 0 < i < |hc| && ClearTop(i) < i
    requires forall k :: 0 <= k < |ht| && k != ClearTop(i) ==> ht[k] == ht0[k]
    requires ht[ClearTop(i)] != NULL && ht[i] != NULL
    ensures HotCountsOk(PushUp(hc, i), ht[i := NULL], db, i - 1)
    ensures hc[i] == SettledWeight(db, i, i) && hc[i] > 0
  {
    PushUpCounts(hc, ht, db, i);
  }

  lemma IndexInRange(ns: seq<Fnode>, sh: Shape, ht: seq<int>, ft: seq<seq<int>>, nodenum: seq<nat>, data: nat,
                     db: seq<HotTrans>, numHot: nat, itemno: nat, i: nat)
    requires IndexState(ns, sh, ht, ft, nodenum, data, db, numHot, itemno, i)
    ensures forall m :: 0 <= m < |ht| ==> ht[m] == NULL || 0 <= ht[m] < |ns|
  {
    hide FastOk, SlotsOk, NodenumOk, HotTodo, PathsKnown, HotDone;
  }

  lemma SameColdCounts(ns0: seq<Fnode>, sh0: Shape, ns: seq<Fnode>, sh: Shape, db: seq<HotTrans>, m: nat, numHot: nat)
    requires ColdCountsOk(ns0, sh0, db, numHot) && m < Pow2(numHot)
    requires forall p :: Cnt(ns, sh, p) == Cnt(ns0, sh0, p)
    requires forall p :: p in sh.at <==> p in sh0.at || p == Bits(m)
    ensures ColdCountsOk(ns, sh, db, numHot)
  {
    HotIsNotCold(m, numHot);
    hide Cnt;
  }
}
