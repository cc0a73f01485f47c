/** What a valid FP-tree under construction satisfies, and what one step of FP_tree::insert does to it. */
module FpInsertion {
  import opened Common
  import opened HotBits
  import opened Transactions
  import opened Sums
  import opened FpShape

  const FAST_RIGHTSIB_TABLE_SIZE: nat := 16

  /** A node whose last item is not hot; all others are reached through the bitmask index. */
  predicate Cold(p: seq<nat>, numHot: nat) { p != [] && Last(p) >= numHot }

  /** The count the tree shows for a path; 0 where it has no node. */
  ghost function Cnt(ns: seq<Fnode>, sh: Shape, p: seq<nat>): nat
  {
    if p in sh.at && sh.at[p] < |ns| then ns[sh.at[p]].count else 0
  }

  /** Is p one of the nodes for items h..k of the transaction `full`? (Its first h items are hot.) */
  predicate OnWay(full: seq<nat>, h: nat, k: nat, p: seq<nat>)
    requires k <= |full|
  {
    h < |p| <= k && p == full[..|p|]
  }

  /** A transaction's items: the hot ones of its bitmask, then the others. */
  ghost predicate SplitAt(full: seq<nat>, h: nat, ntype: nat, numHot: nat, itemno: nat)
  {
    && h <= |full| && full[..h] == Bits(ntype) && ntype < Pow2(numHot)
    && (forall i :: h <= i < |full| ==> numHot <= full[i] < itemno)
  }

  /** What a partly done insertion along `full` (up to its first k items) has made of (ns0, sh0). */
  ghost predicate Inserted(ns0: seq<Fnode>, sh0: Shape, ns: seq<Fnode>, sh: Shape, full: seq<nat>, h: nat, k: nat, w: nat)
    requires k <= |full|
  {
    && (forall p :: Cnt(ns, sh, p) == Cnt(ns0, sh0, p) + if OnWay(full, h, k, p) then w else 0)
    && (forall p :: p in sh.at <==> p in sh0.at || OnWay(full, h, k, p))
    && (forall p :: p in sh0.at ==> p in sh.at && sh.at[p] == sh0.at[p])
    && |ns0| <= |ns| && |sh0.par| <= |sh.par|
    && (forall n :: 0 <= n < |ns0| ==> ns[n].itemname == ns0[n].itemname)
    && (forall n :: 0 <= n < |sh0.par| ==> sh.par[n] == sh0.par[n])
  }

  function Bumped(ns: seq<Fnode>, n: nat, w: nat): seq<Fnode>
    requires n < |ns|
  {
    ns[n := ns[n].(count := ns[n].count + w)]
  }

  lemma InsertedBump(ns0: seq<Fnode>, sh0: Shape, ns: seq<Fnode>, sh: Shape, full: seq<nat>, h: nat, k: nat, w: nat, n: nat)
    requires k < |full| && h <= k && Inserted(ns0, sh0, ns, sh, full, h, k, w)
    requires Linked(ns, sh) && n < |ns| && sh.path[n] == full[..k + 1]
    ensures Inserted(ns0, sh0, Bumped(ns, n, w), sh, full, h, k + 1, w)
    ensures Linked(Bumped(ns, n, w), sh)
  {
    CountsDoNotMatter(ns, Bumped(ns, n, w), sh);
    assert NodeOk(ns, sh, n);
    forall p ensures OnWay(full, h, k + 1, p) <==> p == full[..k + 1] || OnWay(full, h, k, p) {}
  }

  lemma InsertedAdd(ns0: seq<Fnode>, sh0: Shape, ns: seq<Fnode>, sh: Shape, full: seq<nat>, h: nat, k: nat, w: nat, n: nat)
    requires k < |full| && h <= k && Inserted(ns0, sh0, ns, sh, full, h, k, w)
    requires Linked(ns, sh) && n < |ns| && sh.path[n] == full[..k] && full[..k + 1] !in sh.at
    requires NULL <= ns[n].leftchild < |ns|
    ensures Inserted(ns0, sh0, AddKid(ns, n, full[k], w), ShapeAdd(sh, n, full[k]), full, h, k + 1, w)
  {
    assert full[..k] + [full[k]] == full[..k + 1];
    forall p ensures OnWay(full, h, k + 1, p) <==> p == full[..k + 1] || OnWay(full, h, k, p) {}
  }

  /** A non-hot child is found among its parent's children, and only there. */
  lemma ChildOfPath(ns: seq<Fnode>, sh: Shape, n: nat, item: nat)
    requires Linked(ns, sh) && n < |ns|
    requires sh.path[n] + [item] in sh.at && sh.par[sh.at[sh.path[n] + [item]]] != NULL
    ensures sh.at[sh.path[n] + [item]] in sh.kids[n]
    ensures sh.at[sh.path[n] + [item]] < |ns| && ns[sh.at[sh.path[n] + [item]]].itemname == item
  {
    var c := sh.at[sh.path[n] + [item]];
    assert NodeOk(ns, sh, c);
    var q := sh.par[c];
    assert NodeOk(ns, sh, q);
    var j :| 0 <= j < |sh.kids[q]| && sh.kids[q][j] == c;
    assert KidOk(ns, sh, q, j);
    assert sh.path[c] == sh.path[q] + [ns[c].itemname] == sh.path[n] + [item];
    assert sh.path[q] == (sh.path[q] + [ns[c].itemname])[..|sh.path[q]|] == sh.path[n];
    assert NodeOk(ns, sh, n);
  }

  /** With a non-hot node, its parent's path is in the tree too. */
  lemma PrefixClosed(ns: seq<Fnode>, sh: Shape, numHot: nat, itemno: nat, full: seq<nat>, k: nat)
    requires NodesOk(ns, sh, numHot, itemno) && k < |full| && full[k] >= numHot
    requires full[..k + 1] in sh.at
    ensures full[..k] in sh.at
  {
    var n := sh.at[full[..k + 1]];
    assert Cold(sh.path[n], numHot);
    assert NodeOk(ns, sh, n);
    var q := sh.par[n];
    var j :| 0 <= j < |sh.kids[q]| && sh.kids[q][j] == n;
    assert NodeOk(ns, sh, q);
    assert KidOk(ns, sh, q, j);
    assert sh.path[q] == sh.path[n][..k] == full[..k];
  }

  lemma NextAbsent(ns: seq<Fnode>, sh: Shape, numHot: nat, itemno: nat, full: seq<nat>, k: nat, p: nat)
    requires NodesOk(ns, sh, numHot, itemno) && k < |full| && full[..k + 1] !in sh.at
    requires forall i :: k < i < |full| ==> full[i] >= numHot
    requires p < |ns| && sh.path[p] == full[..k]
    ensures k + 1 < |full| ==> full[..k + 2] !in ShapeAdd(sh, p, full[k]).at
  {
    assert |sh.path[p] + [full[k]]| == k + 1;
    if k + 1 < |full| && full[..k + 2] in sh.at {
      PrefixClosed(ns, sh, numHot, itemno, full, k + 1);
      assert false;
    }
  }

  lemma MaskIsHot(m: nat, numHot: nat, i: nat)
    requires m < Pow2(numHot) && i < |Bits(m)|
    ensures Bits(m)[i] < numHot
  {
    BelowPow2(m, numHot);
    assert Bits(m)[i] in Bits(m);
  }

  /** A path of hot items and one other item names the bitmask. */
  lemma FirstColdItem(full: seq<nat>, h: nat, ntype: nat, numHot: nat, itemno: nat, k: nat, m: nat, x: nat)
    requires SplitAt(full, h, ntype, numHot, itemno) && k < |full| && numHot <= x && m < Pow2(numHot)
    requires Bits(m) + [x] == full[..k + 1]
    ensures k == h && m == ntype && x == full[k]
  {
    assert x == full[k] && Bits(m) == full[..k];
    hide Bits, Pow2;
    if k > h {
      assert Bits(m)[h] == full[h];
      MaskIsHot(m, numHot, h);
    } else if k < h {
      assert Bits(ntype)[k] == full[k];
      MaskIsHot(ntype, numHot, k);
    } else {
      BitsInjective(m, ntype);
    }
  }

  ghost predicate NodesOk(ns: seq<Fnode>, sh: Shape, numHot: nat, itemno: nat)
  {
    && Linked(ns, sh) && |ns| > 0 && sh.path[0] == [] && numHot <= itemno
    && (forall n, i :: 0 <= n < |ns| && 0 <= i < |sh.path[n]| ==> sh.path[n][i] < itemno)
    && (forall n :: 0 <= n < |ns| && Cold(sh.path[n], numHot) ==> sh.par[n] != NULL)
  }

  /** hashtable[m] is the node of m's hot items. */
  ghost predicate IndexOk(ht: seq<int>, sh: Shape, numHot: nat)
  {
    && |ht| == Pow2(numHot)
    && (forall m :: 0 <= m < |ht| ==> ht[m] == if Bits(m) in sh.at then sh.at[Bits(m)] else NULL)
  }

  ghost function FastEntry(sh: Shape, m: nat, x: nat, numHot: nat): int
  {
    if m < Pow2(numHot) && numHot <= x && Bits(m) + [x] in sh.at then sh.at[Bits(m) + [x]] else NULL
  }

  /** The cache entry of (m, x) is the child x of hot node m, NULL exactly when there is no such child. */
  ghost predicate FastOk(ft: seq<seq<int>>, sh: Shape, numHot: nat, itemno: nat)
  {
    && |ft| == FAST_RIGHTSIB_TABLE_SIZE
    && (forall m :: 0 <= m < |ft| ==> |ft[m]| == itemno)
    && (forall m, x :: 0 <= m < |ft| && 0 <= x < itemno ==> ft[m][x] == FastEntry(sh, m, x, numHot))
  }

  /** Every cache entry that is set is on the list that will reset it. */
  ghost predicate PatchOk(bp: seq<(nat, nat)>, ft: seq<seq<int>>, itemno: nat)
  {
    && (forall e :: e in bp ==> e.0 < |ft| && e.1 < |ft[e.0]|)
    && (forall m, x :: 0 <= m < |ft| && 0 <= x < |ft[m]| && ft[m][x] != NULL ==> (m, x) in bp)
  }

  /** The depths of the hot nodes still to be linked. */
  ghost function HotDepths(ht: seq<int>): seq<int>
  {
    seq(|ht|, m requires 0 <= m < |ht| => if ht[m] == NULL then 0 else |Bits(m)|)
  }

  /** new_data_num: the leaf depths of the tree minus the hot path above every unlinked hot node. `ahead` nodes of
    * the current insertion are already accounted for but not linked yet. */
  ghost predicate SlotsOk(newDataNum: nat, ht: seq<int>, sh: Shape, ahead: nat)
  {
    |sh.path| == |sh.kids| && newDataNum + Sum(HotDepths(ht)) == Sum(LeafDepths(sh)) + ahead
  }

  /** The only child of a node without children takes one of the slots accounted for. */
  lemma SlotsNext(ns: seq<Fnode>, sh: Shape, newDataNum: nat, ht: seq<int>, numHot: nat, itemno: nat, p: nat, item: nat, ahead: nat)
    requires NodesOk(ns, sh, numHot, itemno) && SlotsOk(newDataNum, ht, sh, ahead) && ahead > 0
    requires p < |ns| && ns[p].leftchild == NULL
    ensures SlotsOk(newDataNum, ht, ShapeAdd(sh, p, item), ahead - 1)
  {
    assert NodeOk(ns, sh, p);
    LeafDepthsAdd(sh, p, item);
  }

  ghost predicate NodenumOk(nodenum: seq<nat>, ns: seq<Fnode>, sh: Shape, itemno: nat)
  {
    && Sized(ns, sh) && |nodenum| == itemno
    && (forall x :: 0 <= x < itemno ==> nodenum[x] == Sum(LinkedWith(ns, sh, x)))
  }

  lemma NodenumBump(nodenum: seq<nat>, ns: seq<Fnode>, sh: Shape, itemno: nat, n: nat, w: nat)
    requires NodenumOk(nodenum, ns, sh, itemno) && n < |ns|
    ensures NodenumOk(nodenum, Bumped(ns, n, w), sh, itemno)
  {
    forall x: nat ensures LinkedWith(Bumped(ns, n, w), sh, x) == LinkedWith(ns, sh, x) {}
  }

  lemma NodenumAdd(nodenum: seq<nat>, ns: seq<Fnode>, sh: Shape, itemno: nat, n: nat, item: nat, w: nat)
    requires NodenumOk(nodenum, ns, sh, itemno) && item < itemno
    requires Linked(ns, sh) && n < |ns| && NULL <= ns[n].leftchild < |ns|
    ensures NodenumOk(nodenum[item := nodenum[item] + 1], AddKid(ns, n, item, w), ShapeAdd(sh, n, item), itemno)
  {
    forall x | 0 <= x < itemno ensures Sum(LinkedWith(AddKid(ns, n, item, w), ShapeAdd(sh, n, item), x))
                 == Sum(LinkedWith(ns, sh, x)) + if x == item then 1 else 0 {
      LinkedWithAdd(ns, sh, n, item, w, x);
    }
  }

  lemma NewNodeOk(ns: seq<Fnode>, sh: Shape, numHot: nat, itemno: nat, p: nat, item: nat, w: nat)
    requires NodesOk(ns, sh, numHot, itemno) && p < |ns| && item < itemno && sh.path[p] + [item] !in sh.at
    ensures NULL <= ns[p].leftchild < |ns| && Linked(ns, sh)
    ensures NodesOk(AddKid(ns, p, item, w), ShapeAdd(sh, p, item), numHot, itemno)
  {
    AddKidLinked(ns, sh, p, item, w);
  }

  /** All about one more node, for item full[k] below the node of full[..k]. */
  lemma NodeFits(ns: seq<Fnode>, sh: Shape, ht: seq<int>, nodenum: seq<nat>, numHot: nat, itemno: nat, p: nat, w: nat,
                 full: seq<nat>, h: nat, k: nat, ntype: nat, ns0: seq<Fnode>, sh0: Shape)
    requires NodesOk(ns, sh, numHot, itemno) && IndexOk(ht, sh, numHot) && NodenumOk(nodenum, ns, sh, itemno)
    requires SplitAt(full, h, ntype, numHot, itemno) && h <= k < |full|
    requires p < |ns| && sh.path[p] == full[..k] && full[..k + 1] !in sh.at && Inserted(ns0, sh0, ns, sh, full, h, k, w)
    ensures NULL <= ns[p].leftchild < |ns| == |sh.path| == |sh.kids| && full[k] < |nodenum| && (ns[p].leftchild == NULL <==> sh.kids[p] == [])
    ensures var ns', sh' := AddKid(ns, p, full[k], w), ShapeAdd(sh, p, full[k]);
      && NodesOk(ns', sh', numHot, itemno) && IndexOk(ht, sh', numHot) && Inserted(ns0, sh0, ns', sh', full, h, k + 1, w)
      && NodenumOk(nodenum[full[k] := nodenum[full[k]] + 1], ns', sh', itemno)
      && |ns'| == |sh'.path| == |ns| + 1 && sh'.path[|ns|] == full[..k + 1] && ns'[|ns|].leftchild == NULL && Placed(ns, ns', p, |ns|)
      && (k + 1 < |full| ==> full[..k + 2] !in sh'.at)
  {
    assert full[..k] + [full[k]] == full[..k + 1];
    NextAbsent(ns, sh, numHot, itemno, full, k, p);
    assert NodeOk(ns, sh, p);
    NewNodeOk(ns, sh, numHot, itemno, p, full[k], w);
    hide Linked, NodesOk, IndexOk, NodenumOk, Inserted, SplitAt, NodeOk, Placed;
    AddKidPlaced(ns, p, full[k], w);
    NodenumAdd(nodenum, ns, sh, itemno, p, full[k], w);
    IndexAdd(ht, sh, numHot, p, full[k]);
    InsertedAdd(ns0, sh0, ns, sh, full, h, k, w, p);
  }

  /** A non-hot node leaves the bitmask index alone. */
  lemma IndexAdd(ht: seq<int>, sh: Shape, numHot: nat, n: nat, item: nat)
    requires IndexOk(ht, sh, numHot) && n < |sh.path| == |sh.kids| && item >= numHot
    ensures IndexOk(ht, ShapeAdd(sh, n, item), numHot)
  {
    forall m | 0 <= m < |ht| ensures Bits(m) != sh.path[n] + [item] {
      if Bits(m) == sh.path[n] + [item] { MaskIsHot(m, numHot, |sh.path[n]|); }
    }
  }

  /** Only the first non-hot node of a transaction concerns the cache, and only its own entry. */
  lemma FastAdd(ft: seq<seq<int>>, ns: seq<Fnode>, sh: Shape, full: seq<nat>, h: nat, ntype: nat, numHot: nat, itemno: nat, k: nat, n: nat)
    requires FastOk(ft, sh, numHot, itemno) && SplitAt(full, h, ntype, numHot, itemno) && h <= k < |full|
    requires NodesOk(ns, sh, numHot, itemno) && n < |ns| && sh.path[n] == full[..k]
    ensures full[k] < itemno && |ns| == |sh.path| == |sh.kids|
    ensures ntype < FAST_RIGHTSIB_TABLE_SIZE ==> ntype < |ft| && full[k] < |ft[ntype]|
    ensures k > h || ntype >= FAST_RIGHTSIB_TABLE_SIZE ==> FastOk(ft, ShapeAdd(sh, n, full[k]), numHot, itemno)
    ensures k == h && ntype < FAST_RIGHTSIB_TABLE_SIZE ==>
      FastOk(ft[ntype := ft[ntype][full[k] := |sh.path|]], ShapeAdd(sh, n, full[k]), numHot, itemno)
  {
    assert full[..k] + [full[k]] == full[..k + 1];
    forall m: nat, x: nat | m < Pow2(numHot) && numHot <= x && Bits(m) + [x] == full[..k + 1]
      ensures k == h && m == ntype && x == full[k]
    {
      FirstColdItem(full, h, ntype, numHot, itemno, k, m, x);
    }
    if k == h { assert Bits(ntype) + [full[k]] == full[..k + 1]; }
  }
}
