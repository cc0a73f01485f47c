/** FP_tree::insert and FPArray_scan2_DB: building the prefix tree, with the hot items folded into a bitmask and a
  * first-child cache (fast_rightsib_table) for the small bitmasks.
  */
module FpTrees {
  import opened Common
  import opened HotBits
  import opened Sums
  import opened FpShape
  import opened FpInsertion
  import opened FpLinking
  import opened FpPatterns
  import opened FpSinglePath

  class FpTree {
    const itemno: nat
    const numHotItem: nat
    var nodes: seq<Fnode>
    var nodenum: seq<nat>
    var hashtable: seq<int>
    var hotNodeCount: seq<nat>
    var fastTable: seq<seq<int>>
    var backpatch: seq<(nat, nat)>
    var newDataNum: nat
    ghost var sh: Shape
    ghost var db: seq<HotTrans>

    /** The tree before the first transaction: the root alone, filed under the empty bitmask. */
    constructor (itemno: nat, numHotItem: nat)
      requires numHotItem <= itemno
      ensures Counted(Pow2(numHotItem) - 1) && db == []
      ensures this.itemno == itemno && this.numHotItem == numHotItem && |hashtable| == |hotNodeCount| == Pow2(numHotItem)
    {
      this.itemno, this.numHotItem := itemno, numHotItem;
      nodes := [Fnode(0, 0, NULL, NULL)];
      nodenum := seq(itemno, _ => 0);
      hashtable := seq(Pow2(numHotItem), m => if m == 0 then 0 else NULL);
      hotNodeCount := seq(Pow2(numHotItem), _ => 0);
      fastTable := seq(FAST_RIGHTSIB_TABLE_SIZE, _ => seq(itemno, _ => NULL));
      backpatch := [];
      newDataNum := 0;
      sh := Shape([[]], [[]], [NULL], map[[] := 0]);
      db := [];
      new;
      RootAlone(nodes, sh, hashtable, fastTable, nodenum, hotNodeCount, numHotItem, itemno);
    }

    ghost predicate Valid()
      reads this
    {
      Growing(0)
    }

    /** Everything a valid tree satisfies, while `ahead` nodes of the current insertion are still to be linked. */
    ghost predicate Growing(ahead: nat)
      reads this
    {
      && NodesOk(nodes, sh, numHotItem, itemno)
      && IndexOk(hashtable, sh, numHotItem)
      && FastOk(fastTable, sh, numHotItem, itemno)
      && PatchOk(backpatch, fastTable, itemno)
      && SlotsOk(newDataNum, hashtable, sh, ahead)
      && NodenumOk(nodenum, nodes, sh, itemno)
    }

    /** Search the children of `child` for an item: the first child, then its siblings. */
    method FindChild(child: nat, item: nat) returns (temp: int)
      requires NodesOk(nodes, sh, numHotItem, itemno) && child < |nodes| && numHotItem <= item
      ensures temp == if sh.path[child] + [item] in sh.at then sh.at[sh.path[child] + [item]] else NULL
    {
      ghost var ks := sh.kids[child];
      assert NodeOk(nodes, sh, child);
      assert Cold(sh.path[child] + [item], numHotItem);
      temp := nodes[child].leftchild;
      ghost var j := 0;
      assert temp != NULL ==> KidOk(nodes, sh, child, 0);
      while temp != NULL && nodes[temp].itemname != item
        invariant 0 <= j <= |ks|
        invariant temp == if j < |ks| then ks[j] else NULL
        invariant temp != NULL ==> temp < |nodes| && KidOk(nodes, sh, child, j)
        invariant forall i :: 0 <= i < j ==> ks[i] < |nodes| && nodes[ks[i]].itemname != item
        decreases |ks| - j
      {
        temp := nodes[temp].rightsibling;
        j := j + 1;
        assert temp != NULL ==> KidOk(nodes, sh, child, j);
      }
      if temp != NULL {
        assert NodeOk(nodes, sh, temp);
      } else if sh.path[child] + [item] in sh.at {
        ChildOfPath(nodes, sh, child, item);
        assert false;
      }
    }

    /** `temp->count += counts` on the next node of the path. */
    method Bump(ghost ns0: seq<Fnode>, ghost full: seq<nat>, ghost h: nat, ghost k: nat, temp: int, w: nat)
      requires Valid() && h <= k < |full|
      requires full[..k + 1] in sh.at && temp == sh.at[full[..k + 1]]
      requires Inserted(ns0, sh, nodes, sh, full, h, k, w)
      modifies this`nodes
      ensures Valid() && temp < |nodes| && sh.path[temp] == full[..k + 1]
      ensures Inserted(ns0, sh, nodes, sh, full, h, k + 1, w)
    {
      InsertedBump(ns0, sh, nodes, sh, full, h, k, w, temp);
      NodenumBump(nodenum, nodes, sh, itemno, temp, w);
      nodes := Bumped(nodes, temp, w);
    }

    /** The first step of insert for a small bitmask: one look into the cache replaces the search. `patch` says
      * that there is no such child yet. */
    method ConsultCache(compact: seq<nat>, w: nat, ntype: nat, ghost full: seq<nat>) returns (i: nat, child: nat, patch: bool)
      requires Valid() && compact != [] && full == Bits(ntype) + compact
      requires SplitAt(full, |Bits(ntype)|, ntype, numHotItem, itemno) && hashtable[ntype] != NULL
      modifies this`nodes
      ensures Valid() && i <= 1 && child < |nodes| == |sh.path|
      ensures sh.path[child] == full[..|Bits(ntype)| + i]
      ensures Inserted(old(nodes), sh, nodes, sh, full, |Bits(ntype)|, |Bits(ntype)| + i, w)
      ensures patch ==> full[..|Bits(ntype)| + 1] !in sh.at
      ensures patch <==> ntype < FAST_RIGHTSIB_TABLE_SIZE && i == 0
    {
      ghost var h := |Bits(ntype)|;
      child := hashtable[ntype];
      i := 0;
      patch := false;
      assert full[..h] + [compact[0]] == full[..h + 1];
      if ntype < FAST_RIGHTSIB_TABLE_SIZE {
        assert compact[0] == full[h];
        var temp := fastTable[ntype][compact[0]];
        assert temp == FastEntry(sh, ntype, compact[0], numHotItem);
        if temp == NULL {
          patch := true;
        } else {
          Bump(nodes, full, h, h, temp, w);
          child, i := temp, 1;
        }
      }
    }

    /** One step along the existing path, or the discovery that it ends here. */
    method StepDown(item: nat, child: nat, w: nat, ghost ns0: seq<Fnode>, ghost full: seq<nat>, ghost h: nat, ghost k: nat,
                    ghost ntype: nat) returns (next: nat, found: bool)
      requires Valid() && SplitAt(full, h, ntype, numHotItem, itemno) && h <= k < |full| && item == full[k]
      requires child < |nodes| && sh.path[child] == full[..k]
      requires Inserted(ns0, sh, nodes, sh, full, h, k, w)
      modifies this`nodes
      ensures Valid() && |nodes| == old(|nodes|) == |sh.path|
      ensures found <==> full[..k + 1] in sh.at
      ensures found ==> next < |nodes| && sh.path[next] == full[..k + 1] && Inserted(ns0, sh, nodes, sh, full, h, k + 1, w)
      ensures !found ==> next == child && nodes == old(nodes)
    {
      hide IndexOk, FastOk, PatchOk, SlotsOk, NodenumOk, Inserted;
      assert full[..k] + [item] == full[..k + 1];
      var temp := FindChild(child, item);
      if temp == NULL {
        next, found := child, false;
      } else {
        Bump(ns0, full, h, k, temp, w);
        next, found := temp, true;
      }
    }

    /** The counting part of insert: follow the existing path as far as it goes. */
    method Descend(compact: seq<nat>, w: nat, ntype: nat, ghost full: seq<nat>) returns (i: nat, child: nat, patch: bool)
      requires Valid() && compact != [] && full == Bits(ntype) + compact
      requires SplitAt(full, |Bits(ntype)|, ntype, numHotItem, itemno) && hashtable[ntype] != NULL
      modifies this`nodes
      ensures Valid() && i <= |compact| && child < |nodes| == |sh.path|
      ensures sh.path[child] == full[..|Bits(ntype)| + i]
      ensures Inserted(old(nodes), sh, nodes, sh, full, |Bits(ntype)|, |Bits(ntype)| + i, w)
      ensures i < |compact| ==> full[..|Bits(ntype)| + i + 1] !in sh.at
      ensures patch <==> ntype < FAST_RIGHTSIB_TABLE_SIZE && i == 0
    {
      hide Linked, NodesOk, IndexOk, FastOk, PatchOk, SlotsOk, NodenumOk, Inserted, SplitAt, Bits;
      ghost var h, ns0 := |Bits(ntype)|, nodes;
      i, child, patch := ConsultCache(compact, w, ntype, full);
      var open := !patch;
      while open && i < |compact|
        invariant Valid() && i <= |compact| && child < |nodes| == |sh.path| && sh.path[child] == full[..h + i]
        invariant Inserted(ns0, sh, nodes, sh, full, h, h + i, w)
        invariant !open ==> i < |compact| && full[..h + i + 1] !in sh.at
        invariant patch <==> ntype < FAST_RIGHTSIB_TABLE_SIZE && i == 0
        decreases |compact| - i, open
      {
        assert compact[i] == full[h + i];
        child, open := StepDown(compact[i], child, w, ns0, full, h, h + i, ntype);
        if open { i := i + 1; }
      }
    }

    /** Link one node for item full[k] below the node of full[..k]. */
    method NewNode(p: nat, item: nat, w: nat, ghost full: seq<nat>, ghost h: nat, ghost k: nat, ghost ntype: nat,
                   ghost ns0: seq<Fnode>, ghost sh0: Shape)
      requires NodesOk(nodes, sh, numHotItem, itemno) && IndexOk(hashtable, sh, numHotItem) && NodenumOk(nodenum, nodes, sh, itemno)
      requires SplitAt(full, h, ntype, numHotItem, itemno) && h <= k < |full| && item == full[k]
      requires p < |nodes| && sh.path[p] == full[..k] && full[..k + 1] !in sh.at
      requires Inserted(ns0, sh0, nodes, sh, full, h, k, w)
      modifies this`nodes, this`nodenum, this`sh
      ensures NodesOk(nodes, sh, numHotItem, itemno) && IndexOk(hashtable, sh, numHotItem) && NodenumOk(nodenum, nodes, sh, itemno)
      ensures Inserted(ns0, sh0, nodes, sh, full, h, k + 1, w)
      ensures sh == old(ShapeAdd(sh, p, item)) && old(nodes[p].leftchild == NULL <==> sh.kids[p] == [])
      ensures |nodes| == |sh.path| == old(|nodes|) + 1 && sh.path[old(|nodes|)] == full[..k + 1]
      ensures nodes[old(|nodes|)].leftchild == NULL && Placed(old(nodes), nodes, p, old(|nodes|))
      ensures k + 1 < |full| ==> full[..k + 2] !in sh.at
    {
      hide *;
      NodeFits(nodes, sh, hashtable, nodenum, numHotItem, itemno, p, w, full, h, k, ntype, ns0, sh0);
      nodes := AddKid(nodes, p, item, w);
      nodenum := nodenum[item := nodenum[item] + 1];
      sh := ShapeAdd(sh, p, item);
    }

    /** `*backpatch_node = temp`, remembered on the backpatch stack. */
    method SetCache(ntype: nat, item: nat, temp: nat)
      requires PatchOk(backpatch, fastTable, itemno) && FastOk(fastTable, sh, numHotItem, itemno)
      requires ntype < FAST_RIGHTSIB_TABLE_SIZE && item < itemno
      modifies this`fastTable, this`backpatch
      ensures PatchOk(backpatch, fastTable, itemno)
      ensures ntype < old(|fastTable|) && item < old(|fastTable[ntype]|)
      ensures fastTable == old(fastTable[ntype := fastTable[ntype][item := temp]])
    {
      fastTable := fastTable[ntype := fastTable[ntype][item := temp]];
      backpatch := backpatch + [(ntype, item)];
    }

    /** Reserve the slots of a new branch: its own nodes below a childless node, otherwise its whole path. */
    method Reserve(child: nat, ghost item: nat, current: nat, i: nat, depth: nat)
      requires NodesOk(nodes, sh, numHotItem, itemno) && SlotsOk(newDataNum, hashtable, sh, 0)
      requires i < current && child < |nodes| == |sh.path| && |sh.path[child]| == depth + i
      modifies this`newDataNum
      ensures SlotsOk(newDataNum, hashtable, ShapeAdd(sh, child, item), current - i - 1)
    {
      assert NodeOk(nodes, sh, child);
      LeafDepthsAdd(sh, child, item);
      newDataNum := newDataNum + if nodes[child].leftchild == NULL then current - i else current + depth;
    }

    /** The first new node of an insertion: it goes into the cache when it is the first non-hot item. */
    method FirstNode(compact: seq<nat>, w: nat, ntype: nat, i: nat, child: nat, patch: bool, ghost full: seq<nat>,
                     ghost ns0: seq<Fnode>) returns (temp: nat)
      requires Valid() && i < |compact| && full == Bits(ntype) + compact
      requires SplitAt(full, |Bits(ntype)|, ntype, numHotItem, itemno)
      requires child < |nodes| == |sh.path| && sh.path[child] == full[..|Bits(ntype)| + i] && full[..|Bits(ntype)| + i + 1] !in sh.at
      requires Inserted(ns0, sh, nodes, sh, full, |Bits(ntype)|, |Bits(ntype)| + i, w)
      requires patch <==> ntype < FAST_RIGHTSIB_TABLE_SIZE && i == 0
      modifies this`nodes, this`nodenum, this`sh, this`fastTable, this`backpatch, this`newDataNum
      ensures Growing(|compact| - i - 1)
      ensures temp < |nodes| == |sh.path| && sh.path[temp] == full[..|Bits(ntype)| + i + 1] && nodes[temp].leftchild == NULL
      ensures Placed(old(nodes), nodes, child, temp)
      ensures Inserted(ns0, old(sh), nodes, sh, full, |Bits(ntype)|, |Bits(ntype)| + i + 1, w)
      ensures i + 1 < |compact| ==> full[..|Bits(ntype)| + i + 2] !in sh.at
    {
      hide Linked, NodesOk, IndexOk, NodenumOk, Inserted, FastOk, PatchOk, SlotsOk, SplitAt, Placed;
      ghost var h := |Bits(ntype)|;
      temp := |nodes|;
      FastAdd(fastTable, nodes, sh, full, h, ntype, numHotItem, itemno, h + i, child);
      if patch { SetCache(ntype, compact[i], temp); }
      Reserve(child, compact[i], |compact|, i, |Bits(ntype)|);
      NewNode(child, compact[i], w, full, h, h + i, ntype, ns0, sh);
    }

    /** The other new nodes: each the first child of the one before. */
    method ChainNode(temp2: nat, item: nat, w: nat, ntype: nat, ghost k: nat, ghost ahead: nat, ghost full: seq<nat>,
                     ghost ns0: seq<Fnode>, ghost sh0: Shape) returns (temp: nat)
      requires Growing(ahead) && ahead > 0 && |Bits(ntype)| < k < |full| && item == full[k]
      requires SplitAt(full, |Bits(ntype)|, ntype, numHotItem, itemno)
      requires temp2 < |nodes| && sh.path[temp2] == full[..k] && full[..k + 1] !in sh.at && nodes[temp2].leftchild == NULL
      requires Inserted(ns0, sh0, nodes, sh, full, |Bits(ntype)|, k, w)
      modifies this`nodes, this`nodenum, this`sh
      ensures Growing(ahead - 1)
      ensures temp < |nodes| == |sh.path| && sh.path[temp] == full[..k + 1] && nodes[temp].leftchild == NULL
      ensures Inserted(ns0, sh0, nodes, sh, full, |Bits(ntype)|, k + 1, w)
      ensures k + 1 < |full| ==> full[..k + 2] !in sh.at
    {
      temp := |nodes|;
      hide Linked, NodesOk, IndexOk, NodenumOk, Inserted, FastOk, PatchOk, SplitAt, SlotsOk;
      SlotsNext(nodes, sh, newDataNum, hashtable, numHotItem, itemno, temp2, item, ahead);
      FastAdd(fastTable, nodes, sh, full, |Bits(ntype)|, ntype, numHotItem, itemno, k, temp2);
      NewNode(temp2, item, w, full, |Bits(ntype)|, k, ntype, ns0, sh0);
    }

    /** FP_tree::insert: afterwards exactly the non-hot nodes on the transaction's path exist and count w more. */
    method Insert(compact: seq<nat>, w: nat, ntype: nat, ghost full: seq<nat>)
      requires Valid() && compact != [] && full == Bits(ntype) + compact
      requires SplitAt(full, |Bits(ntype)|, ntype, numHotItem, itemno) && hashtable[ntype] != NULL
      modifies this`nodes, this`nodenum, this`sh, this`fastTable, this`backpatch, this`newDataNum
      ensures Valid()
      ensures Inserted(old(nodes), old(sh), nodes, sh, full, |Bits(ntype)|, |full|, w)
    {
      hide Linked, NodesOk, IndexOk, NodenumOk, Inserted, FastOk, PatchOk, SplitAt, SlotsOk;
      ghost var h, ns0, sh0 := |Bits(ntype)|, nodes, sh;
      var i, child, patch := Descend(compact, w, ntype, full);
      if i < |compact| {
        var temp: nat := FirstNode(compact, w, ntype, i, child, patch, full, ns0);
        i := i + 1;
        while i < |compact|
          invariant 1 <= i <= |compact| && Growing(|compact| - i)
          invariant temp < |nodes| == |sh.path| && sh.path[temp] == full[..h + i] && nodes[temp].leftchild == NULL
          invariant Inserted(ns0, sh0, nodes, sh, full, h, h + i, w)
          invariant i < |compact| ==> full[..h + i + 1] !in sh.at
        {
          assert compact[i] == full[h + i];
          temp := ChainNode(temp, compact[i], w, ntype, h + i, |compact| - i, full, ns0, sh0);
          i := i + 1;
        }
      }
      assert h + |compact| == |full|;
    }

    /** The tree holds the transactions of db; the hot nodes with a bitmask above i are linked. */
    ghost predicate Counted(i: nat)
      reads this
    {
      && IndexState(nodes, sh, hashtable, fastTable, nodenum, newDataNum, db, numHotItem, itemno, i)
      && PatchOk(backpatch, fastTable, itemno)
      && DbOk(db, numHotItem, itemno)
      && ColdCountsOk(nodes, sh, db, numHotItem)
      && HotCountsOk(hotNodeCount, hashtable, db, i)
    }

    /** `if (local_hashtable[m] == NULL)`: make sure the hot node exists. */
    method TouchHot(m: nat, ghost i: nat)
      requires IndexState(nodes, sh, hashtable, fastTable, nodenum, newDataNum, db, numHotItem, itemno, i)
      requires m <= i && m < |hashtable|
      modifies this`nodes, this`hashtable, this`sh
      ensures IndexState(nodes, sh, hashtable, fastTable, nodenum, newDataNum, db, numHotItem, itemno, i)
      ensures |hashtable| == old(|hashtable|) && hashtable[m] != NULL
      ensures forall k :: 0 <= k < |hashtable| && k != m ==> hashtable[k] == old(hashtable)[k]
      ensures forall p :: Cnt(nodes, sh, p) == old(Cnt(nodes, sh, p))
      ensures forall p :: p in sh.at <==> p in old(sh).at || p == Bits(m)
    {
      hide IndexState, NewHot, ShapeNewHot, Cnt;
      TouchHotOk(nodes, sh, hashtable, fastTable, nodenum, newDataNum, db, numHotItem, itemno, i, m);
      if hashtable[m] == NULL {
        hashtable := hashtable[m := |nodes|];
        nodes := NewHot(nodes, m);
        sh := ShapeNewHot(sh, m);
      }
    }

    /** The insertion half of AddTransaction. */
    method InsertCold(ntype: nat, compact: seq<nat>, w: nat, ghost top: nat)
      requires IndexState(nodes, sh, hashtable, fastTable, nodenum, newDataNum, db, numHotItem, itemno, top)
      requires PatchOk(backpatch, fastTable, itemno) && top + 1 == Pow2(numHotItem)
      requires TransOk(HotTrans(ntype, compact, w), numHotItem, itemno) && ntype < |hashtable| && hashtable[ntype] != NULL
      requires compact != []
      modifies this`nodes, this`nodenum, this`sh, this`fastTable, this`backpatch, this`newDataNum
      ensures IndexState(nodes, sh, hashtable, fastTable, nodenum, newDataNum, db, numHotItem, itemno, top)
      ensures PatchOk(backpatch, fastTable, itemno)
      ensures Inserted(old(nodes), old(sh), nodes, sh, Bits(ntype) + compact, |Bits(ntype)|, |Bits(ntype) + compact|, w)
    {
      hide NodesOk, IndexOk, FastOk, SlotsOk, NodenumOk, HotTodo, PathsKnown, IndexState, PatchOk, Inserted, TransOk, SplitAt;
      ghost var ns0, sh0, full, h := nodes, sh, Bits(ntype) + compact, |Bits(ntype)|;
      IndexStateIsValid(nodes, sh, hashtable, fastTable, nodenum, newDataNum, db, numHotItem, itemno, top);
      SplitOfTrans(HotTrans(ntype, compact, w), numHotItem, itemno);
      Insert(compact, w, ntype, full);
      TodoAfterInsert(ns0, sh0, nodes, sh, hashtable, top, full, h, w, ntype, numHotItem, itemno);
      IndexStateIsValid(nodes, sh, hashtable, fastTable, nodenum, newDataNum, db, numHotItem, itemno, top);
    }

    /** One transaction of FPArray_scan2_DB: count its bitmask, then insert its other items. */
    method AddTransaction(ntype: nat, compact: seq<nat>, w: nat, ghost top: nat)
      requires Counted(top) && top + 1 == Pow2(numHotItem) == |hashtable| == |hotNodeCount| && ntype <= top
      requires TransOk(HotTrans(ntype, compact, w), numHotItem, itemno)
      modifies this`nodes, this`nodenum, this`sh, this`fastTable, this`backpatch, this`newDataNum, this`hashtable, this`hotNodeCount, this`db
      ensures Counted(top) && |hashtable| == |hotNodeCount| == top + 1
      ensures db == old(db) + [HotTrans(ntype, compact, w)]
    {
      hide IndexState, PatchOk, ColdCountsOk, HotCountsOk, Inserted, Cnt;
      ghost var t, ht0, hc0, ns0, sh0 := HotTrans(ntype, compact, w), hashtable, hotNodeCount, nodes, sh;
      TouchHot(ntype, top);
      ghost var ns1, sh1 := nodes, sh;
      CountMask(hc0, ht0, hashtable, db, t, top);
      hotNodeCount := hotNodeCount[ntype := hotNodeCount[ntype] + w];
      if compact != [] {
        InsertCold(ntype, compact, w, top);
      }
      TransactionCounted(ns0, sh0, ns1, sh1, nodes, sh, db, t, numHotItem, itemno);
      IndexStateSameDb(nodes, sh, hashtable, fastTable, nodenum, newDataNum, db, t, numHotItem, itemno, top);
      db := db + [t];
    }

    /** One round of the linking loop of FPArray_scan2_DB: hot node i goes below its parent, which takes over its
      * weight. */
    method LinkOne(i: nat)
      requires Counted(i) && 0 < i < |hashtable| == |hotNodeCount| == Pow2(numHotItem)
      modifies this`nodes, this`nodenum, this`sh, this`newDataNum, this`hashtable, this`hotNodeCount
      ensures Counted(i - 1) && |hashtable| == |hotNodeCount| == old(|hashtable|)
    {
      hide IndexState, PatchOk, ColdCountsOk, HotCountsOk, DbOk, LinkNode, ShapeAttach, Cnt;
      if hashtable[i] == NULL {
        SkipOneOk(nodes, sh, hashtable, hotNodeCount, fastTable, nodenum, newDataNum, db, numHotItem, itemno, i);
      } else {
        ClearTopValue(i);
        var step, parent := TopBit(i), ClearTop(i);
        ghost var ns0, sh0, ht0 := nodes, sh, hashtable;
        TouchHot(parent, i);
        SameColdCounts(ns0, sh0, nodes, sh, db, parent, numHotItem);
        PushUpOk(hotNodeCount, ht0, hashtable, db, i);
        IndexInRange(nodes, sh, hashtable, fastTable, nodenum, newDataNum, db, numHotItem, itemno, i);
        var p, c := hashtable[parent], hashtable[i];
        LinkOneOk(nodes, sh, hashtable, hotNodeCount, fastTable, nodenum, newDataNum, db, numHotItem, itemno, i, p, c);
        newDataNum := newDataNum + if nodes[p].leftchild == NULL then 1 else |Bits(i)|;
        nodes := LinkNode(nodes, p, c, hotNodeCount[i]);
        sh := ShapeAttach(sh, p, c);
        hashtable := hashtable[i := NULL];
        hotNodeCount := PushUp(hotNodeCount, i);
        nodenum := nodenum[step := nodenum[step] + 1];
      }
    }

    /** FPArray_scan2_DB after the last transaction: link the hot nodes from the highest bitmask down, then reset
      * the cache. What remains is the prefix tree of the transactions, with exact slot and node counts. */
    method LinkHotNodes(ghost top: nat)
      requires Counted(top) && top + 1 == Pow2(numHotItem) == |hashtable| == |hotNodeCount|
      modifies this`nodes, this`nodenum, this`sh, this`newDataNum, this`hashtable, this`hotNodeCount, this`fastTable, this`backpatch
      ensures PrefixTree(nodes, sh, FlatAll(db), itemno)
      ensures NodenumOk(nodenum, nodes, sh, itemno)
      ensures |sh.path| == |sh.kids| && newDataNum == Sum(LeafDepths(sh)) + 1 && DbOk(db, numHotItem, itemno)
      ensures |hashtable| == |hotNodeCount| && forall m :: 1 <= m < |hashtable| ==> hashtable[m] == NULL && hotNodeCount[m] == 0
      ensures forall m, x :: 0 <= m < |fastTable| && 0 <= x < |fastTable[m]| ==> fastTable[m][x] == NULL
    {
      hide IndexState, PatchOk, ColdCountsOk, HotCountsOk, DbOk, PrefixTree, NodenumOk, Sum, LeafDepths;
      LinkLoop();
      Finished();
      newDataNum := newDataNum + 1;
      ClearCache();
    }

    method LinkLoop()
      requires Pow2(numHotItem) == |hashtable| == |hotNodeCount| > 0 && Counted(|hashtable| - 1)
      modifies this`nodes, this`nodenum, this`sh, this`newDataNum, this`hashtable, this`hotNodeCount
      ensures Counted(0)
    {
      hide IndexState, PatchOk, ColdCountsOk, HotCountsOk, DbOk;
      var i := |hashtable| - 1;
      while i > 0
        invariant 0 <= i < |hashtable| == |hotNodeCount| == Pow2(numHotItem) && Counted(i)
      {
        LinkOne(i);
        i := i - 1;
      }
    }

    /** The backpatch loop: every entry that was set is set back to NULL. */
    method ClearCache()
      requires PatchOk(backpatch, fastTable, itemno)
      modifies this`fastTable, this`backpatch
      ensures backpatch == []
      ensures forall m, x :: 0 <= m < |fastTable| && 0 <= x < |fastTable[m]| ==> fastTable[m][x] == NULL
    {
      var i := 0;
      while i < |backpatch|
        invariant 0 <= i <= |backpatch|
        invariant PatchOk(backpatch[i..], fastTable, itemno)
      {
        var e := backpatch[i];
        assert e in backpatch[i..] && backpatch[i..] == [e] + backpatch[i + 1..];
        fastTable := fastTable[e.0 := fastTable[e.0][e.1 := NULL]];
        i := i + 1;
      }
      backpatch := [];
    }

    /** FP_tree::Single_path: true exactly when no node has two children. */
    method SinglePath() returns (single: bool)
      requires PrefixTree(nodes, sh, FlatAll(db), itemno) && Proper(FlatAll(db))
      ensures single <==> IsChain(sh)
    {
      ghost var q: nat := 0;
      assert NodeOk(nodes, sh, 0);
      assert ChainDownTo(nodes, sh, 0) by {
        forall n | 0 <= n < |nodes| && |sh.path[n]| == 0 ensures n == 0 { SamePathSameNode(nodes, sh, n, 0); }
      }
      ChainStep(nodes, sh, FlatAll(db), itemno, q);
      var node := nodes[0].leftchild;
      while node != NULL
        invariant q < |nodes| && node == nodes[q].leftchild && NULL <= node < |nodes| && ChainDownTo(nodes, sh, q)
        decreases itemno - |sh.path[q]|
      {
        ChainStep(nodes, sh, FlatAll(db), itemno, q);
        if nodes[node].rightsibling != NULL { return false; }
        DepthOfNode(nodes, sh, FlatAll(db), itemno, node);
        q := node;
        ChainStep(nodes, sh, FlatAll(db), itemno, q);
        node := nodes[node].leftchild;
      }
      ChainStep(nodes, sh, FlatAll(db), itemno, q);
      return true;
    }

    lemma Finished()
      requires Counted(0)
      ensures PrefixTree(nodes, sh, FlatAll(db), itemno) && NodenumOk(nodenum, nodes, sh, itemno)
      ensures newDataNum == Sum(LeafDepths(sh)) && |sh.path| == |sh.kids|
      ensures |hashtable| == |hotNodeCount|
      ensures forall m :: 1 <= m < |hashtable| ==> hashtable[m] == NULL && hotNodeCount[m] == 0
      ensures PatchOk(backpatch, fastTable, itemno)
    {
      LinkingDone(nodes, sh, db, numHotItem, itemno);
      assert Bits(0) == [];
      forall m | 0 <= m < |hashtable| ensures HotDepths(hashtable)[m] == 0 {}
      SumZero(HotDepths(hashtable));
    }
  }

  lemma RootAlone(ns: seq<Fnode>, sh: Shape, ht: seq<int>, ft: seq<seq<int>>, nodenum: seq<nat>, hc: seq<nat>, numHot: nat, itemno: nat)
    requires ns == [Fnode(0, 0, NULL, NULL)] && sh == Shape([[]], [[]], [NULL], map[[] := 0]) && numHot <= itemno
    requires |ht| == |hc| == Pow2(numHot) && |ft| == FAST_RIGHTSIB_TABLE_SIZE && |nodenum| == itemno
    requires forall m :: 0 <= m < |ht| ==> ht[m] == (if m == 0 then 0 else NULL) && hc[m] == 0
    requires forall m :: 0 <= m < |ft| ==> |ft[m]| == itemno && forall x :: 0 <= x < itemno ==> ft[m][x] == NULL
    requires forall x :: 0 <= x < itemno ==> nodenum[x] == 0
    ensures Pow2(numHot) > 0 && IndexState(ns, sh, ht, ft, nodenum, 0, [], numHot, itemno, Pow2(numHot) - 1)
    ensures ColdCountsOk(ns, sh, [], numHot) && HotCountsOk(hc, ht, [], Pow2(numHot) - 1)
  {
    Pow2Mono(0, numHot);
    assert NodeOk(ns, sh, 0);
    forall m: nat ensures Bits(m) in sh.at <==> m == 0 {
      assert Bits(0) == [];
      if m > 0 { assert |Bits(m)| > 0; }
    }
    assert SlotsOk(0, ht, sh, 0) by {
      SumZero(HotDepths(ht));
      SumZero(LeafDepths(sh));
    }
    forall x: nat ensures Sum(LinkedWith(ns, sh, x)) == 0 { SumZero(LinkedWith(ns, sh, x)); }
    forall m: nat, x: nat ensures FastEntry(sh, m, x, numHot) == NULL { assert Bits(m) + [x] != []; }
  }
}
