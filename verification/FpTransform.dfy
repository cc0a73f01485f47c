/** transform_FPTree_into_FPArray itself: the traversal with its explicit stacks and its two array cursors. */
module FpTransform {
  import opened Common
  import opened Transactions
  import opened Sums
  import opened FpShape
  import opened FpArrays

  /** The working state of the transform: nodestack, itemstack and the lists of NodeArrayList being filled. */
  class Flattening {
    const nodes: seq<Fnode>
    const itemno: nat
    const mark: int
    const ItemArray: array<int>
    var NodeArrayList: seq<seq<Entry>>
    var nodestack: seq<int>
    var itemstack: seq<int>
    var stacktop: int
    var itemiter: int
    var keptItemiter: int
    var first: bool
    ghost const sh: Shape
    ghost var w: Walk
    ghost var ids: seq<seq<nat>>

    constructor (nodes: seq<Fnode>, itemno: nat, newDataNum: nat, mark: int, ghost sh: Shape)
      requires TreeShape(nodes, sh, itemno) && newDataNum == Sum(LeafDepths(sh)) + 1
      ensures Valid() && fresh(ItemArray) && stacktop == 0
      ensures this.nodes == nodes && this.itemno == itemno && this.mark == mark && this.sh == sh
      ensures ItemArray.Length == newDataNum + 1
    {
      this.nodes, this.itemno, this.mark, this.sh := nodes, itemno, mark, sh;
      ItemArray := new int[newDataNum + 1];
      NodeArrayList := seq(itemno, _ => []);
      ids := seq(itemno, _ => []);
      nodestack := seq(itemno, _ => NULL)[0 := nodes[0].leftchild];
      itemstack := seq(itemno, _ => 0);
      stacktop, itemiter, keptItemiter, first := 0, newDataNum, newDataNum + 1, true;
      w := Walk([0], [0], {0});
      new;
      InitialWalk(nodes, sh, itemno);
    }

    ghost predicate Rest(limit: int)
      reads this, ItemArray
    {
      && TreeShape(nodes, sh, itemno)
      && |nodestack| == |itemstack| == |ids| == itemno
      && ItemsOk(itemstack, sh, w)
      && EntriesOk(ItemArray[..], NodeArrayList, ids, nodes, sh, w.vis, mark, limit)
    }

    ghost predicate Valid()
      reads this, ItemArray
    {
      && Rest(itemiter)
      && WalkOk(nodes, sh, w)
      && stacktop == |w.anc| - 1
      && StackOk(nodestack, sh, w, |w.anc|)
      && RoomOk(ItemArray.Length, itemiter, sh, w.vis)
      && (!first && w.anc != [] ==>
            keptItemiter > itemiter && Last(w.anc) < |sh.path| && PathAt(ItemArray[..], keptItemiter, sh.path[Last(w.anc)], mark))
    }

    /** Inside the loop over one first-child chain: `temp` comes next, its branch started at slot it0. */
    ghost predicate Chain(temp: int, it0: int, leaf: nat)
      reads this, ItemArray
    {
      && Rest(itemiter + 1)
      && WalkOk(nodes, sh, w) && w.anc != [] && OpenLevelOk(nodes, sh, w, |w.anc| - 1)
      && stacktop == |w.anc| - 2
      && StackOk(nodestack, sh, w, |w.anc| - 1)
      && 0 <= temp < |nodes| && temp == NextKid(sh, w, |w.anc| - 1)
      && PathAt(ItemArray[..], itemiter + 1, sh.path[Last(w.anc)], mark)
      && itemiter == it0 - |w.anc|
      && RoomOk(ItemArray.Length, it0, sh, w.vis)
      && leaf == LeafOf(nodes, sh, itemno, temp) && leaf !in w.vis && !first
    }

    /** The top level has no child left. */
    method PopNull()
      requires Valid() && w.anc != [] && stacktop < |nodestack| && nodestack[stacktop] == NULL
      modifies this`stacktop, this`keptItemiter, this`w
      ensures Valid() && |w.anc| == old(|w.anc|) - 1 && w.vis == old(w.vis)
    {
      hide Linked, WalkOk, StackOk, ItemsOk, EntriesOk, RoomOk, PathAt;
      LeaveState(nodes, sh, w, nodestack, itemstack, ItemArray[..], keptItemiter, mark);
      stacktop := stacktop - 1;
      keptItemiter := keptItemiter + 1;
      w := Leave(w);
    }

    /** A younger sibling that is a leaf: it shares the path of the branch already written. */
    method LeafSibling(temp: nat)
      requires Valid() && w.anc != [] && !first && stacktop < |nodestack| && nodestack[stacktop] == temp
      requires temp < |nodes| && nodes[temp].leftchild == NULL
      modifies this`nodestack, this`NodeArrayList, this`w, this`ids
      ensures Valid() && temp !in old(w.vis) && w.vis == old(w.vis) + {temp} && |w.anc| == old(|w.anc|)
    {
      TopLevel(nodes, sh, w, nodestack);
      hide Linked, TreeShape, WalkOk, OpenLevelOk, StackOk, ItemsOk, EntriesOk, RoomOk, PathAt, NextKid;
      NextNode(nodes, sh, itemno, w, nodestack, itemstack, temp);
      RoomForLeaf(ItemArray.Length, itemiter, sh, w.vis, temp);
      var item := nodes[temp].itemname;
      var e := Entry(keptItemiter, nodes[temp].count);
      EntriesRecord(ItemArray[..], NodeArrayList, ids, nodes, sh, w.vis, mark, itemiter, temp, item, e);
      nodestack := nodestack[stacktop := nodes[temp].rightsibling];
      NodeArrayList := NodeArrayList[item := NodeArrayList[item] + [e]];
      ids := ids[item := ids[item] + [temp]];
      w := Visit(w, temp);
    }

    /** A new branch: the mark goes onto the last branch's leaf slot, the items of the open levels follow. */
    method WritePrefix()
      requires Valid() && w.anc != [] && |w.anc| <= itemiter < ItemArray.Length
      modifies this`itemiter, this`stacktop, this`first, ItemArray
      ensures Rest(itemiter + 1) && WalkOk(nodes, sh, w) && stacktop == |w.anc| - 2
      ensures StackOk(nodestack, sh, w, |w.anc|)
      ensures itemiter == old(itemiter) - |w.anc| && !first
      ensures Last(w.anc) < |sh.path| && PathAt(ItemArray[..], itemiter + 1, sh.path[Last(w.anc)], mark)
    {
      hide Linked, TreeShape, WalkOk, OpenLevelOk, StackOk, PathAt, NextKid, ItemsOk, EntriesOk, RoomOk;
      ghost var a0, it0 := ItemArray[..], itemiter;
      StackRoom(itemstack, sh, w);
      stacktop := stacktop - 1;
      first := false;
      CopyItems();
      EntriesKept(a0, ItemArray[..], NodeArrayList, ids, nodes, sh, w.vis, mark, it0, itemiter + 1);
      PrefixWritten(ItemArray[..], it0, itemstack, sh, w, mark);
    }

    /** `ItemArray[itemiter --] = mark`, then the items of the levels up to stacktop. */
    method CopyItems()
      requires -1 <= stacktop < |itemstack| && stacktop + 1 <= itemiter < ItemArray.Length
      modifies this`itemiter, ItemArray
      ensures itemiter == old(itemiter) - 2 - stacktop && ItemArray[old(itemiter)] == mark
      ensures forall j :: 0 <= j <= stacktop ==> ItemArray[old(itemiter) - 1 - j] == itemstack[j]
      ensures forall k :: old(itemiter) < k < ItemArray.Length ==> ItemArray[k] == old(ItemArray[k])
    {
      ItemArray[itemiter] := mark;
      itemiter := itemiter - 1;
      var i := 0;
      while i <= stacktop
        invariant 0 <= i <= stacktop + 1 && itemiter == old(itemiter) - 1 - i
        invariant ItemArray[old(itemiter)] == mark
        invariant forall j :: 0 <= j < i ==> ItemArray[old(itemiter) - 1 - j] == itemstack[j]
        invariant forall k :: old(itemiter) < k < ItemArray.Length ==> ItemArray[k] == old(ItemArray[k])
      {
        ItemArray[itemiter] := itemstack[i];
        itemiter := itemiter - 1;
        i := i + 1;
      }
    }

    /** Pushes the node, writes its item and appends its entry. */
    method WriteNode(temp: nat)
      requires temp < |nodes| && -1 <= stacktop && stacktop + 1 < |nodestack| == |itemstack| && 0 <= itemiter < ItemArray.Length
      requires 0 <= nodes[temp].itemname < |NodeArrayList| == |ids|
      modifies this`nodestack, this`itemstack, this`stacktop, this`itemiter, this`NodeArrayList, this`ids, ItemArray
      ensures stacktop == old(stacktop) + 1 && itemiter == old(itemiter) - 1
      ensures nodestack == old(nodestack)[stacktop := nodes[temp].rightsibling]
      ensures itemstack == old(itemstack)[stacktop := nodes[temp].itemname]
      ensures ItemArray[..] == old(ItemArray[..])[old(itemiter) := nodes[temp].itemname]
      ensures var x := nodes[temp].itemname;
        && NodeArrayList == old(NodeArrayList)[x := old(NodeArrayList)[x] + [Entry(old(itemiter) + 1, nodes[temp].count)]]
        && ids == old(ids)[x := old(ids)[x] + [temp]]
    {
      stacktop := stacktop + 1;
      nodestack := nodestack[stacktop := nodes[temp].rightsibling];
      var item := nodes[temp].itemname;
      itemstack := itemstack[stacktop := item];
      ItemArray[itemiter] := item;
      itemiter := itemiter - 1;
      NodeArrayList := NodeArrayList[item := NodeArrayList[item] + [Entry(itemiter + 2, nodes[temp].count)]];
      ids := ids[item := ids[item] + [temp]];
    }

    /** One round of the loop over the first-child chain. */
    method PushNode(temp: int, ghost it0: int, ghost leaf: nat) returns (next: int)
      requires Chain(temp, it0, leaf)
      modifies this`nodestack, this`itemstack, this`stacktop, this`itemiter, this`NodeArrayList, this`w, this`ids, ItemArray
      ensures |w.vis| == old(|w.vis|) + 1 <= |nodes|
      ensures next != NULL ==> Chain(next, it0, leaf)
      ensures next == NULL ==> AtLeaf(temp, it0, leaf)
    {
      hide Linked, TreeShape, WalkOk, OpenLevelOk, StackOk, ItemsOk, EntriesOk, RoomOk, PathAt, NextKid;
      ghost var a, w0, items0, k := ItemArray[..], w, itemstack, |w.anc| - 1;
      LevelBound(nodes, sh, itemno, w, nodestack, itemstack);
      NextNode(nodes, sh, itemno, w, nodestack, itemstack, temp);
      LeafOfStep(nodes, sh, itemno, temp);
      RoomForLeaf(ItemArray.Length, it0, sh, w.vis, leaf);
      var item := nodes[temp].itemname;
      ChainWrite(a, itemiter, NodeArrayList, ids, nodes, sh, w, mark, temp, item);
      WriteNode(temp);
      next := nodes[temp].leftchild;
      if next != NULL {
        EnterState(nodes, sh, itemno, w, nodestack, items0, temp);
        SameRoom(ItemArray.Length, it0, nodes, sh, w.vis, temp);
        w := Enter(Visit(w, temp), temp);
      } else {
        SameItems(items0, sh, w, temp, item);
        w := Visit(w, temp);
      }
      VisitedBound(nodes, sh, itemno, w);
    }

    /** The chain has ended with the leaf `temp`. */
    ghost predicate AtLeaf(temp: int, it0: int, leaf: nat)
      reads this, ItemArray
    {
      && Rest(itemiter + 1)
      && WalkOk(nodes, sh, w) && w.anc != []
      && stacktop == |w.anc| - 1
      && StackOk(nodestack, sh, w, |w.anc|)
      && 0 <= temp < |sh.path| && |sh.path[temp]| == |w.anc| && itemiter == it0 - |w.anc| - 1
      && Last(w.anc) < |sh.path| && PathAt(ItemArray[..], itemiter + 2, sh.path[Last(w.anc)], mark)
      && RoomOk(ItemArray.Length, it0 - |sh.path[temp]|, sh, w.vis) && !first
    }

    method StartBranch(temp: int) returns (ghost it0: int, ghost leaf: nat)
      requires Valid() && w.anc != [] && 0 <= stacktop < |nodestack| && nodestack[stacktop] == temp != NULL
      modifies this`itemiter, this`stacktop, this`first, ItemArray
      ensures Chain(temp, it0, leaf)
    {
      TopLevel(nodes, sh, w, nodestack);
      BranchStart(nodes, sh, itemno, w, temp, ItemArray.Length, itemiter);
      hide Linked, TreeShape, WalkOk, OpenLevelOk, StackOk, ItemsOk, EntriesOk, RoomOk, PathAt, NextKid;
      it0, leaf := itemiter, LeafOf(nodes, sh, itemno, temp);
      WritePrefix();
    }

    method EndBranch(ghost leaf: int, ghost it0: int, ghost end: nat)
      requires AtLeaf(leaf, it0, end)
      modifies this`itemiter, this`keptItemiter
      ensures Valid()
    {
      hide Linked, TreeShape, WalkOk, OpenLevelOk, StackOk, ItemsOk, EntriesOk, RoomOk, PathAt, NextKid;
      keptItemiter := itemiter + 1;
      itemiter := itemiter + 1;
      keptItemiter := keptItemiter + 1;
    }

    /** The first node of all, or one with children: a new branch down to a leaf. */
    method Branch(node: int)
      requires Valid() && w.anc != [] && 0 <= stacktop < |nodestack| && nodestack[stacktop] == node != NULL
      modifies this, ItemArray
      ensures Valid() && |w.vis| > old(|w.vis|)
    {
      hide Chain, AtLeaf, Valid;
      var temp, last := node, node;
      ghost var it0, leaf := StartBranch(temp);
      while temp != NULL
        invariant temp != NULL ==> Chain(temp, it0, leaf) && (temp == node || |w.vis| > old(|w.vis|))
        invariant temp == NULL ==> AtLeaf(last, it0, leaf) && |w.vis| > old(|w.vis|)
        invariant |w.vis| >= old(|w.vis|)
        invariant temp == NULL || temp == node || |w.vis| <= |nodes|
        decreases if temp == NULL then 0 else 1, |nodes| - |w.vis|
      {
        last := temp;
        temp := PushNode(temp, it0, leaf);
      }
      EndBranch(last, it0, leaf);
    }

    method Round()
      requires Valid() && stacktop != -1
      modifies this, ItemArray
      ensures Valid() && (|w.vis| > old(|w.vis|) || (|w.vis| == old(|w.vis|) && stacktop < old(stacktop)))
      ensures |w.vis| <= |nodes| && stacktop >= -1
    {
      var temp := nodestack[stacktop];
      TopLevel(nodes, sh, w, nodestack);
      if temp == NULL {
        PopNull();
      } else {
        NextNode(nodes, sh, itemno, w, nodestack, itemstack, temp);
        if !first && nodes[temp].leftchild == NULL {
          LeafSibling(temp);
        } else {
          Branch(temp);
        }
      }
      VisitedBound(nodes, sh, itemno, w);
    }

    lemma AllDone()
      requires Valid() && stacktop == -1
      ensures Flattened(ItemArray[..], NodeArrayList, ids, nodes, sh, itemno, mark)
    {
      forall n | 0 <= n < |nodes| ensures n in w.vis { AllVisited(nodes, sh, itemno, w, n); }
    }

    method Transform()
      requires Valid()
      modifies this, ItemArray
      ensures Flattened(ItemArray[..], NodeArrayList, ids, nodes, sh, itemno, mark)
    {
      hide Valid;
      Start();
      while stacktop != -1
        invariant Valid() && stacktop >= -1 && |w.vis| <= |nodes|
        decreases |nodes| - |w.vis|, stacktop
      {
        Round();
      }
      AllDone();
    }

    lemma Start()
      requires Valid()
      ensures stacktop >= -1 && |w.vis| <= |nodes|
    {
      VisitedBound(nodes, sh, itemno, w);
    }
  }

  lemma StackRoom(itemstack: seq<int>, sh: Shape, w: Walk)
    requires ItemsOk(itemstack, sh, w) && w.anc != []
    ensures |w.anc| <= |itemstack| && Last(w.anc) < |sh.path|
  {
  }

  lemma InitialWalk(ns: seq<Fnode>, sh: Shape, itemno: nat)
    requires TreeShape(ns, sh, itemno)
    ensures WalkOk(ns, sh, Walk([0], [0], {0}))
    ensures ns[0].leftchild == NextKid(sh, Walk([0], [0], {0}), 0)
    ensures Sum(VisitedDepths(sh, {0})) >= 0
  {
    var w := Walk([0], [0], {0});
    assert NodeOk(ns, sh, 0);
    forall v, j | 0 <= v < |ns| && 0 <= j < |sh.kids[v]| ensures sh.kids[v][j] != 0 {
      assert NodeOk(ns, sh, v);
      assert KidOk(ns, sh, v, j);
    }
    var d := VisitedDepths(sh, {0});
    SumZero(seq(|d|, k => 0));
    SumMonotone(seq(|d|, k => 0), d);
    assert OpenLevelOk(ns, sh, w, 0);
  }
}
