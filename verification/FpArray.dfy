/** transform_FPTree_into_FPArray: flattening the prefix tree into an array of overlapping, sentinel-terminated
  * ancestor paths, filled from the back. Every branch starts on the leaf slot of the branch before it, and a leaf
  * that is a younger sibling is not written at all but shares the path already there.
  */
module FpArrays {
  import opened Common
  import opened Transactions
  import opened Sums
  import opened FpShape

  /** One pair of NodeArrayList: where the ancestors of a node begin, and the node's count. */
  datatype Entry = Entry(begin: int, count: nat)

  /** From position b the array holds the path p from its last item back to its first, then the mark. */
  ghost predicate PathAt(a: seq<int>, b: int, p: seq<nat>, mark: int)
  {
    && 0 <= b && b + |p| < |a| && a[b + |p|] == mark
    && (forall i :: b <= i < b + |p| ==> a[i] == p[|p| - 1 - (i - b)])
  }

  /** A finished tree: node 0 is the root and everything else hangs below it; paths ascend. */
  ghost predicate TreeShape(ns: seq<Fnode>, sh: Shape, itemno: nat)
  {
    && Linked(ns, sh) && |ns| > 0 && sh.path[0] == [] && itemno > 0
    && (forall n :: 0 < n < |ns| ==> sh.par[n] != NULL && sh.path[n] != [])
    && (forall n :: 0 <= n < |ns| ==> Ascending(sh.path[n]) && (forall i :: 0 <= i < |sh.path[n]| ==> sh.path[n][i] < itemno))
  }

  /** The leaf at the end of the first-child chain below n. */
  ghost function LeafOf(ns: seq<Fnode>, sh: Shape, itemno: nat, n: nat): (l: nat)
    requires TreeShape(ns, sh, itemno) && n < |ns|
    ensures l < |ns| && sh.kids[l] == [] && |sh.path[n]| <= |sh.path[l]|
    decreases itemno - |sh.path[n]|
  {
    DepthBound(sh.path[n], itemno);
    assert NodeOk(ns, sh, n);
    if sh.kids[n] == [] then n else
      assert KidOk(ns, sh, n, 0);
      DepthBound(sh.path[sh.kids[n][0]], itemno);
      LeafOf(ns, sh, itemno, sh.kids[n][0])
  }

  lemma {:induction false} DepthBound(p: seq<nat>, itemno: nat)
    requires Ascending(p) && forall i :: 0 <= i < |p| ==> p[i] < itemno
    ensures |p| <= itemno
    ensures forall i :: 0 <= i < |p| ==> i <= p[i]
  {
    if p != [] {
      var q := p[..|p| - 1];
      DepthBound(q, p[|p| - 1]);
    }
  }

  /** Depths of the leaves visited so far. */
  ghost function VisitedDepths(sh: Shape, vis: set<nat>): seq<int>
    requires |sh.path| == |sh.kids|
  {
    seq(|sh.path|, n requires 0 <= n < |sh.path| => if n in vis && sh.kids[n] == [] then |sh.path[n]| else 0)
  }

  lemma VisitLeaf(sh: Shape, vis: set<nat>, l: nat)
    requires |sh.path| == |sh.kids| && l < |sh.path| && l !in vis && sh.kids[l] == []
    ensures Sum(VisitedDepths(sh, vis + {l})) == Sum(VisitedDepths(sh, vis)) + |sh.path[l]|
    ensures Sum(VisitedDepths(sh, vis)) + |sh.path[l]| <= Sum(LeafDepths(sh))
  {
    var d := VisitedDepths(sh, vis);
    assert VisitedDepths(sh, vis + {l}) == d[l := |sh.path[l]|];
    SumUpdate(d, l, |sh.path[l]|);
    SumMonotone(VisitedDepths(sh, vis + {l}), LeafDepths(sh));
  }

  lemma VisitInner(sh: Shape, vis: set<nat>, n: nat)
    requires |sh.path| == |sh.kids| && n < |sh.path| && sh.kids[n] != []
    ensures VisitedDepths(sh, vis + {n}) == VisitedDepths(sh, vis)
  {
  }

  /** The depth-first traversal: `anc[k]` is the node whose children level k of the stack walks through, and
    * `js[k]` of them are done. */
  datatype Walk = Walk(anc: seq<nat>, js: seq<nat>, vis: set<nat>)

  ghost predicate OpenLevelOk(ns: seq<Fnode>, sh: Shape, w: Walk, k: nat)
    requires Linked(ns, sh) && |w.anc| == |w.js| && k < |w.anc|
  {
    && w.anc[k] < |ns| && |sh.path[w.anc[k]]| == k && w.anc[k] in w.vis
    && w.js[k] <= |sh.kids[w.anc[k]]|
    && (forall j :: 0 <= j < |sh.kids[w.anc[k]]| ==> (sh.kids[w.anc[k]][j] in w.vis <==> j < w.js[k]))
    && (k > 0 ==> w.anc[k - 1] < |ns| && sh.path[w.anc[k - 1]] == Init(sh.path[w.anc[k]]))
  }

  /** Visited nodes off the stack are done with all their children; below an unvisited node nothing is visited. */
  ghost predicate WalkOk(ns: seq<Fnode>, sh: Shape, w: Walk)
    requires Linked(ns, sh)
  {
    && |w.anc| == |w.js|
    && (forall v :: v in w.vis ==> v < |ns|) && 0 in w.vis
    && (forall k :: 0 <= k < |w.anc| ==> OpenLevelOk(ns, sh, w, k))
    && (forall v, j :: v in w.vis && v !in w.anc && v < |ns| && 0 <= j < |sh.kids[v]| ==> sh.kids[v][j] in w.vis)
    && (forall v, j :: 0 <= v < |ns| && v !in w.vis && 0 <= j < |sh.kids[v]| ==> sh.kids[v][j] !in w.vis)
  }

  /** The next child on the top level, NULL when there is none: what the source keeps in nodestack. */
  ghost function NextKid(sh: Shape, w: Walk, k: nat): int
    requires |w.anc| == |w.js| && k < |w.anc| && w.anc[k] < |sh.kids|
  {
    var ks := sh.kids[w.anc[k]];
    if w.js[k] < |ks| then ks[w.js[k]] else NULL
  }

  ghost function Visit(w: Walk, n: nat): Walk
    requires w.js != []
  {
    Walk(w.anc, w.js[|w.js| - 1 := Last(w.js) + 1], w.vis + {n})
  }

  ghost function Enter(w: Walk, n: nat): Walk { Walk(w.anc + [n], w.js + [0], w.vis) }

  ghost function Leave(w: Walk): Walk
    requires w.anc != [] && w.js != []
  {
    Walk(Init(w.anc), Init(w.js), w.vis)
  }

  /** Visit the next child of the top level. If it is a leaf the traversal goes on here ... */
  lemma VisitLeafOk(ns: seq<Fnode>, sh: Shape, w: Walk, n: nat)
    requires Linked(ns, sh) && WalkOk(ns, sh, w) && w.anc != []
    requires OpenLevelOk(ns, sh, w, |w.anc| - 1) && NextKid(sh, w, |w.anc| - 1) == n
    ensures n < |ns| && n !in w.vis && sh.par[n] == Last(w.anc)
    ensures sh.path[n] != [] && Init(sh.path[n]) == sh.path[Last(w.anc)] && Last(sh.path[n]) == ns[n].itemname
    ensures ns[n].rightsibling == NextKid(sh, Visit(w, n), |w.anc| - 1)
    ensures sh.kids[n] == [] ==> WalkOk(ns, sh, Visit(w, n))
  {
    var k := |w.anc| - 1;
    var p := w.anc[k];
    assert NodeOk(ns, sh, p);
    assert KidOk(ns, sh, p, w.js[k]);
    assert n !in w.vis;
    var w' := Visit(w, n);
    assert Init(sh.path[n]) == sh.path[p];
    if sh.kids[n] == [] {
      forall i | 0 <= i < |w.anc| ensures OpenLevelOk(ns, sh, w', i) {
        VisitLevel(ns, sh, w, n, i);
      }
      VisitRest(ns, sh, w, n);
    }
  }

  lemma VisitLevel(ns: seq<Fnode>, sh: Shape, w: Walk, n: nat, i: nat)
    requires Linked(ns, sh) && WalkOk(ns, sh, w) && w.anc != []
    requires OpenLevelOk(ns, sh, w, |w.anc| - 1)
    requires n < |ns| && NextKid(sh, w, |w.anc| - 1) == n && sh.par[n] == Last(w.anc) && i < |w.anc|
    ensures OpenLevelOk(ns, sh, Visit(w, n), i)
  {
    var w' := Visit(w, n);
    assert OpenLevelOk(ns, sh, w, i) && OpenLevelOk(ns, sh, w, |w.anc| - 1);
    assert NodeOk(ns, sh, w.anc[i]);
    forall j | 0 <= j < |sh.kids[w.anc[i]]| ensures sh.kids[w.anc[i]][j] in w'.vis <==> j < w'.js[i] {
      assert KidOk(ns, sh, w.anc[i], j);
    }
  }

  lemma VisitRest(ns: seq<Fnode>, sh: Shape, w: Walk, n: nat)
    requires Linked(ns, sh) && WalkOk(ns, sh, w) && w.anc != []
    requires n < |ns| && sh.par[n] == Last(w.anc) && Last(w.anc) in w.vis
    ensures forall v, j :: 0 <= v < |ns| && v !in w.vis + {n} && 0 <= j < |sh.kids[v]| ==> sh.kids[v][j] !in w.vis + {n}
  {
    forall v, j | 0 <= v < |ns| && v !in w.vis + {n} && 0 <= j < |sh.kids[v]| ensures sh.kids[v][j] !in w.vis + {n} {
      assert NodeOk(ns, sh, v);
      assert KidOk(ns, sh, v, j);
    }
  }

  /** ... and if it has children, its own children come next. */
  lemma VisitInnerOk(ns: seq<Fnode>, sh: Shape, w: Walk, n: nat)
    requires Linked(ns, sh) && WalkOk(ns, sh, w) && w.anc != []
    requires OpenLevelOk(ns, sh, w, |w.anc| - 1)
    requires NextKid(sh, w, |w.anc| - 1) == n && n < |ns| && n !in w.vis && sh.par[n] == Last(w.anc)
    requires sh.path[n] != [] && Init(sh.path[n]) == sh.path[Last(w.anc)]
    ensures WalkOk(ns, sh, Enter(Visit(w, n), n))
    ensures n !in w.anc
  {
    var w1 := Visit(w, n);
    var w' := Enter(w1, n);
    assert OpenLevelOk(ns, sh, w, |w.anc| - 1);
    forall i | 0 <= i < |w'.anc| ensures OpenLevelOk(ns, sh, w', i) {
      if i < |w.anc| {
        VisitLevel(ns, sh, w, n, i);
        assert OpenLevelOk(ns, sh, w1, i);
      } else {
        assert NodeOk(ns, sh, n);
        forall j | 0 <= j < |sh.kids[n]| ensures sh.kids[n][j] !in w'.vis { assert KidOk(ns, sh, n, j); }
      }
    }
    VisitRest(ns, sh, w, n);
    forall v | v in w.anc ensures v in w.vis {
      var k :| 0 <= k < |w.anc| && w.anc[k] == v;
      assert OpenLevelOk(ns, sh, w, k);
    }
  }

  /** A level without further children is left behind. */
  lemma LeaveOk(ns: seq<Fnode>, sh: Shape, w: Walk)
    requires Linked(ns, sh) && WalkOk(ns, sh, w) && w.anc != []
    requires OpenLevelOk(ns, sh, w, |w.anc| - 1) && NextKid(sh, w, |w.anc| - 1) == NULL
    ensures WalkOk(ns, sh, Leave(w))
  {
    var k := |w.anc| - 1;
    var w' := Leave(w);
    assert NodeOk(ns, sh, w.anc[k]);
    forall i | 0 <= i < k ensures OpenLevelOk(ns, sh, w', i) { assert OpenLevelOk(ns, sh, w, i); }
    forall v, j | v in w'.vis && v !in w'.anc && v < |ns| && 0 <= j < |sh.kids[v]| ensures sh.kids[v][j] in w'.vis {
      if v == w.anc[k] { } else { assert v !in w.anc; }
    }
  }

  /** When the stack is empty every node has been visited. */
  lemma {:induction false} AllVisited(ns: seq<Fnode>, sh: Shape, itemno: nat, w: Walk, n: nat)
    requires TreeShape(ns, sh, itemno) && WalkOk(ns, sh, w) && w.anc == [] && n < |ns|
    ensures n in w.vis
    decreases |sh.path[n]|
  {
    if n > 0 {
      assert NodeOk(ns, sh, n);
      var q := sh.par[n];
      var j :| 0 <= j < |sh.kids[q]| && sh.kids[q][j] == n;
      assert NodeOk(ns, sh, q);
      assert KidOk(ns, sh, q, j);
      AllVisited(ns, sh, itemno, w, q);
    }
  }

  /** The slots a visited node's path occupies are never written again. */
  lemma PathKept(a: seq<int>, a': seq<int>, b: int, p: seq<nat>, mark: int, i: int)
    requires PathAt(a, b, p, mark) && 0 <= i < b && i < |a| && |a'| == |a|
    requires forall k :: i < k < |a| ==> a'[k] == a[k]
    ensures PathAt(a', b, p, mark)
  {
  }

  /** Leaving out the last item means starting one slot later; adding one means one slot earlier. */
  lemma PathInit(a: seq<int>, b: int, p: seq<nat>, mark: int)
    requires p != [] && PathAt(a, b, p, mark)
    ensures PathAt(a, b + 1, Init(p), mark)
  {
  }

  lemma PathExtend(a: seq<int>, b: int, p: seq<nat>, mark: int)
    requires p != [] && b >= 0 && PathAt(a, b + 1, Init(p), mark) && a[b] == Last(p)
    ensures PathAt(a, b, p, mark)
  {
  }

  ghost predicate EntryOk(a: seq<int>, e: Entry, n: nat, x: nat, ns: seq<Fnode>, sh: Shape, mark: int, itemiter: int)
  {
    && 0 < n < |ns| && n < |sh.path| && sh.path[n] != []
    && ns[n].itemname == x && e.count == ns[n].count
    && e.begin > itemiter && PathAt(a, e.begin, Init(sh.path[n]), mark)
  }

  /** `ids` names the node of every entry: the visited nodes, each once, each under its own item. */
  ghost predicate EntriesOk(a: seq<int>, lists: seq<seq<Entry>>, ids: seq<seq<nat>>, ns: seq<Fnode>, sh: Shape,
                            vis: set<nat>, mark: int, itemiter: int)
  {
    && |lists| == |ids|
    && (forall x :: 0 <= x < |ids| ==> |lists[x]| == |ids[x]|)
    && (forall x, k :: 0 <= x < |ids| && 0 <= k < |ids[x]| ==>
          ids[x][k] in vis && EntryOk(a, lists[x][k], ids[x][k], x, ns, sh, mark, itemiter))
    && (forall x, j, k :: 0 <= x < |ids| && 0 <= j < k < |ids[x]| ==> ids[x][j] != ids[x][k])
    && (forall v :: v in vis && 0 < v < |ns| ==> 0 <= ns[v].itemname < |ids| && v in ids[ns[v].itemname])
  }

  lemma EntriesKept(a: seq<int>, a': seq<int>, lists: seq<seq<Entry>>, ids: seq<seq<nat>>, ns: seq<Fnode>, sh: Shape,
                    vis: set<nat>, mark: int, i: int, i': int)
    requires EntriesOk(a, lists, ids, ns, sh, vis, mark, i) && 0 <= i < |a| == |a'| && i' <= i
    requires forall k :: i < k < |a| ==> a'[k] == a[k]
    ensures EntriesOk(a', lists, ids, ns, sh, vis, mark, i')
  {
    forall x, k | 0 <= x < |ids| && 0 <= k < |ids[x]|
      ensures ids[x][k] in vis && EntryOk(a', lists[x][k], ids[x][k], x, ns, sh, mark, i')
    {
      assert EntryOk(a, lists[x][k], ids[x][k], x, ns, sh, mark, i);
      PathKept(a, a', lists[x][k].begin, Init(sh.path[ids[x][k]]), mark, i);
    }
  }

  lemma EntriesRecord(a: seq<int>, lists: seq<seq<Entry>>, ids: seq<seq<nat>>, ns: seq<Fnode>, sh: Shape,
                      vis: set<nat>, mark: int, i: int, n: nat, x: nat, e: Entry)
    requires EntriesOk(a, lists, ids, ns, sh, vis, mark, i) && n !in vis && x < |ids|
    requires EntryOk(a, e, n, x, ns, sh, mark, i)
    ensures EntriesOk(a, lists[x := lists[x] + [e]], ids[x := ids[x] + [n]], ns, sh, vis + {n}, mark, i)
  {
    var ids' := ids[x := ids[x] + [n]];
    assert n == ids'[x][|ids[x]|];
    forall v | v in vis && 0 < v < |ns| ensures v in ids'[ns[v].itemname] {
      var k :| 0 <= k < |ids[ns[v].itemname]| && ids[ns[v].itemname][k] == v;
      assert ids'[ns[v].itemname][k] == v;
    }
  }

  lemma {:induction false} LeafUnvisited(ns: seq<Fnode>, sh: Shape, itemno: nat, w: Walk, n: nat)
    requires TreeShape(ns, sh, itemno) && WalkOk(ns, sh, w) && n < |ns| && n !in w.vis
    ensures LeafOf(ns, sh, itemno, n) !in w.vis
    decreases itemno - |sh.path[n]|
  {
    DepthBound(sh.path[n], itemno);
    assert NodeOk(ns, sh, n);
    if sh.kids[n] != [] {
      assert KidOk(ns, sh, n, 0);
      DepthBound(sh.path[sh.kids[n][0]], itemno);
      LeafUnvisited(ns, sh, itemno, w, sh.kids[n][0]);
    }
  }

  ghost predicate StackOk(nodestack: seq<int>, sh: Shape, w: Walk, levels: nat)
  {
    && levels <= |w.anc| == |w.js| && levels <= |nodestack|
    && (forall k :: 0 <= k < levels ==> w.anc[k] < |sh.kids| && nodestack[k] == NextKid(sh, w, k))
  }

  /** itemstack spells the path to the top level. */
  ghost predicate ItemsOk(itemstack: seq<int>, sh: Shape, w: Walk)
  {
    w.anc != [] ==>
      && Last(w.anc) < |sh.path| && |w.anc| <= |itemstack| && |sh.path[Last(w.anc)]| == |w.anc| - 1
      && (forall i :: 0 <= i < |w.anc| - 1 ==> itemstack[i] == sh.path[Last(w.anc)][i])
  }

  /** Room: no more slots are used up than the depths of the leaves visited. */
  ghost predicate RoomOk(size: nat, itemiter: int, sh: Shape, vis: set<nat>)
  {
    && |sh.path| == |sh.kids| && 0 <= itemiter < size
    && itemiter + Sum(VisitedDepths(sh, vis)) >= size - 1
    && size >= Sum(LeafDepths(sh)) + 2
  }

  lemma RoomForLeaf(size: nat, itemiter: int, sh: Shape, vis: set<nat>, l: nat)
    requires RoomOk(size, itemiter, sh, vis) && l < |sh.path| && l !in vis && sh.kids[l] == []
    ensures itemiter >= |sh.path[l]| + 1
    ensures RoomOk(size, itemiter - |sh.path[l]|, sh, vis + {l})
    ensures RoomOk(size, itemiter, sh, vis + {l})
  {
    VisitLeaf(sh, vis, l);
  }

  /** What visiting n, the next child of the top level, looks like from the traversal's variables. */
  lemma NextNode(ns: seq<Fnode>, sh: Shape, itemno: nat, w: Walk, nodestack: seq<int>, itemstack: seq<int>, n: nat)
    requires TreeShape(ns, sh, itemno) && WalkOk(ns, sh, w) && w.anc != [] && ItemsOk(itemstack, sh, w)
    requires |w.anc| <= |nodestack| && OpenLevelOk(ns, sh, w, |w.anc| - 1) && NextKid(sh, w, |w.anc| - 1) == n
    requires StackOk(nodestack, sh, w, |w.anc| - 1)
    ensures 0 < n < |ns| == |sh.path| == |sh.kids| && n !in w.vis && Last(w.anc) < |sh.path| && |sh.path[n]| == |w.anc|
    ensures sh.path[n] != [] && Init(sh.path[n]) == sh.path[Last(w.anc)]
    ensures 0 <= ns[n].itemname < itemno && ns[n].itemname == Last(sh.path[n])
    ensures ns[n].leftchild == NULL <==> sh.kids[n] == []
    ensures sh.kids[n] == [] ==> WalkOk(ns, sh, Visit(w, n))
    ensures sh.kids[n] != [] ==> WalkOk(ns, sh, Enter(Visit(w, n), n))
    ensures StackOk(nodestack[|w.anc| - 1 := ns[n].rightsibling], sh, Visit(w, n), |w.anc|)
    ensures ItemsOk(itemstack, sh, Visit(w, n))
  {
    VisitLeafOk(ns, sh, w, n);
    VisitInnerOk(ns, sh, w, n);
    assert NodeOk(ns, sh, n);
    assert ns[n].itemname == sh.path[n][|sh.path[n]| - 1];
    hide WalkOk;
    assert n > 0 by { assert sh.path[0] == []; }
  }

  lemma TopLevel(ns: seq<Fnode>, sh: Shape, w: Walk, nodestack: seq<int>)
    requires Linked(ns, sh) && WalkOk(ns, sh, w) && w.anc != [] && StackOk(nodestack, sh, w, |w.anc|)
    ensures |w.anc| <= |nodestack| && OpenLevelOk(ns, sh, w, |w.anc| - 1)
    ensures nodestack[|w.anc| - 1] == NextKid(sh, w, |w.anc| - 1)
    ensures StackOk(nodestack, sh, w, |w.anc| - 1)
  {
  }

  /** What leaving the top level looks like. */
  lemma LeaveState(ns: seq<Fnode>, sh: Shape, w: Walk, nodestack: seq<int>, itemstack: seq<int>, a: seq<int>, kept: int, mark: int)
    requires Linked(ns, sh) && WalkOk(ns, sh, w) && w.anc != [] && StackOk(nodestack, sh, w, |w.anc|) && ItemsOk(itemstack, sh, w)
    requires nodestack[|w.anc| - 1] == NULL
    ensures WalkOk(ns, sh, Leave(w)) && StackOk(nodestack, sh, Leave(w), |w.anc| - 1) && ItemsOk(itemstack, sh, Leave(w))
    ensures Last(w.anc) < |sh.path| && |w.js| == |w.anc|
    ensures |w.anc| > 1 && PathAt(a, kept, sh.path[Last(w.anc)], mark) ==>
      Last(Leave(w).anc) < |sh.path| && PathAt(a, kept + 1, sh.path[Last(Leave(w).anc)], mark)
  {
    var k := |w.anc| - 1;
    TopLevel(ns, sh, w, nodestack);
    LeaveOk(ns, sh, w);
    if k > 0 {
      assert OpenLevelOk(ns, sh, w, k - 1);
      if PathAt(a, kept, sh.path[w.anc[k]], mark) { PathInit(a, kept, sh.path[w.anc[k]], mark); }
    }
  }

  /** The branch's own slots: the mark, then the items of the ancestors above the top level. */
  lemma PrefixWritten(a: seq<int>, it0: int, itemstack: seq<int>, sh: Shape, w: Walk, mark: int)
    requires ItemsOk(itemstack, sh, w) && w.anc != [] && |w.anc| <= it0 < |a| && a[it0] == mark
    requires forall i :: 0 <= i < |w.anc| - 1 ==> a[it0 - 1 - i] == itemstack[i]
    ensures PathAt(a, it0 - |w.anc| + 1, sh.path[Last(w.anc)], mark)
  {
    var p, b := sh.path[Last(w.anc)], it0 - |w.anc| + 1;
    forall i | b <= i < b + |p| ensures a[i] == p[|p| - 1 - (i - b)] {
      var j := it0 - 1 - i;
      assert a[it0 - 1 - j] == itemstack[j];
    }
  }

  lemma LeafOfStep(ns: seq<Fnode>, sh: Shape, itemno: nat, n: nat)
    requires TreeShape(ns, sh, itemno) && n < |ns|
    ensures sh.kids[n] == [] ==> LeafOf(ns, sh, itemno, n) == n
    ensures sh.kids[n] != [] ==> 0 <= ns[n].leftchild < |ns| && LeafOf(ns, sh, itemno, n) == LeafOf(ns, sh, itemno, ns[n].leftchild)
    ensures |sh.path[n]| <= |sh.path[LeafOf(ns, sh, itemno, n)]|
  {
    assert NodeOk(ns, sh, n);
    if sh.kids[n] != [] { assert KidOk(ns, sh, n, 0); }
  }

  /** One node of a chain: its slot extends the branch; its entry begins at its parent's slot. */
  lemma ChainWrite(a: seq<int>, i: int, lists: seq<seq<Entry>>, ids: seq<seq<nat>>, ns: seq<Fnode>, sh: Shape, w: Walk,
                   mark: int, n: nat, x: nat)
    requires EntriesOk(a, lists, ids, ns, sh, w.vis, mark, i + 1) && 0 < i < |a| && n !in w.vis && x < |ids|
    requires 0 < n < |ns| == |sh.path| && sh.path[n] != [] && Last(sh.path[n]) == x == ns[n].itemname
    requires PathAt(a, i + 1, Init(sh.path[n]), mark)
    ensures PathAt(a[i := x], i, sh.path[n], mark) && PathAt(a[i := x], i + 1, Init(sh.path[n]), mark)
    ensures |lists| == |ids|
    ensures EntriesOk(a[i := x], lists[x := lists[x] + [Entry(i + 1, ns[n].count)]], ids[x := ids[x] + [n]], ns, sh,
                      w.vis + {n}, mark, i)
  {
    var a' := a[i := x];
    var e := Entry(i + 1, ns[n].count);
    PathKept(a, a', i + 1, Init(sh.path[n]), mark, i);
    PathExtend(a', i, sh.path[n], mark);
    EntriesKept(a, a', lists, ids, ns, sh, w.vis, mark, i + 1, i);
    EntriesRecord(a', lists, ids, ns, sh, w.vis, mark, i, n, x, e);
  }

  lemma SameRoom(size: nat, it0: int, ns: seq<Fnode>, sh: Shape, vis: set<nat>, n: nat)
    requires RoomOk(size, it0, sh, vis) && n < |sh.path| && sh.kids[n] != []
    ensures RoomOk(size, it0, sh, vis + {n})
  {
    VisitInner(sh, vis, n);
  }

  /** The next link of a chain. */
  lemma EnterState(ns: seq<Fnode>, sh: Shape, itemno: nat, w: Walk, nodestack: seq<int>, itemstack: seq<int>, n: nat)
    requires TreeShape(ns, sh, itemno) && 0 < n < |ns| && w.anc != [] && |w.js| == |w.anc| && WalkOk(ns, sh, Enter(Visit(w, n), n))
    requires sh.kids[n] != [] && |sh.path[n]| == |w.anc| && itemno <= |itemstack|
    requires Last(w.anc) < |sh.path| && Init(sh.path[n]) == sh.path[Last(w.anc)]
    requires ItemsOk(itemstack, sh, w) && StackOk(nodestack, sh, Visit(w, n), |w.anc|)
    ensures StackOk(nodestack, sh, Enter(Visit(w, n), n), |w.anc|)
    ensures |w.anc| < |itemstack| && OpenLevelOk(ns, sh, Enter(Visit(w, n), n), |w.anc|)
    ensures 0 <= ns[n].leftchild < |ns| && NextKid(sh, Enter(Visit(w, n), n), |w.anc|) == ns[n].leftchild
    ensures ItemsOk(itemstack[|w.anc| - 1 := Last(sh.path[n])], sh, Enter(Visit(w, n), n))
  {
    assert NodeOk(ns, sh, n);
    assert KidOk(ns, sh, n, 0);
    DepthBound(sh.path[sh.kids[n][0]], itemno);
    var p, w' := sh.path[n], Enter(Visit(w, n), n);
    forall k | 0 <= k < |w.anc| ensures nodestack[k] == NextKid(sh, w', k) { assert nodestack[k] == NextKid(sh, Visit(w, n), k); }
    forall i | 0 <= i < |w.anc| ensures itemstack[|w.anc| - 1 := Last(p)][i] == p[i] {
      if i < |w.anc| - 1 { assert p[i] == Init(p)[i]; }
    }
  }

  lemma LevelBound(ns: seq<Fnode>, sh: Shape, itemno: nat, w: Walk, nodestack: seq<int>, itemstack: seq<int>)
    requires TreeShape(ns, sh, itemno) && w.anc != [] && StackOk(nodestack, sh, w, |w.anc| - 1)
    requires OpenLevelOk(ns, sh, w, |w.anc| - 1) && ItemsOk(itemstack, sh, w)
    ensures |w.anc| <= |nodestack| + 1 && |w.anc| <= |itemstack| && |w.js| == |w.anc|
  {
  }

  /** Rewriting the top item does not matter to the levels above. */
  lemma SameItems(itemstack: seq<int>, sh: Shape, w: Walk, n: nat, item: int)
    requires ItemsOk(itemstack, sh, w) && w.anc != [] && |w.js| == |w.anc| && |w.anc| <= |itemstack|
    ensures ItemsOk(itemstack[|w.anc| - 1 := item], sh, Visit(w, n))
  {
  }

  lemma BranchStart(ns: seq<Fnode>, sh: Shape, itemno: nat, w: Walk, n: int, size: nat, itemiter: int)
    requires TreeShape(ns, sh, itemno) && WalkOk(ns, sh, w) && w.anc != [] && OpenLevelOk(ns, sh, w, |w.anc| - 1)
    requires n == NextKid(sh, w, |w.anc| - 1) && n != NULL && RoomOk(size, itemiter, sh, w.vis)
    ensures 0 <= n < |ns| == |sh.path| && n !in w.vis
    ensures itemiter < size && LeafOf(ns, sh, itemno, n) !in w.vis && itemiter >= |sh.path[LeafOf(ns, sh, itemno, n)]| + 1 > |w.anc|
  {
    VisitLeafOk(ns, sh, w, n);
    LeafUnvisited(ns, sh, itemno, w, n);
    RoomForLeaf(size, itemiter, sh, w.vis, LeafOf(ns, sh, itemno, n));
  }

  lemma VisitedBound(ns: seq<Fnode>, sh: Shape, itemno: nat, w: Walk)
    requires TreeShape(ns, sh, itemno) && WalkOk(ns, sh, w)
    ensures |w.vis| <= |ns|
  {
    Cardinality(w.vis, |ns|);
  }

  /** The finished encoding: every node of item x has exactly one entry in x's list, and the entry's path spells the
    * node's ancestors. */
  ghost predicate Flattened(a: seq<int>, lists: seq<seq<Entry>>, ids: seq<seq<nat>>, ns: seq<Fnode>, sh: Shape,
                            itemno: nat, mark: int)
  {
    && |lists| == |ids| == itemno
    && (forall x :: 0 <= x < |ids| ==> |lists[x]| == |ids[x]|)
    && (forall x, k :: 0 <= x < |ids| && 0 <= k < |ids[x]| ==> EntryOk(a, lists[x][k], ids[x][k], x, ns, sh, mark, -1))
    && (forall x, j, k :: 0 <= x < |ids| && 0 <= j < k < |ids[x]| ==> ids[x][j] != ids[x][k])
    && (forall v :: 0 < v < |ns| ==> 0 <= ns[v].itemname < itemno && v in ids[ns[v].itemname])
  }
}
