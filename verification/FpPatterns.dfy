/** From the tree to its FP-array and back: what reading NodeArrayList[item] and following ItemArray yields. */
module FpPatterns {
  import opened Common
  import opened Transactions
  import opened Sums
  import opened FpShape
  import opened FpInsertion
  import opened FpLinking
  import opened FpArrays

  /** Transactions as insert receives them: ascending, and each counted at least once. */
  ghost predicate Proper(db: seq<Trans>)
  {
    forall k :: 0 <= k < |db| ==> Ascending(db[k].items) && db[k].weight > 0
  }

  lemma {:induction false} SomeTransaction(db: seq<Trans>, p: seq<nat>) returns (k: nat)
    requires PrefixWeight(db, p) > 0
    ensures k < |db| && p <= db[k].items
  {
    if p <= Last(db).items { k := |db| - 1; } else { k := SomeTransaction(Init(db), p); }
  }

  lemma {:induction false} TransactionCounts(db: seq<Trans>, p: seq<nat>, k: nat)
    requires k < |db| && p <= db[k].items && db[k].weight > 0
    ensures PrefixWeight(db, p) > 0
  {
    if k < |db| - 1 { TransactionCounts(Init(db), p, k); }
  }

  lemma TreeIsFlattenable(ns: seq<Fnode>, sh: Shape, db: seq<Trans>, itemno: nat)
    requires PrefixTree(ns, sh, db, itemno) && Proper(db) && itemno > 0
    ensures TreeShape(ns, sh, itemno)
  {
    forall n | 0 <= n < |ns| ensures Ascending(sh.path[n]) && (n > 0 ==> sh.path[n] != []) {
      assert NodeOk(ns, sh, n) && NodeOk(ns, sh, 0);
      if sh.path[n] != [] {
        var k := SomeTransaction(db, sh.path[n]);
        forall i, j | 0 <= i < j < |sh.path[n]| ensures sh.path[n][i] < sh.path[n][j] {
          assert sh.path[n][i] == db[k].items[i] && sh.path[n][j] == db[k].items[j];
        }
      }
    }
  }

  ghost function PathsOf(sh: Shape, ids: seq<nat>): (r: seq<seq<nat>>)
    requires forall k :: 0 <= k < |ids| ==> ids[k] < |sh.path|
    ensures |r| == |ids| && forall k :: 0 <= k < |ids| ==> r[k] == sh.path[ids[k]]
  {
    seq(|ids|, k requires 0 <= k < |ids| => sh.path[ids[k]])
  }

  /** A node other than the root carries the last item of its path. */
  lemma ItemOfNode(ns: seq<Fnode>, sh: Shape, itemno: nat, n: nat)
    requires TreeShape(ns, sh, itemno) && 0 < n < |ns|
    ensures sh.path[n] != [] && ns[n].itemname == Last(sh.path[n])
  {
    assert NodeOk(ns, sh, n);
    var q := sh.par[n];
    assert NodeOk(ns, sh, q);
    var j :| 0 <= j < |sh.kids[q]| && sh.kids[q][j] == n;
    assert KidOk(ns, sh, q, j);
  }

  /** The entries of item x are the nodes of item x. */
  lemma EntriesAreNodes(a: seq<int>, lists: seq<seq<Entry>>, ids: seq<seq<nat>>, ns: seq<Fnode>, sh: Shape, db: seq<Trans>,
                        itemno: nat, mark: int, x: nat)
    requires Flattened(a, lists, ids, ns, sh, itemno, mark) && PrefixTree(ns, sh, db, itemno) && Proper(db) && x < itemno
    ensures forall k :: 0 <= k < |ids[x]| ==> 0 < ids[x][k] < |sh.path|
    ensures NodePathsOf(PathsOf(sh, ids[x]), db, x)
  {
    TreeIsFlattenable(ns, sh, db, itemno);
    forall k | 0 <= k < |ids[x]| ensures 0 < ids[x][k] < |sh.path| && sh.path[ids[x][k]] != [] && Last(sh.path[ids[x][k]]) == x {
      assert EntryOk(a, lists[x][k], ids[x][k], x, ns, sh, mark, -1);
      ItemOfNode(ns, sh, itemno, ids[x][k]);
    }
    var paths := PathsOf(sh, ids[x]);
    forall j, k | 0 <= j < k < |paths| ensures paths[j] != paths[k] {
      assert NodeOk(ns, sh, ids[x][j]) && NodeOk(ns, sh, ids[x][k]);
    }
    forall t, i | 0 <= t < |db| && 0 <= i < |db[t].items| && db[t].items[i] == x ensures db[t].items[..i + 1] in paths {
      var p := db[t].items[..i + 1];
      TransactionCounts(db, p, t);
      var n := sh.at[p];
      ItemOfNode(ns, sh, itemno, n);
      var k :| 0 <= k < |ids[x]| && ids[x][k] == n;
      assert paths[k] == p;
    }
  }

  /** Reading a path back: from `b` to the mark, the deepest ancestor first. */
  function ReadBack(a: seq<int>, b: nat, mark: int): seq<nat>
    decreases |a| - b
  {
    if b >= |a| || a[b] == mark || a[b] < 0 then [] else ReadBack(a, b + 1, mark) + [a[b]]
  }

  lemma {:induction false} ReadBackPath(a: seq<int>, b: nat, p: seq<nat>, mark: int)
    requires PathAt(a, b, p, mark) && mark !in p
    ensures ReadBack(a, b, mark) == p
    decreases |p|
  {
    if p != [] {
      assert a[b] == Last(p) && Last(p) in p;
      PathInit(a, b, p, mark);
      ReadBackPath(a, b + 1, Init(p), mark);
    }
  }

  function Decode(a: seq<int>, list: seq<Entry>, mark: int): seq<Trans>
    requires forall k :: 0 <= k < |list| ==> list[k].begin >= 0
  {
    seq(|list|, k requires 0 <= k < |list| => Trans(ReadBack(a, list[k].begin, mark), list[k].count))
  }

  /** An ancestor is never the mark: the marks 0xff and 0xffff are used for at most 0x100 and 0x10000 items, and the largest
    * item never has children. */
  lemma AncestorsAreNotMarks(p: seq<nat>, itemno: nat, mark: int)
    requires p != [] && Ascending(p) && Last(p) < itemno <= mark + 1
    ensures mark !in Init(p)
    ensures forall i :: 0 <= i < |Init(p)| ==> Init(p)[i] < Last(p)
  {
  }

  /** What a list of entries in the array means, one weighted ancestor path per entry. */
  ghost predicate EntriesAt(a: seq<int>, list: seq<Entry>, mark: int, E: seq<Trans>, x: nat)
  {
    && |list| == |E|
    && (forall k :: 0 <= k < |E| ==>
          && PathAt(a, list[k].begin, E[k].items, mark) && mark !in E[k].items && Ascending(E[k].items)
          && E[k].weight == list[k].count > 0 && (forall i :: 0 <= i < |E[k].items| ==> E[k].items[i] < x))
  }

  lemma EntriesAtItem(a: seq<int>, lists: seq<seq<Entry>>, ids: seq<seq<nat>>, ns: seq<Fnode>, sh: Shape, db: seq<Trans>,
                      itemno: nat, mark: int, x: nat)
    requires Flattened(a, lists, ids, ns, sh, itemno, mark) && PrefixTree(ns, sh, db, itemno) && Proper(db) && x < itemno <= mark + 1
    ensures forall k :: 0 <= k < |ids[x]| ==> 0 < ids[x][k] < |sh.path|
    ensures NodePathsOf(PathsOf(sh, ids[x]), db, x)
    ensures EntriesAt(a, lists[x], mark, EntriesOf(PathsOf(sh, ids[x]), db), x)
  {
    EntriesAreNodes(a, lists, ids, ns, sh, db, itemno, mark, x);
    var paths := PathsOf(sh, ids[x]);
    var E := EntriesOf(paths, db);
    TreeIsFlattenable(ns, sh, db, itemno);
    forall k | 0 <= k < |E| ensures
          && PathAt(a, lists[x][k].begin, E[k].items, mark) && mark !in E[k].items && Ascending(E[k].items)
          && E[k].weight == lists[x][k].count > 0 && (forall i :: 0 <= i < |E[k].items| ==> E[k].items[i] < x)
    {
      assert EntryOk(a, lists[x][k], ids[x][k], x, ns, sh, mark, -1);
      assert NodeOk(ns, sh, ids[x][k]);
      AncestorsAreNotMarks(paths[k], itemno, mark);
    }
  }

  /** The encoding preserves meaning: reading the entries of item x back gives the ancestors of x's nodes with their
    * counts, one entry per node; so supports can be read off them. */
  lemma DecodeIsConditionalBase(a: seq<int>, lists: seq<seq<Entry>>, ids: seq<seq<nat>>, ns: seq<Fnode>, sh: Shape, db: seq<Trans>,
                                itemno: nat, mark: int, x: nat, Y: set<nat>)
    requires Flattened(a, lists, ids, ns, sh, itemno, mark) && PrefixTree(ns, sh, db, itemno) && Proper(db) && x < itemno <= mark + 1
    requires forall y :: y in Y ==> y < x
    ensures forall k :: 0 <= k < |lists[x]| ==> lists[x][k].begin >= 0
    ensures forall k :: 0 <= k < |ids[x]| ==> 0 < ids[x][k] < |sh.path|
    ensures NodePathsOf(PathsOf(sh, ids[x]), db, x)
    ensures Decode(a, lists[x], mark) == EntriesOf(PathsOf(sh, ids[x]), db)
    ensures Support(Decode(a, lists[x], mark), Y) == Support(db, Y + {x})
  {
    EntriesAtItem(a, lists, ids, ns, sh, db, itemno, mark, x);
    var E := EntriesOf(PathsOf(sh, ids[x]), db);
    forall k | 0 <= k < |lists[x]| ensures lists[x][k].begin >= 0 && ReadBack(a, lists[x][k].begin, mark) == E[k].items {
      ReadBackPath(a, lists[x][k].begin, E[k].items, mark);
    }
    assert Decode(a, lists[x], mark) == E;
    EntriesSupport(PathsOf(sh, ids[x]), db, x, Y);
  }

  /** The positions k with s[k] == 1. */
  ghost function Ones(s: seq<int>): set<nat> { set k | 0 <= k < |s| && s[k] == 1 }

  lemma {:induction false} SumOfOnes(s: seq<int>)
    requires forall k :: 0 <= k < |s| ==> s[k] == 0 || s[k] == 1
    ensures Sum(s) == |Ones(s)|
  {
    if s != [] {
      var n := |s| - 1;
      SumOfOnes(s[..n]);
      assert Ones(s) == if s[n] == 1 then Ones(s[..n]) + {n} else Ones(s[..n]);
    }
  }

  /** nodenum[x], by which NodeArrayList[x] was allocated, is exactly the number of entries written there. */
  lemma ListsFitExactly(a: seq<int>, lists: seq<seq<Entry>>, ids: seq<seq<nat>>, ns: seq<Fnode>, sh: Shape, itemno: nat, mark: int,
                        nodenum: seq<nat>, x: nat)
    requires Flattened(a, lists, ids, ns, sh, itemno, mark) && TreeShape(ns, sh, itemno) && NodenumOk(nodenum, ns, sh, itemno)
    requires x < itemno
    ensures |lists[x]| == nodenum[x]
  {
    var s := LinkedWith(ns, sh, x);
    SumOfOnes(s);
    ItemsCardinality(ids[x]);
    forall n | 0 <= n < |ns| ensures s[n] == 1 <==> n in ids[x] {
      RootHasNoParent(ns, sh, itemno);
      if n in ids[x] {
        var k :| 0 <= k < |ids[x]| && ids[x][k] == n;
        assert EntryOk(a, lists[x][k], ids[x][k], x, ns, sh, mark, -1);
      }
    }
    forall n | n in ids[x] ensures n < |ns| {
      var k :| 0 <= k < |ids[x]| && ids[x][k] == n;
      assert EntryOk(a, lists[x][k], ids[x][k], x, ns, sh, mark, -1);
    }
    assert Ones(s) == Items(ids[x]);
  }

  lemma RootHasNoParent(ns: seq<Fnode>, sh: Shape, itemno: nat)
    requires TreeShape(ns, sh, itemno)
    ensures sh.par[0] == NULL
  {
    assert NodeOk(ns, sh, 0);
    forall v, j | 0 <= v < |ns| && 0 <= j < |sh.kids[v]| ensures sh.kids[v][j] != 0 {
      assert NodeOk(ns, sh, v);
      assert KidOk(ns, sh, v, j);
    }
  }
}
