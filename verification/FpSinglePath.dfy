/** Trees that are a single path: every transaction is then a prefix of 0, 1, 2, ..., so the support of a set is that of
  * its largest item, and the path lists the whole table in order.
  */
module FpSinglePath {
  import opened Common
  import opened Transactions
  import opened FpShape
  import opened FpLinking
  import opened FpArrays
  import opened FpPatterns
  import opened FpLevels
  import opened Mining
  import opened Powerset

  ghost predicate IsChain(sh: Shape) { forall n :: 0 <= n < |sh.kids| ==> |sh.kids[n]| <= 1 }

  lemma ParentOf(ns: seq<Fnode>, sh: Shape, n: nat)
    requires Linked(ns, sh) && n < |ns| && sh.par[n] != NULL
    ensures 0 <= sh.par[n] < |ns| && n in sh.kids[sh.par[n]]
    ensures sh.path[n] != [] && Init(sh.path[n]) == sh.path[sh.par[n]] && Last(sh.path[n]) == ns[n].itemname
  {
    assert NodeOk(ns, sh, n);
    var q := sh.par[n];
    assert NodeOk(ns, sh, q);
    var j :| 0 <= j < |sh.kids[q]| && sh.kids[q][j] == n;
    assert KidOk(ns, sh, q, j);
    assert (sh.path[q] + [ns[n].itemname])[..|sh.path[q]|] == sh.path[q];
  }

  lemma SamePathSameNode(ns: seq<Fnode>, sh: Shape, m: nat, n: nat)
    requires Linked(ns, sh) && m < |ns| && n < |ns| && sh.path[m] == sh.path[n]
    ensures m == n
  {
    assert NodeOk(ns, sh, m) && NodeOk(ns, sh, n);
  }

  lemma OnlyKid(ks: seq<nat>, m: nat, n: nat)
    requires |ks| <= 1 && m in ks && n in ks
    ensures m == n
  {
  }

  lemma {:induction false} ChainComparable(ns: seq<Fnode>, sh: Shape, db: seq<Trans>, itemno: nat, m: nat, n: nat)
    requires PrefixTree(ns, sh, db, itemno) && IsChain(sh)
    requires m < |ns| && n < |ns| && |sh.path[m]| <= |sh.path[n]|
    ensures sh.path[m] <= sh.path[n]
    decreases |sh.path[n]|
  {
    if sh.path[m] != [] {
      ParentOf(ns, sh, n);
      if |sh.path[m]| == |sh.path[n]| {
        ParentOf(ns, sh, m);
        ChainComparable(ns, sh, db, itemno, sh.par[m], sh.par[n]);
        SamePathSameNode(ns, sh, sh.par[m], sh.par[n]);
        OnlyKid(sh.kids[sh.par[m]], m, n);
      } else {
        ChainComparable(ns, sh, db, itemno, m, sh.par[n]);
      }
    }
  }

  /** Prefixes of transactions are paths of the tree. */
  lemma NodeOfPrefix(ns: seq<Fnode>, sh: Shape, db: seq<Trans>, itemno: nat, k: nat, i: nat) returns (n: nat)
    requires PrefixTree(ns, sh, db, itemno) && Proper(db) && k < |db| && i <= |db[k].items|
    ensures n < |ns| && sh.path[n] == db[k].items[..i]
  {
    TransactionCounts(db, db[k].items[..i], k);
    n := sh.at[db[k].items[..i]];
  }

  lemma {:induction false} SomeOccurrence(db: seq<Trans>, j: nat) returns (k: nat, i: nat)
    requires Support(db, {j}) > 0
    ensures k < |db| && i < |db[k].items| && db[k].items[i] == j
  {
    if {j} <= Items(Last(db).items) {
      k := |db| - 1;
      i :| 0 <= i < |db[k].items| && db[k].items[i] == j;
    } else {
      k, i := SomeOccurrence(Init(db), j);
    }
  }

  /** A transaction that contains an item contains all smaller ones in use, before it. */
  lemma SmallerItemsToo(ns: seq<Fnode>, sh: Shape, db: seq<Trans>, itemno: nat, k: nat, i: nat, j: nat)
    requires PrefixTree(ns, sh, db, itemno) && Proper(db) && IsChain(sh)
    requires k < |db| && i < |db[k].items| && j < db[k].items[i] && Support(db, {j}) > 0
    ensures j in db[k].items[..i]
  {
    var k', i' := SomeOccurrence(db, j);
    var m := NodeOfPrefix(ns, sh, db, itemno, k', i' + 1);
    var n := NodeOfPrefix(ns, sh, db, itemno, k, i + 1);
    var p, q := db[k'].items[..i' + 1], db[k].items[..i + 1];
    assert p[i'] == j && q[i] == db[k].items[i];
    if |p| <= |q| {
      ChainComparable(ns, sh, db, itemno, m, n);
      assert q[i'] == j;
      assert db[k].items[..i][i'] == j;
    } else {
      ChainComparable(ns, sh, db, itemno, n, m);
      assert false;
    }
  }

  /** On a single path the support of a set is the count of its largest item. */
  lemma SinglePathSupports(ns: seq<Fnode>, sh: Shape, db: seq<Trans>, D: seq<Trans>, P: set<nat>, U: set<nat>, T: nat,
                           table: seq<nat>, count: seq<nat>)
    requires PrefixTree(ns, sh, db, |table|) && Proper(db) && IsChain(sh) && T >= 1
    requires Represents(db, table, D, P) && LevelOk(D, P, U, T, table, count)
    ensures PathSupports(D, P, table, count)
  {
    forall X: set<nat>, i | 0 <= i < |table| && table[i] in X && X <= Names(table, i + 1) ensures Support(D, P + X) == count[i] {
      var Y := set j | 0 <= j <= i && table[j] in X;
      PickedBelow(table, i, X);
      assert Picked(table, {i}) == {table[i]};
      forall j | 0 <= j < |table| ensures Support(db, {j}) > 0 { UsedItem(db, D, P, U, T, table, count, j); }
      SupportOfLargest(ns, sh, db, |table|, i, Y);
    }
  }

  lemma SupportOfLargest(ns: seq<Fnode>, sh: Shape, db: seq<Trans>, itemno: nat, i: nat, Y: set<nat>)
    requires PrefixTree(ns, sh, db, itemno) && Proper(db) && IsChain(sh)
    requires forall j :: 0 <= j < itemno ==> Support(db, {j}) > 0
    requires i < itemno && i in Y && forall j :: j in Y ==> j <= i
    ensures Support(db, Y) == Support(db, {i})
  {
    forall k | 0 <= k < |db| ensures Y <= Items(db[k].items) <==> {i} <= Items(db[k].items) {
      if i in db[k].items {
        var e :| 0 <= e < |db[k].items| && db[k].items[e] == i;
        forall j | j in Y ensures j in db[k].items {
          if j < i { SmallerItemsToo(ns, sh, db, itemno, k, e, j); }
        }
      }
    }
    SupportSameItems(db, db, Y, {i});
  }

  lemma PickedBelow(table: seq<nat>, i: nat, X: set<nat>)
    requires i < |table| && X <= Names(table, i + 1)
    ensures Picked(table, set j | 0 <= j <= i && table[j] in X) == X
  {
    forall x | x in X ensures x in Picked(table, set j | 0 <= j <= i && table[j] in X) {
      var j :| 0 <= j <= i && table[..i + 1][j] == x;
      assert table[j] == x;
    }
  }

  /** Every item of a level occurs in its database. */
  lemma UsedItem(db: seq<Trans>, D: seq<Trans>, P: set<nat>, U: set<nat>, T: nat, table: seq<nat>, count: seq<nat>, j: nat)
    requires Represents(db, table, D, P) && LevelOk(D, P, U, T, table, count) && T >= 1 && j < |table|
    ensures Support(db, {j}) > 0
  {
    assert Picked(table, {j}) == {table[j]};
  }

  lemma {:induction false} NoGaps(p: seq<nat>, d: nat)
    requires Ascending(p) && d < |p| && forall j :: 0 <= j < p[d] ==> j in p
    ensures p[d] == d
  {
    if d > 0 { NoGaps(p, d - 1); }
    if p[d] > d {
      assert d in p;
      var e :| 0 <= e < |p| && p[e] == d;
      assert false;
    }
  }

  /** The nodes on the path carry the items 0, 1, 2, ... */
  lemma ChainItems(ns: seq<Fnode>, sh: Shape, db: seq<Trans>, itemno: nat, n: nat, d: nat)
    requires PrefixTree(ns, sh, db, itemno) && Proper(db) && IsChain(sh)
    requires forall j :: 0 <= j < itemno ==> Support(db, {j}) > 0
    requires n < |ns| && d < |sh.path[n]|
    ensures sh.path[n][d] == d
  {
    assert NodeOk(ns, sh, n);
    var k := SomeTransaction(db, sh.path[n]);
    var p, t := sh.path[n], db[k].items;
    assert p == t[..|p|];
    assert p[d] == t[d];
    forall j | 0 <= j < p[d] ensures j in p {
      SmallerItemsToo(ns, sh, db, itemno, k, d, j);
      var e :| 0 <= e < d && t[..d][e] == j;
      assert p[e] == j;
    }
    NoGaps(p, d);
  }

  /** The path ends only after the last item. */
  lemma ChainEnd(ns: seq<Fnode>, sh: Shape, db: seq<Trans>, itemno: nat, n: nat)
    requires PrefixTree(ns, sh, db, itemno) && Proper(db) && IsChain(sh)
    requires forall j :: 0 <= j < itemno ==> Support(db, {j}) > 0
    requires n < |ns| && sh.kids[n] == []
    ensures |sh.path[n]| >= itemno
  {
    var L := |sh.path[n]|;
    if L < itemno {
      var k, i := SomeOccurrence(db, itemno - 1);
      var m := NodeOfPrefix(ns, sh, db, itemno, k, i + 1);
      assert sh.path[m][i] == itemno - 1;
      ChainItems(ns, sh, db, itemno, m, i);
      var r := NodeOfPrefix(ns, sh, db, itemno, k, L + 1);
      assert r > 0 by { assert sh.path[0] == []; }
      ParentOf(ns, sh, r);
      ChainComparable(ns, sh, db, itemno, n, sh.par[r]);
      SamePathSameNode(ns, sh, n, sh.par[r]);
      assert false;
    }
  }

  /** No nodes at one depth, none below. */
  lemma {:induction false} NothingDeeper(ns: seq<Fnode>, sh: Shape, db: seq<Trans>, itemno: nat, L: nat, n: nat)
    requires PrefixTree(ns, sh, db, itemno) && n < |ns|
    requires forall m :: 0 <= m < |ns| ==> |sh.path[m]| != L
    ensures |sh.path[n]| < L
    decreases |sh.path[n]|
  {
    if |sh.path[n]| > 0 {
      ParentOf(ns, sh, n);
      NothingDeeper(ns, sh, db, itemno, L, sh.par[n]);
    } else {
      assert |sh.path[0]| != L;
    }
  }

  /** The walk of Single_path has reached q: the only node of its depth, and above it there were no branches. */
  ghost predicate ChainDownTo(ns: seq<Fnode>, sh: Shape, q: nat)
  {
    && |sh.path| == |sh.kids| == |ns| && q < |ns|
    && (forall n :: 0 <= n < |ns| && |sh.path[n]| < |sh.path[q]| ==> |sh.kids[n]| <= 1)
    && (forall n :: 0 <= n < |ns| && |sh.path[n]| == |sh.path[q]| ==> n == q)
  }

  lemma ChainStep(ns: seq<Fnode>, sh: Shape, db: seq<Trans>, itemno: nat, q: nat)
    requires PrefixTree(ns, sh, db, itemno) && ChainDownTo(ns, sh, q)
    ensures ns[q].leftchild == NULL ==> IsChain(sh)
    ensures ns[q].leftchild != NULL ==> 0 <= ns[q].leftchild < |ns| && |sh.path[ns[q].leftchild]| == |sh.path[q]| + 1
    ensures ns[q].leftchild != NULL && ns[ns[q].leftchild].rightsibling == NULL ==> ChainDownTo(ns, sh, ns[q].leftchild)
    ensures ns[q].leftchild != NULL && ns[ns[q].leftchild].rightsibling != NULL ==> !IsChain(sh)
  {
    assert NodeOk(ns, sh, q);
    var L := |sh.path[q]|;
    forall n | 0 <= n < |ns| && |sh.path[n]| == L + 1 ensures n in sh.kids[q] {
      ParentOf(ns, sh, n);
    }
    if ns[q].leftchild == NULL {
      forall n | 0 <= n < |ns| ensures |sh.kids[n]| <= 1 {
        NothingDeeper(ns, sh, db, itemno, L + 1, n);
      }
    } else {
      var c := ns[q].leftchild;
      assert KidOk(ns, sh, q, 0);
    }
  }

  lemma DepthOfNode(ns: seq<Fnode>, sh: Shape, db: seq<Trans>, itemno: nat, n: nat)
    requires PrefixTree(ns, sh, db, itemno) && Proper(db) && n < |ns|
    ensures |sh.path[n]| <= itemno
  {
    if sh.path[n] != [] {
      assert NodeOk(ns, sh, n);
      var k := SomeTransaction(db, sh.path[n]);
      var t := db[k].items;
      forall i, j | 0 <= i < j < |sh.path[n]| ensures sh.path[n][i] < sh.path[n][j] {
        assert sh.path[n][i] == t[i] && sh.path[n][j] == t[j];
      }
      DepthBound(sh.path[n], itemno);
    }
  }
}
