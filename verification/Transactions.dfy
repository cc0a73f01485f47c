/** Weighted transactions, itemset support, and the theorem that lets FP-growth read supports off a
  * prefix tree: summing node counts over the nodes of one item gives the support of every itemset
  * whose largest item it is.
  */
module Transactions {

  /** `items` in ascending item order; `weight` is how often the transaction occurs. */
  datatype Trans = Trans(items: seq<nat>, weight: nat)

  function Items(s: seq<nat>): set<nat> { set x | x in s }

  predicate Ascending(s: seq<nat>) { forall i, j :: 0 <= i < j < |s| ==> s[i] < s[j] }

  predicate NoRepeats(s: seq<nat>) { forall i, j :: 0 <= i < j < |s| ==> s[i] != s[j] }

  function Last<T>(s: seq<T>): T requires s != [] { s[|s| - 1] }

  function Init<T>(s: seq<T>): seq<T> requires s != [] { s[..|s| - 1] }

  lemma {:induction false} ItemsCardinality(s: seq<nat>)
    requires NoRepeats(s)
    ensures |Items(s)| == |s|
  {
    if s != [] {
      ItemsCardinality(Init(s));
      assert Items(s) == Items(Init(s)) + {Last(s)};
    }
  }

  lemma {:induction false} Cardinality(s: set<nat>, n: nat)
    requires forall x :: x in s ==> x < n
    ensures |s| <= n
  {
    if n == 0 {
      assert s == {};
    } else {
      Cardinality(s - {n - 1}, n - 1);
    }
  }

  /** The pigeonhole principle. */
  lemma Pigeonhole(s: seq<nat>, n: nat)
    requires NoRepeats(s) && forall i :: 0 <= i < |s| ==> s[i] < n
    ensures |s| <= n
  {
    ItemsCardinality(s);
    Cardinality(Items(s), n);
  }

  /** Total weight of the transactions that contain every item of X. */
  function Support(db: seq<Trans>, X: set<nat>): nat
  {
    if db == [] then 0
    else Support(Init(db), X) + if X <= Items(Last(db).items) then Last(db).weight else 0
  }

  /** Total weight of the transactions that start with p. */
  function PrefixWeight(db: seq<Trans>, p: seq<nat>): nat
  {
    if db == [] then 0
    else PrefixWeight(Init(db), p) + if p <= Last(db).items then Last(db).weight else 0
  }

  lemma SupportAppend(db: seq<Trans>, t: Trans, X: set<nat>)
    ensures Support(db + [t], X) == Support(db, X) + if X <= Items(t.items) then t.weight else 0
  {
    assert Init(db + [t]) == db;
  }

  lemma PrefixWeightAppend(db: seq<Trans>, t: Trans, p: seq<nat>)
    ensures PrefixWeight(db + [t], p) == PrefixWeight(db, p) + if p <= t.items then t.weight else 0
  {
    assert Init(db + [t]) == db;
  }

  lemma {:induction false} SupportAntitone(db: seq<Trans>, X: set<nat>, Y: set<nat>)
    requires X <= Y
    ensures Support(db, Y) <= Support(db, X)
  {
    if db != [] { SupportAntitone(Init(db), X, Y); }
  }

  /** Supports only depend on which items the transactions contain, not on how they are listed. */
  lemma {:induction false} SupportSameItems(db: seq<Trans>, db': seq<Trans>, X: set<nat>, X': set<nat>)
    requires |db| == |db'|
    requires forall k :: 0 <= k < |db| ==> db[k].weight == db'[k].weight
    requires forall k :: 0 <= k < |db| ==> (X <= Items(db[k].items) <==> X' <= Items(db'[k].items))
    ensures Support(db, X) == Support(db', X')
  {
    if db != [] { SupportSameItems(Init(db), Init(db'), X, X'); }
  }

  /** One entry per node path: the ancestors, weighted by how many transactions run through the node. */
  function EntriesOf(paths: seq<seq<nat>>, db: seq<Trans>): seq<Trans>
    requires forall k :: 0 <= k < |paths| ==> paths[k] != []
  {
    seq(|paths|, k requires 0 <= k < |paths| => Trans(Init(paths[k]), PrefixWeight(db, paths[k])))
  }

  /** Does the node with this path lie on transaction t below every item of Y? */
  predicate Hit(path: seq<nat>, t: seq<nat>, Y: set<nat>)
    requires path != []
  {
    path <= t && Y <= Items(Init(path))
  }

  /** t's contribution to the supports read off the node paths: w for every node hit. */
  function HitWeight(paths: seq<seq<nat>>, t: seq<nat>, Y: set<nat>, w: nat): nat
    requires forall k :: 0 <= k < |paths| ==> paths[k] != []
  {
    if paths == [] then 0
    else HitWeight(Init(paths), t, Y, w) + if Hit(Last(paths), t, Y) then w else 0
  }

  lemma {:induction false} EntriesAppend(paths: seq<seq<nat>>, db: seq<Trans>, t: Trans, Y: set<nat>)
    requires forall k :: 0 <= k < |paths| ==> paths[k] != []
    ensures Support(EntriesOf(paths, db + [t]), Y)
         == Support(EntriesOf(paths, db), Y) + HitWeight(paths, t.items, Y, t.weight)
  {
    if paths != [] {
      EntriesAppend(Init(paths), db, t, Y);
      assert Init(EntriesOf(paths, db + [t])) == EntriesOf(Init(paths), db + [t]);
      assert Init(EntriesOf(paths, db)) == EntriesOf(Init(paths), db);
      PrefixWeightAppend(db, t, Last(paths));
    }
  }

  lemma {:induction false} EntriesEmpty(paths: seq<seq<nat>>, Y: set<nat>)
    requires forall k :: 0 <= k < |paths| ==> paths[k] != []
    ensures Support(EntriesOf(paths, []), Y) == 0
  {
    if paths != [] {
      EntriesEmpty(Init(paths), Y);
      assert Init(EntriesOf(paths, [])) == EntriesOf(Init(paths), []);
    }
  }

  lemma {:induction false} NoHits(paths: seq<seq<nat>>, t: seq<nat>, Y: set<nat>, w: nat)
    requires forall k :: 0 <= k < |paths| ==> paths[k] != [] && !Hit(paths[k], t, Y)
    ensures HitWeight(paths, t, Y, w) == 0
  {
    if paths != [] { NoHits(Init(paths), t, Y, w); }
  }

  lemma {:induction false} OneHit(paths: seq<seq<nat>>, t: seq<nat>, Y: set<nat>, w: nat, h: nat)
    requires h < |paths|
    requires forall k :: 0 <= k < |paths| ==> paths[k] != [] && (Hit(paths[k], t, Y) <==> k == h)
    ensures HitWeight(paths, t, Y, w) == w
  {
    if h == |paths| - 1 { NoHits(Init(paths), t, Y, w); } else { OneHit(Init(paths), t, Y, w, h); }
  }

  /** `paths` lists, once each, the paths of all tree nodes of item s in the prefix tree of db. */
  ghost predicate NodePathsOf(paths: seq<seq<nat>>, db: seq<Trans>, s: nat)
  {
    && (forall k :: 0 <= k < |paths| ==> paths[k] != [] && Last(paths[k]) == s)
    && (forall j, k :: 0 <= j < k < |paths| ==> paths[j] != paths[k])
    && (forall t, i :: 0 <= t < |db| && 0 <= i < |db[t].items| && db[t].items[i] == s ==> db[t].items[..i + 1] in paths)
  }

  /** A prefix of t ending in s is hit exactly when t contains s and all of Y. */
  lemma HitMeansContained(path: seq<nat>, t: seq<nat>, i: nat, s: nat, Y: set<nat>)
    requires Ascending(t) && i < |t| && t[i] == s && path == t[..i + 1]
    requires forall y :: y in Y ==> y < s
    ensures Hit(path, t, Y) <==> Y + {s} <= Items(t)
  {
    assert Init(path) == t[..i];
    if Y <= Items(t) {
      forall y | y in Y ensures y in Init(path) {
        assert y in Items(t);
        var j :| 0 <= j < |t| && t[j] == y;
        assert j < i;
        assert Init(path)[j] == y;
      }
    }
  }

  lemma PrefixEndingIn(path: seq<nat>, t: seq<nat>, i: nat)
    requires path != [] && path <= t && Ascending(t) && i < |t| && Last(path) == t[i]
    ensures path == t[..i + 1]
  {
    assert path == t[..|path|];
    assert t[|path| - 1] == t[i];
  }

  lemma HitsOfTransaction(paths: seq<seq<nat>>, db: seq<Trans>, s: nat, Y: set<nat>)
    requires db != [] && NodePathsOf(paths, db, s)
    requires Ascending(Last(db).items) && forall y :: y in Y ==> y < s
    ensures HitWeight(paths, Last(db).items, Y, Last(db).weight)
         == if Y + {s} <= Items(Last(db).items) then Last(db).weight else 0
  {
    var t, w := Last(db).items, Last(db).weight;
    if i :| 0 <= i < |t| && t[i] == s {
      assert db[|db| - 1].items[i] == s;
      var h :| 0 <= h < |paths| && paths[h] == t[..i + 1];
      forall k | 0 <= k < |paths| && paths[k] <= t ensures k == h {
        PrefixEndingIn(paths[k], t, i);
      }
      HitMeansContained(paths[h], t, i, s, Y);
      if Y + {s} <= Items(t) { OneHit(paths, t, Y, w, h); } else { NoHits(paths, t, Y, w); }
    } else {
      assert s !in Items(t);
      forall k | 0 <= k < |paths| ensures !Hit(paths[k], t, Y) {
      }
      NoHits(paths, t, Y, w);
    }
  }

  /** The heart of FP-growth's counting: the entries of item s are a conditional database. */
  lemma {:induction false} EntriesSupport(paths: seq<seq<nat>>, db: seq<Trans>, s: nat, Y: set<nat>)
    requires NodePathsOf(paths, db, s)
    requires forall t :: 0 <= t < |db| ==> Ascending(db[t].items)
    requires forall y :: y in Y ==> y < s
    ensures Support(EntriesOf(paths, db), Y) == Support(db, Y + {s})
  {
    if db == [] {
      EntriesEmpty(paths, Y);
    } else {
      var t := Last(db);
      assert db == Init(db) + [t];
      EntriesSupport(paths, Init(db), s, Y);
      EntriesAppend(paths, Init(db), t, Y);
      HitsOfTransaction(paths, db, s, Y);
    }
  }
}
