/** The whole miner, from the blocks of the data file to the report. */
module FpMiner {
  import opened Common
  import opened HotBits
  import opened Transactions
  import opened FpLinking
  import opened FpLevels
  import opened FpDatabase
  import opened FpFirst
  import opened Mining
  import FpScatter
  import FpSegments

  /** The transactions of the first n blocks. */
  ghost function FileTxns(blocks: seq<seq<int>>, n: nat, items: nat): seq<seq<nat>>
    requires n <= |blocks| && forall b :: 0 <= b < |blocks| ==> ContentOk(blocks[b], items)
  {
    if n == 0 then [] else FileTxns(blocks, n - 1, items) + Txns(blocks[n - 1], |blocks[n - 1]|, items)
  }

  /** Every transaction once. */
  ghost function DatabaseOf(txns: seq<seq<nat>>): seq<Trans>
  {
    seq(|txns|, k requires 0 <= k < |txns| => Trans(txns[k], 1))
  }

  const HOT_ITEM_NUM: nat := 16

  /** scan1_DB, database_tiling on several threads, the tree, and its mining on several threads. `counts` says how many transactions each
    * item is in, `assign` which thread gets which block, `who` which thread gets which item. The tree is built in the order of scan2_DB:
    * bitmask by bitmask, down the sorted list. The report lists every itemset with support THRESHOLD or more exactly once, with its
    * support, and nothing else; ITlen[k] is the number of frequent sets of k + 1 items.
    */
  method MineFile(blocks: seq<seq<int>>, assign: seq<nat>, who: nat -> nat, workingthread: nat, counts: seq<nat>, THRESHOLD: nat,
                  hotItemNum1: nat, SORTHRESH: nat) returns (ITlen: seq<nat>, out: seq<Emission>)
    requires THRESHOLD >= 1 && SORTHRESH >= 1 && |counts| < 0x8000_0000
    requires |assign| == |blocks| && forall b :: 0 <= b < |assign| ==> assign[b] < workingthread
    requires forall s: nat :: who(s) < workingthread
    requires forall b :: 0 <= b < |blocks| ==> ContentOk(blocks[b], |counts|)
    requires forall x :: 0 <= x < |counts| ==> counts[x] == Support(DatabaseOf(FileTxns(blocks, |blocks|, |counts|)), {x})
    ensures Mined(out, DatabaseOf(FileTxns(blocks, |blocks|, |counts|)), {}, Below(|counts|), THRESHOLD)
    ensures forall n :: 0 < n <= |ITlen| ==> ITlen[n - 1] == |Frequent(DatabaseOf(FileTxns(blocks, |blocks|, |counts|)), Below(|counts|), THRESHOLD, n)|
    ensures forall n :: n > |ITlen| ==> Frequent(DatabaseOf(FileTxns(blocks, |blocks|, |counts|)), Below(|counts|), THRESHOLD, n) == {}
  {
    ghost var D := DatabaseOf(FileTxns(blocks, |blocks|, |counts|));
    hide Mined, LevelOk, Represents, FirstOrder, Support, Frequent, DbOk;
    var table, count, order := Scan1Db(counts, THRESHOLD, SORTHRESH, D);
    if |table| == 0 {
      NothingToMine(D, Below(|counts|), THRESHOLD, table, count);
      return [], [];
    }
    TableInRange(D, |counts|, THRESHOLD, table, count, order);
    var numHotItem := if HOT_ITEM_NUM > |table| then |table| else HOT_ITEM_NUM;
    var hdb := TileFile(blocks, assign, workingthread, numHotItem, order, table, SORTHRESH);
    ITlen, out := MineDatabase(hdb, numHotItem, table, count, THRESHOLD, hotItemNum1, SORTHRESH, |counts|, workingthread, who, D, Below(|counts|));
    forall n | n > |ITlen| ensures Frequent(D, Below(|counts|), THRESHOLD, n) == {} {
      if n > |table| { NoLargerSets(D, Below(|counts|), THRESHOLD, table, count, n); }
    }
  }

  /** database_tiling and the reading of its segments: the records as scan2_DB finds them in the array into which the threads have copied
    * them, and those that hot_node_count alone knows of.
    */
  method TileFile(blocks: seq<seq<int>>, assign: seq<nat>, workingthread: nat, numHotItem: nat, order: seq<int>, table: seq<nat>,
                  SORTHRESH: nat) returns (hdb: seq<HotTrans>)
    requires |assign| == |blocks| && forall b :: 0 <= b < |assign| ==> assign[b] < workingthread
    requires numHotItem <= |table| && FirstOrder(order, table) && InRange(order, |table|) && SORTHRESH >= 1
    requires forall b :: 0 <= b < |blocks| ==> ContentOk(blocks[b], |order|)
    ensures DbOk(hdb, numHotItem, |table|) && Represents(FlatAll(hdb), table, DatabaseOf(FileTxns(blocks, |blocks|, |order|)), {})
  {
    hide DbOk, Represents, FirstOrder, InRange, AllTiled, TxnsByThread;
    var recs, sizes := EncodeFile(blocks, assign, workingthread, numHotItem, order, |table|);
    ghost var txns := TxnsByThread(blocks, assign, workingthread, |blocks|, |order|);
    hdb := SortByMask(recs, sizes, numHotItem, SORTHRESH, txns, order, table);
    TxnsAreAll(blocks, assign, workingthread, |blocks|, |order|);
    SameDatabase(FlatAll(hdb), table, Flatten(txns), FileTxns(blocks, |blocks|, |order|));
  }

  /** The second half of database_tiling, whatever the schedule of its threads, and the way of scan2_DB through the segments. */
  method SortByMask(recs: seq<seq<HotTrans>>, sizes: seq<seq<nat>>, numHotItem: nat, SORTHRESH: nat, ghost txns: seq<seq<seq<nat>>>,
                    ghost order: seq<int>, ghost table: seq<nat>) returns (hdb: seq<HotTrans>)
    requires AllTiled(recs, txns, sizes, order, numHotItem, |table|) && FirstOrder(order, table) && SORTHRESH >= 1
    ensures DbOk(hdb, numHotItem, |table|) && Represents(FlatAll(hdb), table, DatabaseOf(Flatten(txns)), {})
  {
    TiledRect(recs, txns, sizes, order, numHotItem, |table|);
    var n := Pow2(numHotItem);
    var cfg := FpScatter.Config(Files(recs), sizes, n);
    TiledFiles(recs, txns, sizes, order, numHotItem, |table|);
    hide DbOk, Represents, FirstOrder, AllTiled, FpScatter.Ranges, FpScatter.ConfigOk, FpScatter.Grouped, Flatten, HotOnly, Files;
    var sumntype, base, end, useful, sumworkload := FpScatter.Offsets(sizes, n);
    FpScatter.BaseIsTotal(sizes, n, n, sumntype);
    var ids, mbase, mend := FpScatter.ShareWork(sumntype, useful, sumworkload, SORTHRESH);
    hdb := FpSegments.Rearrange(cfg, base, end, sumworkload, ids, useful);
    Scan2Order(recs, txns, sizes, order, table, numHotItem, sumntype, ids, useful);
    hdb := hdb + HotOnly(Flatten(recs));
  }

  /** The loop over the table of blocks, as one thread sees it. */
  method EncodeThread(blocks: seq<seq<int>>, assign: seq<nat>, t: nat, numHotItem: nat, order: seq<int>, itemno: nat)
      returns (recs: seq<HotTrans>, sizes: seq<nat>)
    requires |assign| == |blocks|
    requires numHotItem <= itemno && InRange(order, itemno) && forall b :: 0 <= b < |blocks| ==> ContentOk(blocks[b], |order|)
    ensures Tiled(recs, ThreadTxns(blocks, assign, t, |blocks|, |order|), sizes, order, numHotItem, itemno)
  {
    hide Encoded, InRange, ContentOk;
    var tile := new Tile(numHotItem, order, itemno);
    var i := 0;
    while i < |blocks|
      invariant 0 <= i <= |blocks| && tile.Valid() && tile.txns == ThreadTxns(blocks, assign, t, i, |order|)
    {
      if assign[i] == t { tile.EncodeBlock(blocks[i]); }
      i := i + 1;
    }
    recs, sizes := tile.recs, tile.ntypearray;
  }

  /** What the threads leave behind. They share nothing, so their loops can be looked at one after the other. */
  method EncodeFile(blocks: seq<seq<int>>, assign: seq<nat>, workingthread: nat, numHotItem: nat, order: seq<int>, itemno: nat)
      returns (recs: seq<seq<HotTrans>>, sizes: seq<seq<nat>>)
    requires |assign| == |blocks|
    requires numHotItem <= itemno && InRange(order, itemno) && forall b :: 0 <= b < |blocks| ==> ContentOk(blocks[b], |order|)
    ensures AllTiled(recs, TxnsByThread(blocks, assign, workingthread, |blocks|, |order|), sizes, order, numHotItem, itemno)
  {
    hide Tiled, InRange, ContentOk;
    recs, sizes := [], [];
    var t := 0;
    while t < workingthread
      invariant 0 <= t <= workingthread && |recs| == |sizes| == t
      invariant forall u :: 0 <= u < t ==> Tiled(recs[u], ThreadTxns(blocks, assign, u, |blocks|, |order|), sizes[u], order, numHotItem, itemno)
    {
      var r, s := EncodeThread(blocks, assign, t, numHotItem, order, itemno);
      recs, sizes := recs + [r], sizes + [s];
      t := t + 1;
    }
  }

  /** The transactions that thread t meets among the first n blocks. */
  ghost function ThreadTxns(blocks: seq<seq<int>>, assign: seq<nat>, t: nat, n: nat, items: nat): seq<seq<nat>>
    requires n <= |blocks| == |assign| && forall b :: 0 <= b < |blocks| ==> ContentOk(blocks[b], items)
  {
    if n == 0 then []
    else ThreadTxns(blocks, assign, t, n - 1, items) + if assign[n - 1] == t then Txns(blocks[n - 1], |blocks[n - 1]|, items) else []
  }

  ghost function TxnsByThread(blocks: seq<seq<int>>, assign: seq<nat>, threads: nat, n: nat, items: nat): seq<seq<seq<nat>>>
    requires n <= |blocks| == |assign| && forall b :: 0 <= b < |blocks| ==> ContentOk(blocks[b], items)
  {
    seq(threads, t requires 0 <= t < threads => ThreadTxns(blocks, assign, t, n, items))
  }

  /** No transaction is lost and none comes twice when the blocks are shared out. */
  lemma {:induction false} TxnsAreAll(blocks: seq<seq<int>>, assign: seq<nat>, threads: nat, n: nat, items: nat)
    requires n <= |blocks| == |assign| && forall b :: 0 <= b < |blocks| ==> ContentOk(blocks[b], items)
    requires forall b :: 0 <= b < |assign| ==> assign[b] < threads
    ensures multiset(Flatten(TxnsByThread(blocks, assign, threads, n, items))) == multiset(FileTxns(blocks, n, items))
  {
    hide TxnsByThread, Flatten, FileTxns, Txns, ContentOk;
    if n == 0 {
      NoBlocks(blocks, assign, threads, items);
    } else {
      TxnsAreAll(blocks, assign, threads, n - 1, items);
      NextBlock(blocks, assign, threads, n, items);
    }
  }

  lemma NoBlocks(blocks: seq<seq<int>>, assign: seq<nat>, threads: nat, items: nat)
    requires |blocks| == |assign| && forall b :: 0 <= b < |blocks| ==> ContentOk(blocks[b], items)
    ensures Flatten(TxnsByThread(blocks, assign, threads, 0, items)) == FileTxns(blocks, 0, items) == []
  {
    hide Txns, ContentOk, Flatten;
    FlattenNothing(TxnsByThread(blocks, assign, threads, 0, items));
  }

  lemma NextBlock(blocks: seq<seq<int>>, assign: seq<nat>, threads: nat, n: nat, items: nat)
    requires 0 < n <= |blocks| == |assign| && forall b :: 0 <= b < |blocks| ==> ContentOk(blocks[b], items)
    requires assign[n - 1] < threads
    requires multiset(Flatten(TxnsByThread(blocks, assign, threads, n - 1, items))) == multiset(FileTxns(blocks, n - 1, items))
    ensures multiset(Flatten(TxnsByThread(blocks, assign, threads, n, items))) == multiset(FileTxns(blocks, n, items))
  {
    var x := Txns(blocks[n - 1], |blocks[n - 1]|, items);
    assert FileTxns(blocks, n, items) == FileTxns(blocks, n - 1, items) + x;
    hide Txns, TxnsByThread, Flatten, FileTxns;
    var s, s', t := TxnsByThread(blocks, assign, threads, n - 1, items), TxnsByThread(blocks, assign, threads, n, items), assign[n - 1];
    ThreadsOf(blocks, assign, threads, n - 1, items);
    OneMoreBlock(blocks, assign, threads, n, items);
    FlattenGrows(s, t, x);
    SameBags(FileTxns(blocks, n - 1, items), Flatten(s), Flatten(s'), x);
  }

  lemma ThreadsOf(blocks: seq<seq<int>>, assign: seq<nat>, threads: nat, n: nat, items: nat)
    requires n <= |blocks| == |assign| && forall b :: 0 <= b < |blocks| ==> ContentOk(blocks[b], items)
    ensures |TxnsByThread(blocks, assign, threads, n, items)| == threads
  {
  }

  lemma OneMoreBlock(blocks: seq<seq<int>>, assign: seq<nat>, threads: nat, n: nat, items: nat)
    requires 0 < n <= |blocks| == |assign| && forall b :: 0 <= b < |blocks| ==> ContentOk(blocks[b], items)
    requires assign[n - 1] < threads
    ensures var s := TxnsByThread(blocks, assign, threads, n - 1, items); var t := assign[n - 1];
      TxnsByThread(blocks, assign, threads, n, items) == s[t := s[t] + Txns(blocks[n - 1], |blocks[n - 1]|, items)]
  {
    hide Txns, ContentOk;
    var s, s', t := TxnsByThread(blocks, assign, threads, n - 1, items), TxnsByThread(blocks, assign, threads, n, items), assign[n - 1];
    forall u | 0 <= u < threads ensures s'[u] == if u == t then s[t] + Txns(blocks[n - 1], |blocks[n - 1]|, items) else s[u] {
      assert ThreadTxns(blocks, assign, u, n - 1, items) + [] == ThreadTxns(blocks, assign, u, n - 1, items);
    }
    assert s' == s[t := s[t] + Txns(blocks[n - 1], |blocks[n - 1]|, items)];
  }

  /** Supports are those of any arrangement of the transactions. */
  lemma SameDatabase(db: seq<Trans>, table: seq<nat>, txns: seq<seq<nat>>, txns': seq<seq<nat>>)
    requires Represents(db, table, DatabaseOf(txns), {}) && multiset(txns) == multiset(txns')
    ensures Represents(db, table, DatabaseOf(txns'), {})
  {
    hide Support, Picked;
    forall t: Trans ensures multiset(DatabaseOf(txns))[t] == multiset(DatabaseOf(txns'))[t] {
      DatabaseCount(txns, t);
      DatabaseCount(txns', t);
    }
    forall Y: set<nat> | forall y :: y in Y ==> y < |table| ensures Support(db, Y) == Support(DatabaseOf(txns'), {} + Picked(table, Y)) {
      SupportPermuted(DatabaseOf(txns), DatabaseOf(txns'), {} + Picked(table, Y));
    }
  }

  lemma {:induction false} DatabaseCount(txns: seq<seq<nat>>, t: Trans)
    ensures multiset(DatabaseOf(txns))[t] == if t.weight == 1 then multiset(txns)[t.items] else 0
  {
    if txns != [] {
      var n := |txns| - 1;
      DatabaseCount(txns[..n], t);
      assert txns == txns[..n] + [txns[n]];
      assert DatabaseOf(txns) == DatabaseOf(txns[..n]) + [Trans(txns[n], 1)];
    }
  }

  lemma TableInRange(D: seq<Trans>, items: nat, T: nat, table: seq<nat>, count: seq<nat>, order: seq<int>)
    requires LevelOk(D, {}, Below(items), T, table, count) && |order| == items && FirstOrder(order, table)
    ensures InRange(order, |table|) && |table| <= items && forall i :: 0 <= i < |table| ==> table[i] < items
  {
    forall x | 0 <= x < |order| ensures -1 <= order[x] < |table| {
      if x in table { var j :| 0 <= j < |table| && table[j] == x; }
    }
    Pigeonhole(table, items);
  }

  /** The tree's database stands for the transactions of the file. */
  lemma EncodedDatabase(recs: seq<HotTrans>, txns: seq<seq<nat>>, order: seq<int>, table: seq<nat>, numHot: nat)
    requires Encoded(recs, txns, order, numHot, |table|) && FirstOrder(order, table)
    ensures DbOk(recs, numHot, |table|) && Represents(FlatAll(recs), table, DatabaseOf(txns), {})
  {
    FlatOne(recs);
    FirstRepresents(FlatAll(recs), DatabaseOf(txns), table, order);
  }

  lemma {:induction false} FlatOne(recs: seq<HotTrans>)
    ensures |FlatAll(recs)| == |recs| && forall k :: 0 <= k < |recs| ==> FlatAll(recs)[k] == Flat(recs[k])
  {
    if recs != [] {
      FlatOne(Init(recs));
      forall k | 0 <= k < |recs| ensures FlatAll(recs)[k] == Flat(recs[k]) { assert k < |recs| - 1 ==> Init(recs)[k] == recs[k]; }
    }
  }

  /** Without a frequent item there is nothing to report. */
  lemma NothingToMine(D: seq<Trans>, U: set<nat>, T: nat, table: seq<nat>, count: seq<nat>)
    requires LevelOk(D, {}, U, T, table, count) && table == []
    ensures Mined([], D, {}, U, T) && forall n :: n > 0 ==> Frequent(D, U, T, n) == {}
  {
    Mining.NothingYet(D, {}, table, T);
    LevelMined([], D, {}, U, T, table, count);
    forall n | n > 0 ensures Frequent(D, U, T, n) == {} { NoLargerSets(D, U, T, table, count, n); }
  }

  /** A frequent set has frequent items only. */
  lemma NoLargerSets(D: seq<Trans>, U: set<nat>, T: nat, table: seq<nat>, count: seq<nat>, n: nat)
    requires LevelOk(D, {}, U, T, table, count) && n > |table|
    ensures Frequent(D, U, T, n) == {}
  {
    forall X | X in Frequent(D, U, T, n) ensures false {
      forall x | x in X ensures x in table { SupportAntitone(D, {} + {x}, X); }
      assert X <= Items(table);
      ItemsCardinality(table);
      FewerElements(X, Items(table));
    }
  }

  lemma {:induction false} FewerElements(a: set<nat>, b: set<nat>)
    requires a <= b
    ensures |a| <= |b|
  {
    if a != {} {
      var x :| x in a;
      FewerElements(a - {x}, b - {x});
    }
  }

  lemma SupportRemove(db: seq<Trans>, i: nat, X: set<nat>)
    requires i < |db|
    ensures Support(db, X) == Support(db[..i] + db[i + 1..], X) + if X <= Items(db[i].items) then db[i].weight else 0
    decreases |db|
  {
    var n := |db| - 1;
    if i == n {
      assert db[..i] + db[i + 1..] == Init(db);
    } else {
      SupportRemove(Init(db), i, X);
      var less := db[..i] + db[i + 1..];
      assert Init(less) == Init(db)[..i] + Init(db)[i + 1..] && Last(less) == Last(db);
    }
  }

  lemma RemoveOne(db: seq<Trans>, i: nat)
    requires i < |db|
    ensures multiset(db[..i] + db[i + 1..]) == multiset(db) - multiset{db[i]}
  {
    assert db == db[..i] + [db[i]] + db[i + 1..];
  }

  /** Support does not depend on the order of the transactions. */
  lemma {:induction false} SupportPermuted(a: seq<Trans>, b: seq<Trans>, X: set<nat>)
    requires multiset(a) == multiset(b)
    ensures Support(a, X) == Support(b, X)
    decreases |a|
  {
    if a == [] {
      assert |multiset(b)| == 0;
    } else {
      var t := Last(a);
      assert a == Init(a) + [t];
      assert t in multiset(b);
      var i :| 0 <= i < |b| && b[i] == t;
      RemoveOne(a, |a| - 1);
      RemoveOne(b, i);
      assert Init(a) == a[..|a| - 1] + a[|a| - 1 + 1..];
      SupportPermuted(Init(a), b[..i] + b[i + 1..], X);
      SupportRemove(b, i, X);
    }
  }

  lemma {:induction false} FlatMultiset(recs: seq<HotTrans>, t: Trans)
    ensures multiset(FlatAll(recs))[t] == |FlatsTo(recs, t)|
  {
    if recs != [] {
      FlatMultiset(Init(recs), t);
      assert FlatAll(recs) == FlatAll(Init(recs)) + [Flat(Last(recs))];
      hide FlatAll, Flat;
    }
  }

  /** The records that stand for t. */
  ghost function FlatsTo(recs: seq<HotTrans>, t: Trans): multiset<HotTrans>
  {
    if recs == [] then multiset{} else FlatsTo(Init(recs), t) + if Flat(Last(recs)) == t then multiset{Last(recs)} else multiset{}
  }

  lemma {:induction false} FlatsToCount(recs: seq<HotTrans>, t: Trans, r: HotTrans)
    ensures FlatsTo(recs, t)[r] == if Flat(r) == t then multiset(recs)[r] else 0
  {
    if recs != [] {
      FlatsToCount(Init(recs), t, r);
      assert recs == Init(recs) + [Last(recs)];
    }
  }

  lemma FlatPermuted(recs: seq<HotTrans>, recs': seq<HotTrans>)
    requires multiset(recs) == multiset(recs')
    ensures multiset(FlatAll(recs)) == multiset(FlatAll(recs'))
  {
    hide FlatAll, FlatsTo;
    forall t ensures multiset(FlatAll(recs))[t] == multiset(FlatAll(recs'))[t] {
      FlatMultiset(recs, t);
      FlatMultiset(recs', t);
      forall r ensures FlatsTo(recs, t)[r] == FlatsTo(recs', t)[r] {
        FlatsToCount(recs, t, r);
        FlatsToCount(recs', t, r);
      }
      assert FlatsTo(recs, t) == FlatsTo(recs', t);
    }
  }

  /** The order in which records are inserted does not matter: whatever arrangement stands for D, every other one does. */
  lemma AnyOrder(recs: seq<HotTrans>, recs': seq<HotTrans>, table: seq<nat>, D: seq<Trans>, numHot: nat)
    requires multiset(recs) == multiset(recs') && DbOk(recs, numHot, |table|) && Represents(FlatAll(recs), table, D, {})
    ensures DbOk(recs', numHot, |table|) && Represents(FlatAll(recs'), table, D, {})
  {
    forall k | 0 <= k < |recs'| ensures TransOk(recs'[k], numHot, |table|) {
      assert recs'[k] in multiset(recs);
      var j :| 0 <= j < |recs| && recs[j] == recs'[k];
    }
    FlatPermuted(recs, recs');
    forall Y: set<nat> | forall y :: y in Y ==> y < |table| ensures Support(FlatAll(recs'), Y) == Support(D, {} + Picked(table, Y)) {
      SupportPermuted(FlatAll(recs), FlatAll(recs'), Y);
    }
  }

  lemma {:induction false} AllEncoded(recs: seq<seq<HotTrans>>, txns: seq<seq<seq<nat>>>, order: seq<int>, numHot: nat, n: nat)
    requires |recs| == |txns| && forall t :: 0 <= t < |recs| ==> Encoded(recs[t], txns[t], order, numHot, n)
    ensures Encoded(Flatten(recs), Flatten(txns), order, numHot, n)
  {
    if recs != [] {
      hide RecordOf;
      AllEncoded(recs[..|recs| - 1], txns[..|txns| - 1], order, numHot, n);
    }
  }

  /** The records with hot items only: hot_node_count has them, the files have not. */
  function HotOnly(recs: seq<HotTrans>): seq<HotTrans>
  {
    if recs == [] then [] else HotOnly(Init(recs)) + if Last(recs).rest == [] then [Last(recs)] else []
  }

  lemma {:induction false} ColdAndHot(recs: seq<HotTrans>)
    ensures multiset(FpScatter.Cold(recs)) + multiset(HotOnly(recs)) == multiset(recs)
  {
    if recs != [] {
      ColdAndHot(Init(recs));
      assert recs == Init(recs) + [Last(recs)];
    }
  }

  lemma {:induction false} HotOnlyConcat(a: seq<HotTrans>, b: seq<HotTrans>)
    ensures HotOnly(a + b) == HotOnly(a) + HotOnly(b)
  {
    if b == [] { assert a + b == a; } else {
      HotOnlyConcat(a, Init(b));
      assert Init(a + b) == a + Init(b) && Last(a + b) == Last(b);
    }
  }

  /** The threads' files. */
  function Files(recs: seq<seq<HotTrans>>): seq<seq<HotTrans>>
  {
    seq(|recs|, t requires 0 <= t < |recs| => FpScatter.Cold(recs[t]))
  }

  lemma {:induction false} FilesAndHot(recs: seq<seq<HotTrans>>)
    ensures multiset(Flatten(Files(recs))) + multiset(HotOnly(Flatten(recs))) == multiset(Flatten(recs))
  {
    if recs != [] {
      var init, last := recs[..|recs| - 1], recs[|recs| - 1];
      FilesAndHot(init);
      ColdAndHot(last);
      HotOnlyConcat(Flatten(init), last);
      assert Files(recs)[..|recs| - 1] == Files(init);
      hide HotOnly, FpScatter.Cold;
    }
  }

  /** What a thread leaves behind in database_tiling. */
  ghost predicate Tiled(recs: seq<HotTrans>, txns: seq<seq<nat>>, sizes: seq<nat>, order: seq<int>, numHot: nat, n: nat)
  {
    Encoded(recs, txns, order, numHot, n) && |sizes| == Pow2(numHot) && forall m :: 0 <= m < |sizes| ==> sizes[m] == TypeSize(recs, m)
  }

  ghost predicate AllTiled(recs: seq<seq<HotTrans>>, txns: seq<seq<seq<nat>>>, sizes: seq<seq<nat>>, order: seq<int>, numHot: nat, n: nat)
  {
    |recs| == |txns| == |sizes| && forall t :: 0 <= t < |recs| ==> Tiled(recs[t], txns[t], sizes[t], order, numHot, n)
  }

  lemma TiledRect(recs: seq<seq<HotTrans>>, txns: seq<seq<seq<nat>>>, sizes: seq<seq<nat>>, order: seq<int>, numHot: nat, n: nat)
    requires AllTiled(recs, txns, sizes, order, numHot, n)
    ensures FpScatter.Rect(sizes, Pow2(numHot))
  {
    assert forall t :: 0 <= t < |recs| ==> Tiled(recs[t], txns[t], sizes[t], order, numHot, n);
  }

  /** What the threads leave behind is what the scatter expects. */
  lemma TiledFiles(recs: seq<seq<HotTrans>>, txns: seq<seq<seq<nat>>>, sizes: seq<seq<nat>>, order: seq<int>, numHot: nat, n: nat)
    requires AllTiled(recs, txns, sizes, order, numHot, n) && FpScatter.Rect(sizes, Pow2(numHot))
    ensures FpScatter.ConfigOk(FpScatter.Config(Files(recs), sizes, Pow2(numHot)))
    ensures var all := Flatten(Files(recs)); forall k :: 0 <= k < |all| ==> all[k].weight == 1
  {
    forall t | 0 <= t < |recs| ensures FpScatter.FileOk(Files(recs)[t], sizes[t], Pow2(numHot)) {
      assert Tiled(recs[t], txns[t], sizes[t], order, numHot, n);
      FpScatter.RecordsAreFile(recs[t], txns[t], sizes[t], order, numHot, n, Pow2(numHot));
    }
    forall t | 0 <= t < |recs| ensures WeightOne(Files(recs)[t]) {
      assert Tiled(recs[t], txns[t], sizes[t], order, numHot, n);
      ColdWeights(recs[t]);
    }
    AllWeights(Files(recs));
  }

  ghost predicate WeightOne(recs: seq<HotTrans>) { forall k :: 0 <= k < |recs| ==> recs[k].weight == 1 }

  lemma {:induction false} ColdWeights(recs: seq<HotTrans>)
    requires WeightOne(recs)
    ensures WeightOne(FpScatter.Cold(recs))
  {
    if recs != [] { ColdWeights(recs[..|recs| - 1]); }
  }

  lemma {:induction false} AllWeights(files: seq<seq<HotTrans>>)
    requires forall t :: 0 <= t < |files| ==> WeightOne(files[t])
    ensures WeightOne(Flatten(files))
  {
    if files != [] { AllWeights(files[..|files| - 1]); }
  }

  /** Whichever thread has encoded which block: the records in the order in which scan2_DB reads them from the segments, bitmask by bitmask,
    * and those that hot_node_count alone knows of, stand for the transactions of the file. So a tree built of them is mined exactly.
    */
  lemma Scan2Order(recs: seq<seq<HotTrans>>, txns: seq<seq<seq<nat>>>, sizes: seq<seq<nat>>, order: seq<int>, table: seq<nat>, numHot: nat,
                   sumntype: seq<nat>, ids: seq<nat>, useful: nat)
    requires AllTiled(recs, txns, sizes, order, numHot, |table|) && FpScatter.Rect(sizes, Pow2(numHot)) && FirstOrder(order, table)
    requires |sumntype| == Pow2(numHot) && forall m :: 0 <= m < |sumntype| ==> sumntype[m] == FpScatter.ColSum(sizes, |sizes|, m)
    requires useful <= |ids| && forall x, y :: 0 <= x < y < useful ==> ids[x] != ids[y]
    requires forall m :: m in FpScatter.Useful(sumntype) ==> exists x :: 0 <= x < useful && ids[x] == m
    ensures var hdb := FpScatter.Grouped(Flatten(Files(recs)), ids, useful) + HotOnly(Flatten(recs));
      DbOk(hdb, numHot, |table|) && Represents(FlatAll(hdb), table, DatabaseOf(Flatten(txns)), {})
  {
    var cfg := FpScatter.Config(Files(recs), sizes, Pow2(numHot));
    var all := Flatten(recs);
    TiledFiles(recs, txns, sizes, order, numHot, |table|);
    FpScatter.EveryRecordOnce(cfg, sumntype, ids, useful);
    FilesAndHot(recs);
    assert forall t :: 0 <= t < |recs| ==> Tiled(recs[t], txns[t], sizes[t], order, numHot, |table|);
    AllEncoded(recs, txns, order, numHot, |table|);
    EncodedDatabase(all, Flatten(txns), order, table, numHot);
    hide Encoded, Tiled, FirstOrder, DbOk, Represents, HotOnly, Flatten, FpScatter.Grouped;
    AnyOrder(all, FpScatter.Grouped(Flatten(Files(recs)), ids, useful) + HotOnly(all), table, DatabaseOf(Flatten(txns)), numHot);
  }
}
