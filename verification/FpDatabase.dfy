/** The first level of the miner: the item order from the item counts, and the encoding of the transactions by it
  * (FP_tree::scan1_DB of the data file, first half of FP_tree::database_tiling).
  */
module FpDatabase {
  import opened HotBits
  import opened Transactions
  import opened FpLinking
  import opened FpLevels
  import opened FpThreads
  import opened Mining
  import opened PairedSort

  const MARK: int := -1

  /** item_order: the place of every item in the table, -1 if it is infrequent. */
  ghost predicate FirstOrder(order: seq<int>, table: seq<nat>)
  {
    && (forall j :: 0 <= j < |table| ==> table[j] < |order| && order[table[j]] == j)
    && (forall x :: 0 <= x < |order| && x !in table ==> order[x] == -1)
  }

  /** The item numbers. */
  ghost function Below(n: nat): (r: set<nat>)
    ensures forall x: nat :: x in r <==> x < n
  {
    if n == 0 then {} else Below(n - 1) + {n - 1}
  }

  /** FP_tree::scan1_DB: the frequent items, the most frequent first, and the order of all items. */
  method Scan1Db(counts: seq<nat>, THRESHOLD: nat, SORTHRESH: nat, ghost D: seq<Trans>)
      returns (table: seq<nat>, count: seq<nat>, order: seq<int>)
    requires THRESHOLD >= 1 && SORTHRESH >= 1 && forall x :: 0 <= x < |counts| ==> counts[x] == Support(D, {x})
    ensures LevelOk(D, {}, Below(|counts|), THRESHOLD, table, count) && |order| == |counts| && FirstOrder(order, table)
    ensures forall i, j :: 0 <= i < j < |count| ==> count[i] >= count[j]
  {
    hide LevelOk, FirstOrder, Support;
    var temp, itemno := SortItems(counts, THRESHOLD, SORTHRESH);
    ghost var t := temp[..];
    assert forall k :: 0 <= k < temp.Length ==> temp[k] == t[k];
    table, count, order := OrderItems(counts, temp, itemno);
    FirstTable(counts, THRESHOLD, D, table, count);
  }

  /** The first half: sort, and find where the frequent items end. */
  method SortItems(counts: seq<nat>, THRESHOLD: nat, SORTHRESH: nat) returns (temp: array<int>, itemno: nat)
    requires SORTHRESH >= 1
    ensures SortedOut(counts, THRESHOLD, temp[..], itemno)
  {
    hide Tracks, SortedOut, Descending;
    var n := |counts|;
    var keys := new int[n](k requires 0 <= k < n => counts[k]);
    temp := new int[n](k => k);
    assert keys[..] == counts && temp[..] == seq(n, k => k);
    ghost var perm := SortPairs(keys, temp, SORTHRESH);
    itemno := 0;
    while itemno < n && keys[itemno] >= THRESHOLD
      invariant 0 <= itemno <= n && forall k :: 0 <= k < itemno ==> keys[k] >= THRESHOLD
    {
      itemno := itemno + 1;
    }
    SortedItems(counts, THRESHOLD, keys[..], temp[..], perm, itemno);
  }

  /** The second half of scan1_DB. */
  method OrderItems(counts: seq<nat>, temp: array<int>, itemno: nat) returns (table: seq<nat>, count: seq<nat>, order: seq<int>)
    requires itemno <= temp.Length == |counts| && forall k :: 0 <= k < temp.Length ==> 0 <= temp[k] < |counts|
    requires forall j, k :: 0 <= j < k < temp.Length ==> temp[j] != temp[k]
    ensures table == temp[..itemno] && |count| == itemno && forall k :: 0 <= k < itemno ==> count[k] == counts[temp[k]]
    ensures |order| == |counts| && FirstOrder(order, table)
  {
    table, count, order := [], [], seq(|counts|, _ => -1);
    var j := 0;
    while j < itemno
      invariant 0 <= j <= itemno && |table| == |count| == j && |order| == |counts| && table == temp[..j]
      invariant forall k :: 0 <= k < j ==> count[k] == counts[temp[k]]
      invariant FirstOrder(order, table)
    {
      table := table + [temp[j]];
      count := count + [counts[temp[j]]];
      order := order[temp[j] := j];
      j := j + 1;
    }
  }

  /** The item numbers, the frequent ones first, by falling count. */
  ghost predicate SortedOut(counts: seq<nat>, T: nat, t: seq<int>, itemno: nat)
  {
    && itemno <= |t| == |counts| && (forall k :: 0 <= k < |t| ==> 0 <= t[k] < |counts|)
    && (forall j, k :: 0 <= j < k < |t| ==> t[j] != t[k] && counts[t[j]] >= counts[t[k]])
    && (forall k :: 0 <= k < itemno ==> counts[t[k]] >= T)
    && (forall x :: 0 <= x < |counts| && counts[x] >= T ==> x in t[..itemno])
  }

  /** The items with count T or more are those before the first smaller count. */
  lemma SortedItems(counts: seq<nat>, T: nat, a: seq<int>, t: seq<int>, perm: seq<nat>, itemno: nat)
    requires Tracks(perm, counts, a, seq(|counts|, k => k), t) && Descending(a, 0, |a| - 1) && itemno <= |a|
    requires forall k :: 0 <= k < itemno ==> a[k] >= T
    requires itemno < |a| ==> a[itemno] < T
    ensures SortedOut(counts, T, t, itemno)
  {
    assert forall k :: 0 <= k < |t| ==> t[k] == perm[k];
    forall j, k | 0 <= j < k < |t| ensures t[j] != t[k] && counts[t[j]] >= counts[t[k]] {
      assert perm[j] != perm[k] && a[j] >= a[k];
    }
    forall x | 0 <= x < |counts| && counts[x] >= T ensures x in t[..itemno] {
      var k := Onto(perm, x);
      assert t[k] == x && k < itemno;
    }
  }

  lemma FirstTable(counts: seq<nat>, T: nat, D: seq<Trans>, table: seq<nat>, count: seq<nat>)
    requires T >= 1 && forall x :: 0 <= x < |counts| ==> counts[x] == Support(D, {x})
    requires NoRepeats(table) && |count| == |table|
    requires forall k :: 0 <= k < |table| ==> table[k] < |counts| && count[k] == counts[table[k]] >= T
    requires forall x :: 0 <= x < |counts| && counts[x] >= T ==> x in table
    ensures LevelOk(D, {}, Below(|counts|), T, table, count)
  {
    forall x: nat ensures {} + {x} == {x} {}
  }

  /** Encoded transactions have the supports of the original ones. */
  lemma FirstRepresents(db: seq<Trans>, D: seq<Trans>, table: seq<nat>, order: seq<int>)
    requires FirstOrder(order, table) && |db| == |D|
    requires forall k :: 0 <= k < |D| ==> db[k].weight == D[k].weight && Relabelled(db[k].items, D[k].items, order)
    ensures Represents(db, table, D, {})
  {
    forall Y: set<nat> | forall y :: y in Y ==> y < |table| ensures Support(db, Y) == Support(D, {} + Picked(table, Y)) {
      forall k | 0 <= k < |D| ensures Y <= Items(db[k].items) <==> Picked(table, Y) <= Items(D[k].items) {
        PickedInside(db[k].items, D[k].items, table, order, Y);
      }
      SupportSameItems(db, D, Y, Picked(table, Y));
      assert {} + Picked(table, Y) == Picked(table, Y);
    }
  }

  lemma PickedInside(items': seq<nat>, items: seq<nat>, table: seq<nat>, order: seq<int>, Y: set<nat>)
    requires FirstOrder(order, table) && Relabelled(items', items, order) && forall y :: y in Y ==> y < |table|
    ensures Y <= Items(items') <==> Picked(table, Y) <= Items(items)
  {
    if Picked(table, Y) <= Items(items) {
      forall y | y in Y ensures y in items' {
        assert table[y] in Picked(table, Y);
        var m :| 0 <= m < |items| && items[m] == table[y];
        assert order[items[m]] == y;
      }
    }
    if Y <= Items(items') {
      forall y | y in Y ensures table[y] in items {
        assert y in items';
        var m :| 0 <= m < |items| && order[items[m]] == y;
        assert items[m] == table[y];
      }
    }
  }

  /** The place of the last mark before hi, -1 if there is none. */
  ghost function LastMark(c: seq<int>, hi: nat): (m: int)
    requires hi <= |c|
    ensures -1 <= m < hi && (m >= 0 ==> c[m] == MARK) && forall i :: m < i < hi ==> c[i] != MARK
  {
    if hi == 0 then -1 else if c[hi - 1] == MARK then hi - 1 else LastMark(c, hi - 1)
  }

  ghost predicate ContentOk(c: seq<int>, items: nat) { forall i :: 0 <= i < |c| ==> c[i] == MARK || 0 <= c[i] < items }

  /** The transaction that ends before hi. */
  ghost function LastTxn(c: seq<int>, hi: nat, items: nat): (p: seq<nat>)
    requires ContentOk(c, items) && hi <= |c|
    ensures |p| == hi - LastMark(c, hi) - 1 && forall m :: 0 <= m < |p| ==> p[m] < items
  {
    var lo := LastMark(c, hi) + 1;
    seq(hi - lo, m requires 0 <= m < hi - lo => c[lo + m])
  }

  /** The transactions of a block of the data file, up to hi, in the order they are met: from the end. */
  ghost function Txns(c: seq<int>, hi: nat, items: nat): seq<seq<nat>>
    requires ContentOk(c, items) && hi <= |c|
  {
    var m := LastMark(c, hi);
    [LastTxn(c, hi, items)] + if m < 0 then [] else Txns(c, m, items)
  }

  /** The transactions with a mark between every two, from the last to the first. */
  ghost function Joined(txns: seq<seq<nat>>): seq<int>
    requires txns != []
  {
    if |txns| == 1 then txns[0] else Joined(txns[1..]) + [MARK] + txns[0]
  }

  lemma LastPart(c: seq<int>, hi: nat, items: nat)
    requires ContentOk(c, items) && hi <= |c|
    ensures LastMark(c, hi) < 0 ==> LastTxn(c, hi, items) == c[..hi]
    ensures LastMark(c, hi) >= 0 ==> c[..hi] == c[..LastMark(c, hi)] + [MARK] + LastTxn(c, hi, items)
  {
  }

  /** The transactions are what lies between the marks, all of it. */
  lemma {:induction false} TxnsAreContent(c: seq<int>, hi: nat, items: nat)
    requires ContentOk(c, items) && hi <= |c|
    ensures Txns(c, hi, items) != [] && Joined(Txns(c, hi, items)) == c[..hi]
  {
    LastPart(c, hi, items);
    hide LastMark, LastTxn, ContentOk;
    var m, p := LastMark(c, hi), LastTxn(c, hi, items);
    if m >= 0 {
      TxnsAreContent(c, m, items);
      assert Txns(c, hi, items)[1..] == Txns(c, m, items);
    }
  }

  /** What a thread writes to its file: bitmask, number of items and items of every transaction with an item that is not hot. */
  ghost function Words(recs: seq<HotTrans>): seq<nat>
  {
    if recs == [] then [] else Words(recs[..|recs| - 1]) + WordsOf(recs[|recs| - 1])
  }

  function WordsOf(r: HotTrans): seq<nat> { if r.rest == [] then [] else [r.mask, |r.rest|] + r.rest }

  /** The words but for the bitmasks that the records with bitmask m take. */
  ghost function TypeSize(recs: seq<HotTrans>, m: nat): nat
  {
    if recs == [] then 0
    else
      var r := recs[|recs| - 1];
      TypeSize(recs[..|recs| - 1], m) + if r.mask == m && r.rest != [] then |r.rest| + 1 else 0
  }

  ghost function MaskCount(recs: seq<HotTrans>, m: nat): nat
  {
    if recs == [] then 0 else MaskCount(recs[..|recs| - 1], m) + if recs[|recs| - 1].mask == m then 1 else 0
  }

  /** A thread's arrays after the transactions recs. */
  ghost predicate Stored(file: seq<nat>, ntypearray: seq<nat>, hotNodeCount: seq<nat>, recs: seq<HotTrans>)
  {
    && file == Words(recs)
    && (forall m :: 0 <= m < |ntypearray| ==> ntypearray[m] == TypeSize(recs, m))
    && (forall m :: 0 <= m < |hotNodeCount| ==> hotNodeCount[m] == MaskCount(recs, m))
  }

  lemma StoreOne(file: seq<nat>, ntypearray: seq<nat>, hotNodeCount: seq<nat>, recs: seq<HotTrans>, r: HotTrans)
    requires Stored(file, ntypearray, hotNodeCount, recs) && r.mask < |ntypearray| == |hotNodeCount|
    ensures Stored(file + WordsOf(r), if r.rest == [] then ntypearray else ntypearray[r.mask := ntypearray[r.mask] + |r.rest| + 1],
                   hotNodeCount[r.mask := hotNodeCount[r.mask] + 1], recs + [r])
  {
    assert (recs + [r])[..|recs|] == recs;
  }

  ghost predicate RecordOf(r: HotTrans, p: seq<nat>, order: seq<int>, numHot: nat, n: nat)
  {
    TransOk(r, numHot, n) && r.weight == 1 && Relabelled(Bits(r.mask) + r.rest, p, order)
  }

  /** Record k stands for transaction k. */
  ghost predicate Encoded(recs: seq<HotTrans>, txns: seq<seq<nat>>, order: seq<int>, numHot: nat, n: nat)
  {
    && |recs| == |txns|
    && (forall k :: 0 <= k < |recs| ==> RecordOf(recs[k], txns[k], order, numHot, n))
  }

  /** The places 0 .. n that are marked, from min to max; has says how many. */
  ghost predicate Marks(origin: seq<bool>, has: nat, min: nat, max: nat, marks: set<nat>)
  {
    && has == |marks| && (forall c: nat :: c in marks <==> c < |origin| && origin[c])
    && (forall c: nat :: c in marks ==> min <= c <= max)
  }

  lemma AddMark(origin: seq<bool>, has: nat, min: nat, max: nat, marks: set<nat>, c: nat)
    requires Marks(origin, has, min, max, marks) && c < |origin|
    ensures Marks(origin[c := true], has + if origin[c] then 0 else 1, if c < min then c else min, if c > max then c else max, marks + {c})
  {
    if origin[c] { assert marks + {c} == marks; }
  }

  ghost predicate InRange(order: seq<int>, n: nat) { forall x :: 0 <= x < |order| ==> -1 <= order[x] < n }

  /** What database_tiling keeps for one thread. `recs` are its transactions as bitmask and other items. */
  class Tile {
    const numHot: nat
    const n: nat
    const order: seq<int>
    var origin: seq<bool>
    var file: seq<nat>
    var ntypearray: seq<nat>
    var hotNodeCount: seq<nat>
    var recs: seq<HotTrans>
    ghost var txns: seq<seq<nat>>

    constructor (numHot: nat, order: seq<int>, n: nat)
      requires numHot <= n
      ensures Valid() && this.numHot == numHot && this.order == order && this.n == n && recs == [] && txns == []
    {
      this.numHot, this.order, this.n := numHot, order, n;
      origin, file, recs, txns := seq(n, _ => false), [], [], [];
      ntypearray, hotNodeCount := seq(Pow2(numHot), _ => 0), seq(Pow2(numHot), _ => 0);
    }

    ghost predicate Sized()
      reads this
    {
      |origin| == n && numHot <= n && |ntypearray| == |hotNodeCount| == Pow2(numHot)
    }

    ghost predicate Valid()
      reads this
    {
      && Sized() && AllFalse(origin)
      && Stored(file, ntypearray, hotNodeCount, recs) && Encoded(recs, txns, order, numHot, n)
    }

    /** The marked items from min to max in ascending order; the marks are taken back. */
    method TakeMarks(has: nat, min: nat, max: nat, ghost marks: set<nat>) returns (compact: seq<nat>)
      requires Marks(origin, has, min, max, marks) && (has > 0 ==> max < |origin|)
      modifies this`origin
      ensures Ascending(compact) && |compact| == has && AllFalse(origin) && |origin| == old(|origin|)
      ensures forall c: nat :: c in compact <==> c < |origin| && old(origin)[c]
    {
      compact := [];
      if has > 0 {
        var l := min;
        while l <= max
          invariant min <= l && |origin| == old(|origin|) && Ascending(compact)
          invariant forall c :: 0 <= c < |origin| ==> origin[c] == (old(origin)[c] && l <= c)
          invariant forall j :: 0 <= j < |compact| ==> compact[j] < l
          invariant forall c: nat :: c in compact <==> c < l && c < |origin| && old(origin)[c]
        {
          if origin[l] {
            compact := compact + [l];
            origin := origin[l := false];
          }
          l := l + 1;
        }
      }
      assert Items(compact) == marks;
      ItemsCardinality(compact);
    }

    /** At the end of a transaction: its record, if an item is left that is not hot, and its bitmask. */
    method Close(ntype: nat, has: nat, min: nat, max: nat, ghost marks: set<nat>, ghost p: seq<nat>)
      requires Reading(ntype, has, min, max, marks, p, 0)
      modifies this
      ensures Valid() && txns == old(txns) + [p]
    {
      hide Stored;
      ghost var marked := origin;
      assert has > 0 ==> max < |origin|;
      var compact := TakeMarks(has, min, max, marks);
      ghost var r := HotTrans(ntype, compact, 1);
      EntryScanned(ntype, marked, has, max, order, p, numHot, n, compact, 1);
      assert RecordOf(r, p, order, numHot, n);
      hide Scanned, RecordOf;
      StoreOne(file, ntypearray, hotNodeCount, recs, r);
      if has > 0 {
        assert file + WordsOf(r) == file + [ntype, has] + compact;
        file := file + [ntype, has] + compact;
        ntypearray := ntypearray[ntype := ntypearray[ntype] + has + 1];
      } else {
        assert file + WordsOf(r) == file;
      }
      hotNodeCount := hotNodeCount[ntype := hotNodeCount[ntype] + 1];
      recs := recs + [HotTrans(ntype, compact, 1)];
      txns := txns + [p];
    }

    /** In the middle of a transaction p, of which the items before d are still to be read. */
    ghost predicate Reading(ntype: nat, has: nat, min: nat, max: nat, marks: set<nat>, p: seq<nat>, d: nat)
      reads this
    {
      && Sized() && d <= |p| && Scanned(ntype, origin, has, max, order, p, d, numHot, n) && Marks(origin, has, min, max, marks)
      && Stored(file, ntypearray, hotNodeCount, recs) && Encoded(recs, txns, order, numHot, n)
    }

    /** One item: hot ones go into the bitmask, infrequent ones are dropped, the others are marked. */
    method ReadItem(x: nat, ntype0: nat, has0: nat, min0: nat, max0: nat, ghost marks0: set<nat>, ghost p: seq<nat>, ghost d: nat)
        returns (ntype: nat, has: nat, min: nat, max: nat, ghost marks: set<nat>)
      requires 0 < d && Reading(ntype0, has0, min0, max0, marks0, p, d) && d <= |p| && p[d - 1] == x < |order|
      modifies this`origin
      ensures Reading(ntype, has, min, max, marks, p, d - 1)
    {
      ntype, has, min, max, marks := ntype0, has0, min0, max0, marks0;
      ScanStep(ntype, origin, has, max, order, p, d, numHot, n);
      hide Stored, Encoded, AllFalse;
      var item := order[x];
      if item < numHot {
        if item != -1 { ntype := SetBit(ntype, item); }
      } else {
        AddMark(origin, has, min, max, marks, item);
        AgainMarked(ntype, origin, has, max, order, p, d, numHot, n);
        hide Scanned, Marks;
        has := has + if origin[item] then 0 else 1;
        marks := marks + {item};
        origin := origin[item := true];
        if item > max { max := item; }
        if item < min { min := item; }
      }
    }

    method CloseAndGoOn(ntype: nat, has: nat, min: nat, max: nat, ghost marks: set<nat>, ghost p: seq<nat>, ghost q: seq<nat>)
      requires Reading(ntype, has, min, max, marks, p, 0) && InRange(order, n) && forall m :: 0 <= m < |q| ==> q[m] < |order|
      modifies this
      ensures Reading(0, 0, n, 0, {}, q, |q|) && txns == old(txns) + [p]
    {
      hide Reading;
      Close(ntype, has, min, max, marks, p);
      StartReading(q);
    }

    /** A block of the data file, from its end to its start. */
    method EncodeBlock(content: seq<int>)
      requires Valid() && ContentOk(content, |order|) && InRange(order, n)
      modifies this
      ensures Valid() && txns == old(txns) + Txns(content, |content|, |order|)
    {
      var ntype, has, min, max := 0, 0, n, 0;
      ghost var hi: nat, marks := |content|, {};
      ghost var p := LastTxn(content, hi, |order|);
      ghost var d: nat, all := |p|, txns + Txns(content, |content|, |order|);
      StartReading(p);
      var k := |content|;
      hide Reading, Valid, LastMark, LastTxn, ContentOk, InRange, InBlock;
      while k > 0
        invariant 0 <= k <= |content| && InBlock(all, txns, content, hi, k, p, d, |order|)
        invariant Reading(ntype, has, min, max, marks, p, d)
      {
        k := k - 1;
        BlockStep(all, txns, content, hi, k, p, d, |order|);
        if content[k] == MARK {
          CloseAndGoOn(ntype, has, min, max, marks, p, LastTxn(content, k, |order|));
          ntype, has, min, max := 0, 0, n, 0;
          hi, marks, p := k, {}, LastTxn(content, k, |order|);
          d := |p|;
        } else {
          ntype, has, min, max, marks := ReadItem(content[k], ntype, has, min, max, marks, p, d);
          d := d - 1;
        }
      }
      BlockEnd(all, txns, content, hi, p, d, |order|);
      Close(ntype, has, min, max, marks, p);
    }

    lemma StartReading(p: seq<nat>)
      requires Valid() && InRange(order, n) && forall m :: 0 <= m < |p| ==> p[m] < |order|
      ensures Reading(0, 0, n, 0, {}, p, |p|)
    {
      NothingScanned(origin, order, p, numHot, n);
    }
  }

  /** For Scanned it does not matter whether an item is counted once or twice. */
  lemma AgainMarked(ntype: nat, origin: seq<bool>, has: nat, max: nat, order: seq<int>, p: seq<nat>, d: nat, numHot: nat, n: nat)
    requires 0 < d <= |p| && Scanned(ntype, origin, has, max, order, p, d, numHot, n)
    ensures p[d - 1] < |order| && -1 <= order[p[d - 1]] < |origin|
    ensures var c := order[p[d - 1]];
      c >= numHot ==> Scanned(ntype, origin[c := true], has + if origin[c] then 0 else 1, if c > max then c else max, order, p, d - 1, numHot, n)
  {
    ScanStep(ntype, origin, has, max, order, p, d, numHot, n);
  }

  /** Reading the transaction p that ends before hi, at place k of the block, d items from p's start; `all` is what txns will be. */
  ghost predicate InBlock(all: seq<seq<nat>>, txns: seq<seq<nat>>, c: seq<int>, hi: nat, k: nat, p: seq<nat>, d: nat, items: nat)
    requires ContentOk(c, items)
  {
    k <= hi <= |c| && p == LastTxn(c, hi, items) && d == k - LastMark(c, hi) - 1 && all == txns + Txns(c, hi, items)
  }

  lemma BlockStep(all: seq<seq<nat>>, txns: seq<seq<nat>>, c: seq<int>, hi: nat, k: nat, p: seq<nat>, d: nat, items: nat)
    requires ContentOk(c, items) && k < |c| && InBlock(all, txns, c, hi, k + 1, p, d, items)
    ensures if c[k] == MARK then d == 0 && var q := LastTxn(c, k, items); InBlock(all, txns + [p], c, k, k, q, |q|, items)
            else 0 < d <= |p| && p[d - 1] == c[k] < items && InBlock(all, txns, c, hi, k, p, d - 1, items)
  {
  }

  lemma BlockEnd(all: seq<seq<nat>>, txns: seq<seq<nat>>, c: seq<int>, hi: nat, p: seq<nat>, d: nat, items: nat)
    requires ContentOk(c, items) && InBlock(all, txns, c, hi, 0, p, d, items)
    ensures d == 0 && all == txns + [p]
  {
  }
}
