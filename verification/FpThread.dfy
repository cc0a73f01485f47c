/** The per-thread arrays of the miner and the steps from one level to the next: FPArray_conditional_pattern_base,
  * FP_tree::scan1_DB, FPArray_scan2_DB.
  */
module FpThreads {
  import opened HotBits
  import opened Transactions
  import opened Sums
  import opened FpShape
  import opened FpInsertion
  import opened FpLinking
  import opened FpArrays
  import opened FpPatterns
  import opened FpLevels
  import opened FpTrees
  import opened PairedSort

  /** supp after the first k entries. */
  ghost predicate SuppIs(supp: seq<nat>, E: seq<Trans>, s: nat)
  {
    && s <= |supp|
    && (forall x :: 0 <= x < |supp| ==> supp[x] == if x < s then Support(E, {x}) else 0)
  }

  ghost predicate AllZero(supp: seq<nat>) { forall x :: 0 <= x < |supp| ==> supp[x] == 0 }

  ghost predicate AllFalse(origin: seq<bool>) { forall x :: 0 <= x < |origin| ==> !origin[x] }

  /** supp in the middle of an entry: its items from position d on have been counted. */
  ghost predicate SuppPartly(supp: seq<nat>, E: seq<Trans>, s: nat, t: Trans, d: nat)
    requires d <= |t.items|
  {
    && s <= |supp|
    && (forall x :: 0 <= x < |supp| ==>
          supp[x] == if x < s then Support(E, {x}) + if x in t.items[d..] then t.weight else 0 else 0)
  }

  lemma SuppNext(supp: seq<nat>, E: seq<Trans>, s: nat, t: Trans)
    ensures SuppIs(supp, E, s) ==> s <= |supp| && SuppPartly(supp, E, s, t, |t.items|)
    ensures SuppPartly(supp, E, s, t, 0) ==> SuppIs(supp, E + [t], s)
  {
    assert t.items[0..] == t.items;
    forall x: nat ensures Support(E + [t], {x}) == Support(E, {x}) + if x in t.items then t.weight else 0 {
      SupportAppend(E, t, {x});
      assert {x} <= Items(t.items) <==> x in t.items;
    }
  }

  lemma SuppItem(supp: seq<nat>, E: seq<Trans>, s: nat, t: Trans, d: nat)
    requires 0 < d <= |t.items| && SuppPartly(supp, E, s, t, d) && Ascending(t.items) && t.items[d - 1] < s
    ensures SuppPartly(supp[t.items[d - 1] := supp[t.items[d - 1]] + t.weight], E, s, t, d - 1)
  {
    assert t.items[d - 1..] == [t.items[d - 1]] + t.items[d..];
  }

  /** One more position of the old table has been looked at. */
  lemma SkipStep(table: seq<nat>, E: seq<Trans>, i: nat, T: nat, table': seq<nat>, count': seq<nat>)
    requires i < |table| && ChildTable(table, E, i, T, table', count') && Support(E, {i}) < T
    ensures ChildTable(table, E, i + 1, T, table', count')
  {
    forall j | 0 <= j < |table'| ensures FromParent(table, E, i + 1, table'[j], count'[j]) {
      assert FromParent(table, E, i, table'[j], count'[j]);
    }
  }

  lemma TakeStep(table: seq<nat>, E: seq<Trans>, i: nat, T: nat, table': seq<nat>, count': seq<nat>)
    requires i < |table| && ChildTable(table, E, i, T, table', count') && NoRepeats(table) && Support(E, {i}) >= T
    ensures ChildTable(table, E, i + 1, T, table' + [table[i]], count' + [Support(E, {i})])
  {
    var t, c := table' + [table[i]], count' + [Support(E, {i})];
    forall j | 0 <= j < |table'| ensures FromParent(table, E, i + 1, table'[j], count'[j]) && table'[j] != table[i] {
      assert FromParent(table, E, i, table'[j], count'[j]);
    }
    assert FromParent(table, E, i + 1, table[i], Support(E, {i}));
    assert NoRepeats(t);
    forall i' | 0 <= i' < i + 1 && Support(E, {i'}) >= T ensures table[i'] in t {
      if i' < i { assert table[i'] in table'; } else { assert t[|table'|] == table[i]; }
    }
    hide NoRepeats, FromParent;
  }

  /** Sorting does not matter for what the new table says. */
  lemma SortedTable(table: seq<nat>, E: seq<Trans>, s: nat, T: nat, t0: seq<nat>, c0: seq<nat>, t: seq<nat>, c: seq<nat>, perm: seq<nat>)
    requires s <= |table| && ChildTable(table, E, s, T, t0, c0) && Tracks(perm, c0, c, t0, t)
    ensures ChildTable(table, E, s, T, t, c)
  {
    forall j | 0 <= j < |t| ensures FromParent(table, E, s, t[j], c[j]) && c[j] >= T {
      assert FromParent(table, E, s, t0[perm[j]], c0[perm[j]]);
    }
    forall i | 0 <= i < s && Support(E, {i}) >= T ensures table[i] in t {
      var j :| 0 <= j < |t0| && t0[j] == table[i];
      var k := Onto(perm, j);
      assert t[k] == table[i];
    }
    assert NoRepeats(t);
  }

  /** How many items all entries together have. */
  ghost function ItemsIn(E: seq<Trans>): nat { if E == [] then 0 else ItemsIn(Init(E)) + |Last(E).items| }

  class ThreadArrays {
    const THRESHOLD: nat
    const hotItemNum1: nat
    const SORTHRESH: nat
    ghost const capacity: nat
    ghost const names: nat
    var supp: seq<nat>
    var globalTable: seq<nat>
    var globalCount: seq<nat>
    var tempOrder: seq<int>
    var order: seq<int>
    var origin: seq<bool>
    var sumItemNum: nat

    constructor (THRESHOLD: nat, hotItemNum1: nat, SORTHRESH: nat, capacity: nat, names: nat)
      requires THRESHOLD >= 1 && SORTHRESH >= 1
      ensures Valid() && this.THRESHOLD == THRESHOLD && this.capacity == capacity && this.names == names
    {
      this.THRESHOLD, this.hotItemNum1, this.SORTHRESH := THRESHOLD, hotItemNum1, SORTHRESH;
      this.capacity, this.names := capacity, names;
      supp, origin, order := seq(capacity, _ => 0), seq(capacity, _ => false), seq(capacity, _ => 0);
      globalTable, globalCount, tempOrder := seq(capacity, _ => 0), seq(capacity, _ => 0), seq(names, _ => 0);
      sumItemNum := 0;
    }

    /** Between two uses the shared arrays are as they were: supp and origin all zero. */
    ghost predicate Valid()
      reads this
    {
      && |supp| == |origin| == |order| == |globalTable| == |globalCount| == capacity
      && |tempOrder| == names && THRESHOLD >= 1 && SORTHRESH >= 1
      && AllZero(supp) && AllFalse(origin)
    }

    /** `for (j = 0; Trans[j] != mark; j ++) local_supp[Trans[j]] += tempcount` */
    method CountPath(a: array<int>, begin: nat, tempcount: nat, mark: int, ghost E: seq<Trans>, ghost s: nat, ghost t: Trans)
        returns (j: nat)
      requires PathAt(a[..], begin, t.items, mark) && mark !in t.items && Ascending(t.items) && t.weight == tempcount
      requires SuppIs(supp, E, s) && forall i :: 0 <= i < |t.items| ==> t.items[i] < s
      modifies this`supp
      ensures SuppIs(supp, E + [t], s) && |supp| == old(|supp|) && j == |t.items|
    {
      SuppNext(supp, E, s, t);
      hide SuppIs, SuppPartly, Ascending;
      j := 0;
      while a[begin + j] != mark
        invariant 0 <= j <= |t.items| && s <= |supp| == old(|supp|) && SuppPartly(supp, E, s, t, |t.items| - j)
        decreases |t.items| - j
      {
        assert a[begin + j] == t.items[|t.items| - j - 1];
        SuppItem(supp, E, s, t, |t.items| - j);
        supp := supp[a[begin + j] := supp[a[begin + j]] + tempcount];
        j := j + 1;
      }
      SuppNext(supp, E, s, t);
    }

    /** The first loop of FPArray_conditional_pattern_base: the support of every item within the entries. */
    method SumSupports(a: array<int>, nodearray: seq<Entry>, mark: int, ghost E: seq<Trans>, ghost s: nat)
      requires EntriesAt(a[..], nodearray, mark, E, s) && s <= |supp| && AllZero(supp)
      modifies this`supp, this`sumItemNum
      ensures SuppIs(supp, E, s) && |supp| == old(|supp|) && sumItemNum == ItemsIn(E)
    {
      sumItemNum := 0;
      var i := 0;
      while i < |nodearray|
        invariant 0 <= i <= |nodearray| && SuppIs(supp, E[..i], s) && |supp| == old(|supp|) && sumItemNum == ItemsIn(E[..i])
      {
        hide SuppIs, PathAt, Ascending;
        assert E[..i + 1] == E[..i] + [E[i]];
        assert PathAt(a[..], nodearray[i].begin, E[i].items, mark);
        var j := CountPath(a, nodearray[i].begin, nodearray[i].count, mark, E[..i], s, E[i]);
        sumItemNum := sumItemNum + j;
        i := i + 1;
      }
      assert E[..|nodearray|] == E;
    }

    /** FPArray_conditional_pattern_base: the items frequent together with `itemname`, with their supports. */
    method ConditionalPatternBase(a: array<int>, nodearray: seq<Entry>, itemname: nat, mark: int, table: seq<nat>, ghost E: seq<Trans>)
        returns (j: nat)
      requires Valid() && EntriesAt(a[..], nodearray, mark, E, itemname) && itemname <= capacity && itemname <= |table|
      requires NoRepeats(table) && forall i :: 0 <= i < |table| ==> table[i] < names
      modifies this`supp, this`sumItemNum, this`globalTable, this`globalCount, this`tempOrder
      ensures Valid() && j <= itemname && sumItemNum == ItemsIn(E)
      ensures ChildTable(table, E, itemname, THRESHOLD, globalTable[..j], globalCount[..j])
      ensures forall i :: 0 <= i < itemname && 0 < Support(E, {i}) < THRESHOLD ==> tempOrder[table[i]] == -1
    {
      hide ChildTable, EntriesAt, NoRepeats;
      SumSupports(a, nodearray, mark, E, itemname);
      j := 0;
      var i := 0;
      EmptyTable(table, E, THRESHOLD);
      assert globalTable[..0] == [] && globalCount[..0] == [];
      while i < itemname
        invariant 0 <= j <= i <= itemname && Filtering(table, E, itemname, i, j) && sumItemNum == ItemsIn(E)
        invariant forall x :: 0 <= x < i && 0 < Support(E, {x}) < THRESHOLD ==> tempOrder[table[x]] == -1
      {
        j := FilterOne(table, E, itemname, i, j);
        i := i + 1;
      }
    }

    ghost predicate Filtering(table: seq<nat>, E: seq<Trans>, s: nat, i: nat, j: nat)
      reads this
    {
      && |supp| == |origin| == |order| == |globalTable| == |globalCount| == capacity && |tempOrder| == names
      && i <= |table| && j <= |globalTable| && ChildTable(table, E, i, THRESHOLD, globalTable[..j], globalCount[..j])
      && (forall x :: 0 <= x < |supp| ==> supp[x] == if i <= x < s then Support(E, {x}) else 0)
    }

    method FilterOne(table: seq<nat>, ghost E: seq<Trans>, ghost s: nat, i: nat, j0: nat) returns (j: nat)
      requires j0 <= i < s <= |table| && Filtering(table, E, s, i, j0) && s <= capacity
      requires NoRepeats(table) && forall i :: 0 <= i < |table| ==> table[i] < names
      modifies this`supp, this`globalTable, this`globalCount, this`tempOrder
      ensures j <= i + 1 && Filtering(table, E, s, i + 1, j)
      ensures forall x :: 0 <= x < names && old(tempOrder)[x] == -1 ==> tempOrder[x] == -1
      ensures 0 < Support(E, {i}) < THRESHOLD ==> tempOrder[table[i]] == -1
    {
      hide ChildTable, NoRepeats;
      j := j0;
      if supp[i] >= THRESHOLD {
        ghost var t, c := globalTable[..j] + [table[i]], globalCount[..j] + [supp[i]];
        TakeStep(table, E, i, THRESHOLD, globalTable[..j], globalCount[..j]);
        globalTable := globalTable[j := table[i]];
        globalCount := globalCount[j := supp[i]];
        j := j + 1;
        assert globalTable[..j] == t && globalCount[..j] == c;
      } else {
        SkipStep(table, E, i, THRESHOLD, globalTable[..j], globalCount[..j]);
        if supp[i] > 0 {
          tempOrder := tempOrder[table[i] := -1];
        }
      }
      supp := supp[i := 0];
    }

    /** FP_tree::scan1_DB: the new table in descending order of support, the position of every old item in it, and the number of
      * items that go into the bitmask. */
    method Scan1(n: nat, s: nat, oldTable: seq<nat>, ghost E: seq<Trans>)
        returns (table: seq<nat>, count: seq<nat>, numHotItem: nat)
      requires Valid() && n <= s <= |oldTable| && s <= capacity && NoRepeats(oldTable)
      requires forall i :: 0 <= i < |oldTable| ==> oldTable[i] < names
      requires ChildTable(oldTable, E, s, THRESHOLD, globalTable[..n], globalCount[..n])
      requires forall i :: 0 <= i < s && 0 < Support(E, {i}) < THRESHOLD ==> tempOrder[oldTable[i]] == -1
      modifies this`tempOrder, this`order
      ensures Valid() && |table| == |count| == n && forall i, j :: 0 <= i < j < n ==> count[i] >= count[j]
      ensures numHotItem <= n / 2 && numHotItem <= hotItemNum1 && (numHotItem > 0 ==> Pow2(numHotItem) <= sumItemNum / 8)
      ensures ChildTable(oldTable, E, s, THRESHOLD, table, count) && OrderOk(order, oldTable, E, s, table)
      ensures forall j :: 0 <= j < n ==> table[j] < names && tempOrder[table[j]] == j
    {
      table, count := SortedCopy(n, s, oldTable, E);
      TableNames(oldTable, E, s, THRESHOLD, table, count, names);
      hide ChildTable;
      RecordPositions(table);
      ReadPositions(s, oldTable);
      OrderRead(order, oldTable, E, s, THRESHOLD, table, count, tempOrder);
      numHotItem := if n > hotItemNum1 * 2 then hotItemNum1 else n / 2;
      if Pow2(numHotItem) > sumItemNum / 8 { numHotItem := 0; }
    }

    method RecordPositions(table: seq<nat>)
      requires |tempOrder| == names && NoRepeats(table) && forall j :: 0 <= j < |table| ==> table[j] < names
      modifies this`tempOrder
      ensures |tempOrder| == names
      ensures forall j :: 0 <= j < |table| ==> tempOrder[table[j]] == j
      ensures forall x :: 0 <= x < names && x !in table ==> tempOrder[x] == old(tempOrder)[x]
    {
      var i := 0;
      while i < |table|
        invariant 0 <= i <= |table| && |tempOrder| == names
        invariant forall j :: 0 <= j < i ==> tempOrder[table[j]] == j
        invariant forall x :: 0 <= x < names && x !in table[..i] ==> tempOrder[x] == old(tempOrder)[x]
      {
        tempOrder := tempOrder[table[i] := i];
        assert table[..i + 1] == table[..i] + [table[i]];
        i := i + 1;
      }
      assert table[..i] == table;
    }

    method ReadPositions(s: nat, oldTable: seq<nat>)
      requires s <= |order| && s <= |oldTable| && forall i :: 0 <= i < |oldTable| ==> oldTable[i] < |tempOrder|
      modifies this`order
      ensures |order| == old(|order|) && forall j :: 0 <= j < s ==> order[j] == tempOrder[oldTable[j]]
    {
      var i := 0;
      while i < s
        invariant 0 <= i <= s && |order| == old(|order|)
        invariant forall j :: 0 <= j < i ==> order[j] == tempOrder[oldTable[j]]
      {
        order := order[i := tempOrder[oldTable[i]]];
        i := i + 1;
      }
    }

    method SortedCopy(n: nat, s: nat, oldTable: seq<nat>, ghost E: seq<Trans>) returns (table: seq<nat>, count: seq<nat>)
      requires Valid() && n <= s <= |oldTable| && s <= capacity
      requires ChildTable(oldTable, E, s, THRESHOLD, globalTable[..n], globalCount[..n])
      ensures |table| == |count| == n && ChildTable(oldTable, E, s, THRESHOLD, table, count)
      ensures forall i, j :: 0 <= i < j < n ==> count[i] >= count[j]
    {
      hide ChildTable, Tracks;
      var keys, temp := new int[n], new int[n];
      var i := 0;
      while i < n
        invariant 0 <= i <= n
        invariant forall j :: 0 <= j < i ==> keys[j] == globalCount[j] && temp[j] == globalTable[j]
      {
        keys[i], temp[i] := globalCount[i], globalTable[i];
        i := i + 1;
      }
      assert keys[..] == globalCount[..n] && temp[..] == globalTable[..n];
      ghost var perm := SortPairs(keys, temp, SORTHRESH);
      SortedNats(globalCount[..n], keys[..], globalTable[..n], temp[..], perm);
      table, count := temp[..], keys[..];
      SortedTable(oldTable, E, s, THRESHOLD, globalTable[..n], globalCount[..n], table, count, perm);
    }

    /** One entry of FPArray_scan2_DB: hot items go into the bitmask, the others are marked in origin. */
    method ReadEntry(a: array<int>, begin: nat, mark: int, numHot: nat, n: nat, ghost p: seq<nat>)
        returns (ntype: nat, has: nat, maxItemno: nat)
      requires PathAt(a[..], begin, p, mark) && mark !in p && NewPositions(order, p, n) && AllFalse(origin) && numHot <= n <= |origin|
      modifies this`origin
      ensures |origin| == old(|origin|) && Scanned(ntype, origin, has, maxItemno, order, p, 0, numHot, n)
    {
      has, ntype, maxItemno := 0, 0, 0;
      var j := 0;
      NothingScanned(origin, order, p, numHot, n);
      hide Scanned, NewPositions, Marked;
      while a[begin + j] != mark
        invariant 0 <= j <= |p| && |origin| == old(|origin|)
        invariant Scanned(ntype, origin, has, maxItemno, order, p, |p| - j, numHot, n)
        decreases |p| - j
      {
        assert a[begin + j] == p[|p| - j - 1];
        ScanStep(ntype, origin, has, maxItemno, order, p, |p| - j, numHot, n);
        var item := order[a[begin + j]];
        if item < numHot {
          if item != -1 { ntype := SetBit(ntype, item); }
        } else {
          origin := origin[item := true];
          has := has + 1;
          if item > maxItemno { maxItemno := item; }
        }
        j := j + 1;
      }
    }

    /** FP_tree::fill_count: the marked items in ascending order; the marks are taken back. */
    method FillCount(numHot: nat, maxItemno: nat) returns (compact: seq<nat>)
      requires maxItemno < |origin| && forall c :: 0 <= c < |origin| && origin[c] ==> numHot <= c <= maxItemno
      modifies this`origin
      ensures Ascending(compact) && AllFalse(origin) && |origin| == old(|origin|)
      ensures forall c: nat :: c in compact <==> c < |origin| && old(origin)[c]
    {
      compact := [];
      var i := numHot;
      while i <= maxItemno
        invariant numHot <= i && |origin| == old(|origin|) && Ascending(compact)
        invariant forall c :: 0 <= c < |origin| ==> origin[c] == (old(origin)[c] && i <= c)
        invariant forall j :: 0 <= j < |compact| ==> compact[j] < i
        invariant forall c: nat :: c in compact <==> c < i && c < |origin| && old(origin)[c]
      {
        if origin[i] {
          compact := compact + [i];
          origin := origin[i := false];
        }
        i := i + 1;
      }
    }

    /** One entry, from the array to the arguments of insert. */
    method ScanEntry(a: array<int>, begin: nat, mark: int, numHot: nat, n: nat, ghost p: seq<nat>, ghost w: nat)
        returns (ntype: nat, compact: seq<nat>)
      requires PathAt(a[..], begin, p, mark) && mark !in p && NewPositions(order, p, n) && AllFalse(origin) && numHot <= n <= |origin|
      requires w > 0
      modifies this`origin
      ensures AllFalse(origin) && |origin| == old(|origin|)
      ensures TransOk(HotTrans(ntype, compact, w), numHot, n)
      ensures Relabelled(Bits(ntype) + compact, p, order)
    {
      var has, maxItemno;
      ntype, has, maxItemno := ReadEntry(a, begin, mark, numHot, n, p);
      ghost var marks := origin;
      compact := [];
      if has > 0 {
        compact := FillCount(numHot, maxItemno);
      }
      EntryScanned(ntype, marks, has, maxItemno, order, p, numHot, n, compact, w);
    }

    /** FPArray_scan2_DB: the conditional tree of an item, from the item's entries. */
    method Scan2(tree: FpTree, a: array<int>, nodearray: seq<Entry>, mark: int, ghost E: seq<Trans>, ghost s: nat,
                 ghost oldTable: seq<nat>, ghost table: seq<nat>)
      requires EntriesAt(a[..], nodearray, mark, E, s) && s <= |oldTable| && OrderOk(order, oldTable, E, s, table)
      requires AllFalse(origin) && tree.numHotItem <= tree.itemno == |table| <= |origin|
      requires tree.Counted(Pow2(tree.numHotItem) - 1) && tree.db == []
      requires |tree.hashtable| == |tree.hotNodeCount| == Pow2(tree.numHotItem)
      modifies this`origin, tree
      ensures AllFalse(origin) && |origin| == old(|origin|)
      ensures TreeReady(tree.nodes, tree.sh, tree.nodenum, tree.newDataNum, tree.db, tree.numHotItem, tree.itemno)
      ensures EntriesTaken(tree.db, E, order)
    {
      hide PathAt, OrderOk, IndexState, PatchOk, ColdCountsOk, HotCountsOk, AllFalse, EntriesTaken, PrefixTree, NodenumOk;
      ghost var top: nat := Pow2(tree.numHotItem) - 1;
      NothingTaken(order);
      var i := 0;
      assert E[..0] == [];
      while i < |nodearray|
        invariant 0 <= i <= |nodearray| && AllFalse(origin) && |origin| == old(|origin|)
        invariant tree.Counted(top) && |tree.hashtable| == |tree.hotNodeCount| == Pow2(tree.numHotItem)
        invariant EntriesTaken(tree.db, E[..i], order)
      {
        assert E[..i + 1] == E[..i] + [E[i]];
        EntryPositions(order, oldTable, E, s, table, i);
        assert PathAt(a[..], nodearray[i].begin, E[i].items, mark);
        hide FpTree.Counted;
        InsertEntry(tree, a, nodearray[i], mark, E[..i], E[i], top);
        i := i + 1;
      }
      assert E[..i] == E;
      tree.LinkHotNodes(top);
    }

    /** One round of its loop. */
    method InsertEntry(tree: FpTree, a: array<int>, node: Entry, mark: int, ghost E: seq<Trans>, ghost t: Trans, ghost top: nat)
      requires PathAt(a[..], node.begin, t.items, mark) && mark !in t.items && node.count == t.weight > 0
      requires NewPositions(order, t.items, tree.itemno)
      requires AllFalse(origin) && tree.numHotItem <= tree.itemno <= |origin| && EntriesTaken(tree.db, E, order)
      requires top == Pow2(tree.numHotItem) - 1 && tree.Counted(top) && |tree.hashtable| == |tree.hotNodeCount| == Pow2(tree.numHotItem)
      modifies this`origin, tree
      ensures AllFalse(origin) && |origin| == old(|origin|)
      ensures tree.Counted(top) && |tree.hashtable| == |tree.hotNodeCount| == Pow2(tree.numHotItem)
      ensures EntriesTaken(tree.db, E + [t], order)
    {
      assert node.begin >= 0;
      hide PathAt, AllFalse, EntriesTaken, NewPositions, TransOk, Relabelled, FpTree.Counted;
      var ntype, compact := ScanEntry(a, node.begin, mark, tree.numHotItem, tree.itemno, t.items, node.count);
      MaskInRange(HotTrans(ntype, compact, node.count), tree.numHotItem, tree.itemno);
      TakeEntry(tree.db, E, order, HotTrans(ntype, compact, node.count), t);
      tree.AddTransaction(ntype, compact, node.count, top);
    }
  }

  lemma NothingTaken(order: seq<int>)
    ensures EntriesTaken([], [], order)
  {
  }

  /** A conditional tree after scan2. */
  ghost predicate TreeReady(ns: seq<Fnode>, sh: Shape, nodenum: seq<nat>, newDataNum: nat, db: seq<HotTrans>, numHot: nat, itemno: nat)
  {
    && PrefixTree(ns, sh, FlatAll(db), itemno) && NodenumOk(nodenum, ns, sh, itemno)
    && |sh.path| == |sh.kids| && newDataNum == Sum(LeafDepths(sh)) + 1 && DbOk(db, numHot, itemno)
  }

  /** Every entry has become one transaction under the new order. */
  ghost predicate EntriesTaken(db: seq<HotTrans>, E: seq<Trans>, order: seq<int>)
  {
    && |db| == |E|
    && (forall k :: 0 <= k < |E| ==> db[k].weight == E[k].weight && Relabelled(Flat(db[k]).items, E[k].items, order))
  }

  lemma TakeEntry(db: seq<HotTrans>, E: seq<Trans>, order: seq<int>, h: HotTrans, t: Trans)
    requires EntriesTaken(db, E, order) && h.weight == t.weight && Relabelled(Bits(h.mask) + h.rest, t.items, order)
    ensures EntriesTaken(db + [h], E + [t], order)
  {
  }

  lemma MaskInRange(t: HotTrans, numHot: nat, itemno: nat)
    requires TransOk(t, numHot, itemno)
    ensures t.mask < Pow2(numHot)
  {
  }

  lemma EntryPositions(order: seq<int>, oldTable: seq<nat>, E: seq<Trans>, s: nat, table: seq<nat>, k: nat)
    requires s <= |oldTable| && OrderOk(order, oldTable, E, s, table) && k < |E| && E[k].weight > 0
    requires forall i :: 0 <= i < |E[k].items| ==> E[k].items[i] < s
    ensures NewPositions(order, E[k].items, |table|)
  {
    forall m | 0 <= m < |E[k].items| ensures Support(E, {E[k].items[m]}) > 0 {
      OccursCounts(E, k, E[k].items[m]);
    }
  }

  /** The new positions of an entry's items: below n, or -1. */
  ghost predicate NewPositions(order: seq<int>, p: seq<nat>, n: nat)
  {
    forall m :: 0 <= m < |p| ==> p[m] < |order| && -1 <= order[p[m]] < n
  }

  /** c is the new position of one of the items p[d..]. */
  ghost predicate Marked(order: seq<int>, p: seq<nat>, d: nat, c: nat)
    requires forall m :: 0 <= m < |p| ==> p[m] < |order|
  {
    exists m :: d <= m < |p| && order[p[m]] == c
  }

  ghost predicate Scanned(ntype: nat, origin: seq<bool>, has: nat, maxItemno: nat, order: seq<int>, p: seq<nat>, d: nat, numHot: nat, n: nat)
  {
    && NewPositions(order, p, n) && n <= |origin| && numHot <= n
    && (forall c: nat :: HasBit(ntype, c) <==> c < numHot && Marked(order, p, d, c))
    && (forall c: nat :: c < |origin| ==> (origin[c] <==> c >= numHot && Marked(order, p, d, c)))
    && (forall c: nat :: c < |origin| && origin[c] ==> c <= maxItemno && has > 0) && (maxItemno == 0 || maxItemno < n)
    && (has > 0 ==> maxItemno < n)
  }

  lemma NothingScanned(origin: seq<bool>, order: seq<int>, p: seq<nat>, numHot: nat, n: nat)
    requires AllFalse(origin) && NewPositions(order, p, n) && numHot <= n <= |origin|
    ensures Scanned(0, origin, 0, 0, order, p, |p|, numHot, n)
  {
    forall c: nat ensures !HasBit(0, c) { HasBitZero(c); }
  }

  lemma MarkedStep(order: seq<int>, p: seq<nat>, d: nat, n: nat, c: nat)
    requires NewPositions(order, p, n) && 0 < d <= |p|
    ensures Marked(order, p, d - 1, c) <==> Marked(order, p, d, c) || order[p[d - 1]] == c
  {
  }

  lemma ScanStep(ntype: nat, origin: seq<bool>, has: nat, maxItemno: nat, order: seq<int>, p: seq<nat>, d: nat, numHot: nat, n: nat)
    requires Scanned(ntype, origin, has, maxItemno, order, p, d, numHot, n) && 0 < d <= |p|
    ensures p[d - 1] < |order| && -1 <= order[p[d - 1]] < |origin|
    ensures var c := order[p[d - 1]];
      && (c == -1 ==> Scanned(ntype, origin, has, maxItemno, order, p, d - 1, numHot, n))
      && (0 <= c < numHot ==> Scanned(SetBit(ntype, c), origin, has, maxItemno, order, p, d - 1, numHot, n))
      && (c >= numHot ==> Scanned(ntype, origin[c := true], has + 1, if c > maxItemno then c else maxItemno, order, p, d - 1, numHot, n))
  {
    var c := order[p[d - 1]];
    forall b: nat ensures Marked(order, p, d - 1, b) <==> Marked(order, p, d, b) || c == b { MarkedStep(order, p, d, n, b); }
    hide Marked;
    if 0 <= c < numHot {
      forall b: nat ensures HasBit(SetBit(ntype, c), b) <==> b == c || HasBit(ntype, b) { HasBitSetBit(ntype, c, b); }
    }
  }

  lemma EntryScanned(ntype: nat, origin: seq<bool>, has: nat, maxItemno: nat, order: seq<int>, p: seq<nat>, numHot: nat, n: nat,
                     compact: seq<nat>, w: nat)
    requires Scanned(ntype, origin, has, maxItemno, order, p, 0, numHot, n) && w > 0
    requires Ascending(compact) && forall c: nat :: c in compact <==> c < |origin| && origin[c]
    ensures TransOk(HotTrans(ntype, compact, w), numHot, n)
    ensures Relabelled(Bits(ntype) + compact, p, order)
  {
    forall c | c in Bits(ntype) ensures c < numHot { InBits(ntype, c); }
    BelowPow2(ntype, numHot);
    forall i | 0 <= i < |compact| ensures numHot <= compact[i] < n {
      assert compact[i] in compact;
      assert Marked(order, p, 0, compact[i]);
    }
    var items' := Bits(ntype) + compact;
    forall c: nat ensures c in items' <==> Marked(order, p, 0, c) {
      InBits(ntype, c);
      assert c in items' <==> c in Bits(ntype) || c in compact;
    }
    assert forall c: nat :: Marked(order, p, 0, c) <==> exists m :: 0 <= m < |p| && order[p[m]] == c;
  }

  lemma SortedNats(a0: seq<nat>, a: seq<int>, t0: seq<nat>, t: seq<int>, perm: seq<nat>)
    requires Tracks(perm, a0, a, t0, t)
    ensures forall k :: 0 <= k < |a| ==> a[k] >= 0
    ensures forall k :: 0 <= k < |t| ==> t[k] >= 0
  {
  }

  lemma TableNames(table: seq<nat>, E: seq<Trans>, s: nat, T: nat, table': seq<nat>, count': seq<nat>, names: nat)
    requires s <= |table| && ChildTable(table, E, s, T, table', count') && forall i :: 0 <= i < |table| ==> table[i] < names
    ensures NoRepeats(table') && forall j :: 0 <= j < |table'| ==> table'[j] < names
  {
    forall j | 0 <= j < |table'| ensures table'[j] < names { assert FromParent(table, E, s, table'[j], count'[j]); }
  }

  /** Reading the new positions off global_temp_order_array: stale entries belong to items that do not occur. */
  lemma OrderRead(order: seq<int>, table: seq<nat>, E: seq<Trans>, s: nat, T: nat, table': seq<nat>, count': seq<nat>, temp: seq<int>)
    requires s <= |table| && s <= |order| && ChildTable(table, E, s, T, table', count') && NoRepeats(table)
    requires forall i :: 0 <= i < |table| ==> table[i] < |temp|
    requires forall i :: 0 <= i < s ==> order[i] == temp[table[i]]
    requires forall j :: 0 <= j < |table'| ==> table'[j] < |temp| && temp[table'[j]] == j
    requires forall i :: 0 <= i < s && 0 < Support(E, {i}) < T && table[i] !in table' ==> temp[table[i]] == -1
    ensures OrderOk(order, table, E, s, table')
  {
    forall i | 0 <= i < s && Support(E, {i}) > 0
      ensures if table[i] in table' then 0 <= order[i] < |table'| && table'[order[i]] == table[i] else order[i] == -1
    {
      if table[i] in table' {
        var j :| 0 <= j < |table'| && table'[j] == table[i];
      }
    }
  }

  lemma EmptyTable(table: seq<nat>, E: seq<Trans>, T: nat)
    ensures ChildTable(table, E, 0, T, [], [])
  {
  }
}
