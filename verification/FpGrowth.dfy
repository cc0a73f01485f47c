/** FP_tree::FP_growth: the recursion, with its shortcuts for no, one, or a single path of frequent items. */
module FpGrowth {
  import opened Common
  import opened HotBits
  import opened Transactions
  import opened Sums
  import opened FpShape
  import opened FpInsertion
  import opened FpLinking
  import opened FpArrays
  import opened FpPatterns
  import opened FpLevels
  import opened FpSinglePath
  import opened FpTrees
  import opened FpTransform
  import opened FpThreads
  import opened Mining
  import opened Powerset

  /** ITlen has been increased by the number of emissions of every length. */
  ghost predicate Tallied(before: seq<nat>, after: seq<nat>, em: seq<Emission>)
  {
    |after| == |before| && forall k :: 0 <= k < |before| ==> after[k] == before[k] + CountLen(em, k + 1)
  }

  lemma TalliedOne(before: seq<nat>, e: Emission)
    requires 0 < |e.items| <= |before|
    ensures Tallied(before, before[|e.items| - 1 := before[|e.items| - 1] + 1], [e])
  {
    forall k: nat ensures CountLen([e], k) == if k == |e.items| then 1 else 0 {
      assert Init([e]) == [] && Last([e]) == e;
    }
  }

  lemma TalliedTrans(a: seq<nat>, b: seq<nat>, c: seq<nat>, x: seq<Emission>, y: seq<Emission>)
    requires Tallied(a, b, x) && Tallied(b, c, y)
    ensures Tallied(a, c, x + y)
  {
    forall k | 0 <= k < |a| ensures c[k] == a[k] + CountLen(x + y, k + 1) {
      CountLenConcat(x, y, k + 1);
    }
  }

  /** What the binomial loop adds to ITlen[k] below a prefix of `top` items. */
  function SubsetCount(top: nat, n: nat, k: nat): nat
  {
    if top <= k < top + n then Choose(n, k - top + 1) else 0
  }

  /** The binomial counts are the sizes of the subsets printed. */
  lemma TalliedSubsets(before: seq<nat>, after: seq<nat>, list: seq<nat>, table: seq<nat>, count: seq<nat>)
    requires |table| == |count| && |after| == |before|
    requires forall k :: 0 <= k < |before| ==>
      after[k] == before[k] + SubsetCount(|list|, |table|, k)
    ensures Tallied(before, after, Subsets(list, [], 0, table, count, 0))
  {
    var em := Subsets(list, [], 0, table, count, 0);
    forall k: nat ensures CountLen(em, k + 1) == SubsetCount(|list|, |table|, k) {
      SubsetsOfSize(list, table, count, k);
    }
    hide *;
    TalliedBySize(before, after, em, |list|, |table|);
  }

  lemma TalliedBySize(before: seq<nat>, after: seq<nat>, em: seq<Emission>, top: nat, n: nat)
    requires |after| == |before| && forall k :: 0 <= k < |before| ==> after[k] == before[k] + SubsetCount(top, n, k)
    requires forall k: nat :: CountLen(em, k + 1) == SubsetCount(top, n, k)
    ensures Tallied(before, after, em)
  {
    hide CountLen, SubsetCount;
  }

  lemma SubsetsOfSize(list: seq<nat>, table: seq<nat>, count: seq<nat>, k: nat)
    requires |table| == |count|
    ensures CountLen(Subsets(list, [], 0, table, count, 0), k + 1) == SubsetCount(|list|, |table|, k)
  {
    hide CountLen;
    if k + 1 < |list| {
      SubsetsLonger(list, [], 0, table, count, 0);
      CountNone(Subsets(list, [], 0, table, count, 0), k + 1);
    } else {
      SubsetsBySize(list, [], 0, table, count, 0, k + 1 - |list|);
      if k >= |list| + |table| { ChooseTooMany(|table|, k + 1 - |list|); }
    }
  }

  /** The sentinel and the element width are chosen by the number of items. */
  function MarkFor(itemno: nat): (mark: nat)
    requires itemno < 0x8000_0000
    ensures itemno <= mark + 1
  {
    if itemno <= 0x100 then 0xff else if itemno <= 0x10000 then 0xffff else 0xffff_ffff
  }

  ghost predicate Prefixed(list: seq<nat>, P: set<nat>) { NoRepeats(list) && Items(list) == P }

  lemma PrefixedBy(list: seq<nat>, P: set<nat>, x: nat)
    requires Prefixed(list, P) && x !in P
    ensures Prefixed(list + [x], P + {x})
  {
    assert forall i :: 0 <= i < |list| ==> list[i] in P;
  }

  class Growth {
    const arrays: ThreadArrays
    var ITlen: seq<nat>
    var list: seq<nat>
    var out: seq<Emission>

    constructor (arrays: ThreadArrays, longest: nat)
      ensures this.arrays == arrays && list == [] && out == []
      ensures |ITlen| == longest && forall k :: 0 <= k < longest ==> ITlen[k] == 0
    {
      this.arrays := arrays;
      ITlen := seq(longest, _ => 0);
      list, out := [], [];
    }

    /** `ITlen[top - 1] ++` and printSet. */
    method Emit(support: nat) returns (ghost e: Emission)
      requires 0 < |list| <= |ITlen|
      modifies this`ITlen, this`out
      ensures e == Emission(list, support) && out == old(out) + [e] && Tallied(old(ITlen), ITlen, [e])
    {
      e := Emission(list, support);
      TalliedOne(ITlen, e);
      ITlen := ITlen[|list| - 1 := ITlen[|list| - 1] + 1];
      out := out + [Emission(list, support)];
    }

    /** FP_tree::powerset. The support printed is looked up by the position of the prefix's last item. */
    method PrintSubsets(prefix: array<nat>, prefixlen: nat, items: seq<nat>, count: seq<nat>, current: nat, ghost support: nat)
      requires prefixlen <= current <= |items| == |count| && prefix.Length >= |items|
      requires forall j :: 0 <= j < |items| ==> items[j] < |arrays.tempOrder| && arrays.tempOrder[items[j]] == j
      requires prefixlen > 0 ==> prefix[prefixlen - 1] in items && support == count[arrays.tempOrder[prefix[prefixlen - 1]]]
      modifies this`out, prefix
      ensures out == old(out) + Subsets(list, old(prefix[..prefixlen]), support, items, count, current)
      ensures prefix[..prefixlen] == old(prefix[..prefixlen])
      decreases |items| - current
    {
      if current == |items| {
        if prefixlen != 0 {
          var last := prefix[prefixlen - 1];
          out := out + [Emission(list + prefix[..prefixlen], count[arrays.tempOrder[last]])];
        }
      } else {
        ghost var p := prefix[..prefixlen];
        PrintSubsets(prefix, prefixlen, items, count, current + 1, support);
        assert prefix[..prefixlen] == p;
        prefix[prefixlen] := items[current];
        assert prefix[..prefixlen + 1] == p + [items[current]];
        PrintSubsets(prefix, prefixlen + 1, items, count, current + 1, count[current]);
        assert prefix[..prefixlen] == prefix[..prefixlen + 1][..prefixlen];
      }
    }

    /** The loop over `temp = (temp * i2) / i1`. */
    method CountSubsets(n: nat)
      requires |list| + n <= |ITlen|
      modifies this`ITlen
      ensures |ITlen| == old(|ITlen|)
      ensures forall k :: 0 <= k < |ITlen| ==>
        ITlen[k] == old(ITlen)[k] + SubsetCount(|list|, n, k)
    {
      var i1, i2, temp := 1, n, 1;
      while i1 <= n
        invariant 1 <= i1 <= n + 1 && i2 == n + 1 - i1 && temp == Choose(n, i1 - 1) && |ITlen| == old(|ITlen|)
        invariant forall k :: 0 <= k < |ITlen| ==>
          ITlen[k] == old(ITlen)[k] + if |list| <= k < |list| + i1 - 1 then Choose(n, k - |list| + 1) else 0
      {
        ChooseStep(n, i1);
        Quotient(temp * i2, i1, Choose(n, i1), 0);
        temp := (temp * i2) / i1;
        ITlen := ITlen[|list| + i1 - 1 := ITlen[|list| + i1 - 1] + temp];
        i1, i2 := i1 + 1, i2 - 1;
      }
    }

    /** The names along a single path. */
    method PathNames(tree: FpTree, table: seq<nat>, ghost db: seq<Trans>) returns (items: seq<nat>)
      requires PrefixTree(tree.nodes, tree.sh, db, |table|) && Proper(db) && IsChain(tree.sh)
      requires forall j :: 0 <= j < |table| ==> Support(db, {j}) > 0
      ensures items == table
    {
      ghost var ns, sh, q: nat := tree.nodes, tree.sh, 0;
      items := [];
      var node := tree.nodes[0].leftchild;
      ChainNext(ns, sh, db, |table|, q);
      while node != NULL
        invariant q < |ns| == |sh.path| && node == ns[q].leftchild && |items| == |sh.path[q]| <= |table| && items == table[..|items|]
        invariant NULL <= node < |ns|
        decreases |table| - |items|
      {
        ChainNext(ns, sh, db, |table|, q);
        items := items + [table[tree.nodes[node].itemname]];
        q := node;
        ChainNext(ns, sh, db, |table|, q);
        node := tree.nodes[node].leftchild;
      }
      ChainNext(ns, sh, db, |table|, q);
    }

    /** The single-path case of FP_growth. */
    method MineSinglePath(tree: FpTree, table: seq<nat>, count: seq<nat>, ghost D: seq<Trans>, ghost P: set<nat>, ghost U: set<nat>)
        returns (ghost em: seq<Emission>)
      requires Minable(tree.nodes, tree.sh, tree.nodenum, tree.newDataNum, tree.db, tree.numHotItem, table, count, D, P, U, arrays.THRESHOLD)
      requires IsChain(tree.sh) && Prefixed(list, P) && |list| + |table| <= |ITlen| && arrays.Valid()
      requires forall j :: 0 <= j < |table| ==> table[j] < arrays.names && arrays.tempOrder[table[j]] == j
      modifies this`ITlen, this`out
      ensures Mined(em, D, P, U, arrays.THRESHOLD) && out == old(out) + em && Tallied(old(ITlen), ITlen, em)
    {
      ghost var db := FlatAll(tree.db);
      PathFacts(tree.nodes, tree.sh, tree.nodenum, tree.newDataNum, tree.db, tree.numHotItem, table, count, D, P, U, arrays.THRESHOLD);
      hide TreeReady, PrefixTree, Represents, LevelOk, PathSupports, Mined, Subsets, IsChain, Tallied, Choose;
      var items := PathNames(tree, table, db);
      CountSubsets(|table|);
      TalliedSubsets(old(ITlen), ITlen, list, table, count);
      var prefix := new nat[|items|];
      PrintSubsets(prefix, 0, items, count, 0, 0);
      assert prefix[..0] == [];
      SinglePathMined(list, D, P, U, arrays.THRESHOLD, table, count);
      em := Subsets(list, [], 0, table, count, 0);
    }

    /** The conditional tree of the item at position s, and everything below it. */
    method MineConditional(a: array<int>, nodearray: seq<Entry>, mark: int, table: seq<nat>, s: nat, n: nat, ghost count: seq<nat>,
                           ghost db: seq<Trans>, ghost E: seq<Trans>, ghost D: seq<Trans>, ghost P: set<nat>, ghost U: set<nat>)
        returns (ghost em: seq<Emission>)
      requires arrays.Valid() && 2 <= n <= s < |table| <= arrays.capacity && |table| < 0x8000_0000 && NoRepeats(table)
      requires forall i :: 0 <= i < |table| ==> table[i] < arrays.names
      requires ChildTable(table, E, s, arrays.THRESHOLD, arrays.globalTable[..n], arrays.globalCount[..n])
      requires forall i :: 0 <= i < s && 0 < Support(E, {i}) < arrays.THRESHOLD ==> arrays.tempOrder[table[i]] == -1
      requires EntriesAt(a[..], nodearray, mark, E, s) && EntriesOfItem(E, db, s) && Represents(db, table, D, P)
      requires LevelOk(D, P, U, arrays.THRESHOLD, table, count)
      requires Prefixed(list, P + {table[s]}) && |list| + s <= |ITlen|
      modifies this, arrays
      ensures arrays.Valid() && list == old(list)
      ensures Mined(em, D, P + {table[s]}, Names(table, s), arrays.THRESHOLD)
      ensures out == old(out) + em && Tallied(old(ITlen), ITlen, em)
      decreases |table|, 0, 0
    {
      hide EntriesAt, EntriesOfItem, Represents, ChildTable, OrderOk, Mined, LevelOk, Tallied, Prefixed, TreeReady, IsChain,
           EntriesTaken, Minable, FpTree.Counted;
      var table', count', numHotItem := arrays.Scan1(n, s, table, E);
      var tree := new FpTree(n, numHotItem);
      arrays.Scan2(tree, a, nodearray, mark, E, s, table, table');
      ConditionalTree(tree.nodes, tree.sh, tree.nodenum, tree.newDataNum, tree.db, tree.numHotItem, D, P, U, arrays.THRESHOLD,
                      table, count, db, E, s, table', count', arrays.order);
      var single := tree.SinglePath();
      if single {
        em := MineSinglePath(tree, table', count', D, P + {table[s]}, Names(table, s));
      } else {
        em := Grow(tree, table', count', D, P + {table[s]}, Names(table, s));
      }
    }

    /** One round of the loop of FP_growth: the item at position s with the prefix, then its extensions. */
    method MineItem(a: array<int>, nodearray: seq<Entry>, mark: int, table: seq<nat>, count: seq<nat>, s: nat,
                    ghost db: seq<Trans>, ghost E: seq<Trans>, ghost D: seq<Trans>, ghost P: set<nat>, ghost U: set<nat>)
        returns (ghost e: Emission, ghost sub: seq<Emission>)
      requires arrays.Valid() && s < |table| <= arrays.capacity && |table| < 0x8000_0000
      requires forall i :: 0 <= i < |table| ==> table[i] < arrays.names
      requires EntriesAt(a[..], nodearray, mark, E, s) && EntriesOfItem(E, db, s) && Represents(db, table, D, P)
      requires LevelOk(D, P, U, arrays.THRESHOLD, table, count)
      requires Prefixed(list, P) && |list| + |table| <= |ITlen|
      modifies this, arrays
      ensures arrays.Valid() && list == old(list)
      ensures NoRepeats(e.items) && Items(e.items) == P + {table[s]} && e.support == count[s]
      ensures Mined(sub, D, P + {table[s]}, Names(table, s), arrays.THRESHOLD)
      ensures out == old(out) + ([e] + sub) && Tallied(old(ITlen), ITlen, [e] + sub)
      decreases |table|, 1, 0
    {
      hide EntriesAt, EntriesOfItem, Represents, ChildTable, Mined, LevelOk, Tallied, NoRepeats, Items, Names, Prefixed, AllZero, AllFalse;
      ItemFacts(D, P, U, arrays.THRESHOLD, table, count, s);
      e := EmitItem(table[s], count[s], P);
      ghost var ITlen1 := ITlen;
      SizeKept(old(ITlen), ITlen, [e]);
      sub := MineExtensions(a, nodearray, mark, table, s, count, db, E, D, P, U);
      TalliedTrans(old(ITlen), ITlen1, ITlen, [e], sub);
      Pop(old(list), table[s]);
      assert old(out) + [e] + sub == old(out) + ([e] + sub);
    }

    /** `local_list->top = listlen - 1` */
    method Pop(ghost list0: seq<nat>, ghost name: nat)
      requires list == list0 + [name]
      modifies this`list
      ensures list == list0
    {
      list := list[..|list| - 1];
    }

    method EmitItem(name: nat, support: nat, ghost P: set<nat>) returns (ghost e: Emission)
      requires Prefixed(list, P) && name !in P && |list| < |ITlen|
      modifies this`list, this`ITlen, this`out
      ensures list == old(list) + [name] && Prefixed(list, P + {name})
      ensures NoRepeats(e.items) && Items(e.items) == P + {name} && e.support == support
      ensures out == old(out) + [e] && Tallied(old(ITlen), ITlen, [e])
    {
      hide Tallied;
      PrefixedBy(list, P, name);
      list := list + [name];
      e := Emit(support);
    }

    method MineExtensions(a: array<int>, nodearray: seq<Entry>, mark: int, table: seq<nat>, s: nat, ghost count: seq<nat>,
                          ghost db: seq<Trans>, ghost E: seq<Trans>, ghost D: seq<Trans>, ghost P: set<nat>, ghost U: set<nat>)
        returns (ghost sub: seq<Emission>)
      requires arrays.Valid() && s < |table| <= arrays.capacity && |table| < 0x8000_0000 && NoRepeats(table)
      requires forall i :: 0 <= i < |table| ==> table[i] < arrays.names
      requires EntriesAt(a[..], nodearray, mark, E, s) && EntriesOfItem(E, db, s) && Represents(db, table, D, P)
      requires LevelOk(D, P, U, arrays.THRESHOLD, table, count)
      requires Prefixed(list, P + {table[s]}) && |list| + s <= |ITlen|
      modifies this, arrays
      ensures arrays.Valid() && list == old(list)
      ensures Mined(sub, D, P + {table[s]}, Names(table, s), arrays.THRESHOLD)
      ensures out == old(out) + sub && Tallied(old(ITlen), ITlen, sub)
      decreases |table|, 0, 1
    {
      hide EntriesAt, EntriesOfItem, Represents, ChildTable, Mined, LevelOk, Tallied, NoRepeats, Items, Names, Prefixed;
      var n := 0;
      if s != 0 {
        n := arrays.ConditionalPatternBase(a, nodearray, s, mark, table, E);
      } else {
        EmptyTable(table, E, arrays.THRESHOLD);
        assert arrays.globalTable[..0] == [] && arrays.globalCount[..0] == [];
      }
      if n <= 1 {
        sub := MineFew(n, table, s, count, db, E, D, P, U);
      } else {
        sub := MineConditional(a, nodearray, mark, table, s, n, count, db, E, D, P, U);
      }
    }

    /** The shortcuts for new_item_no == 0 and new_item_no == 1. */
    method MineFew(n: nat, table: seq<nat>, s: nat, ghost count: seq<nat>, ghost db: seq<Trans>, ghost E: seq<Trans>, ghost D: seq<Trans>,
                   ghost P: set<nat>, ghost U: set<nat>) returns (ghost sub: seq<Emission>)
      requires n <= 1 && n <= s < |table| && LevelOk(D, P, U, arrays.THRESHOLD, table, count)
      requires n <= |arrays.globalTable| && n <= |arrays.globalCount|
      requires EntriesOfItem(E, db, s) && Represents(db, table, D, P)
      requires ChildTable(table, E, s, arrays.THRESHOLD, arrays.globalTable[..n], arrays.globalCount[..n])
      requires Prefixed(list, P + {table[s]}) && |list| + s <= |ITlen|
      modifies this`list, this`ITlen, this`out
      ensures list == old(list)
      ensures Mined(sub, D, P + {table[s]}, Names(table, s), arrays.THRESHOLD)
      ensures out == old(out) + sub && Tallied(old(ITlen), ITlen, sub)
    {
      ghost var t, c := arrays.globalTable[..n], arrays.globalCount[..n];
      ChildLevel(D, P, U, arrays.THRESHOLD, table, count, db, E, s, t, c);
      FewNames(D, P + {table[s]}, Names(table, s), arrays.THRESHOLD, t, c);
      hide EntriesOfItem, Represents, ChildTable, Mined, LevelOk, Tallied, Prefixed, Names;
      if n == 1 {
        ghost var e := EmitWith(arrays.globalTable[0], arrays.globalCount[0], P + {table[s]});
        OneFrequent(e, D, P + {table[s]}, Names(table, s), arrays.THRESHOLD, t, c);
        sub := [e];
      } else {
        assert t == [] && c == [];
        NothingFrequent(D, P + {table[s]}, Names(table, s), arrays.THRESHOLD);
        TalliedNothing(ITlen);
        sub := [];
      }
    }

    /** One more item on the list, printed and taken off again. */
    method EmitWith(name: nat, support: nat, ghost P: set<nat>) returns (ghost e: Emission)
      requires Prefixed(list, P) && name !in P && |list| < |ITlen|
      modifies this`list, this`ITlen, this`out
      ensures list == old(list) && NoRepeats(e.items) && Items(e.items) == P + {name} && e.support == support
      ensures out == old(out) + [e] && Tallied(old(ITlen), ITlen, [e])
    {
      hide Tallied;
      PrefixedBy(list, P, name);
      list := list + [name];
      e := Emit(support);
      list := list[..|list| - 1];
      assert list == old(list);
    }

    /** FP_tree::FP_growth: everything frequent that extends the prefix is emitted, with its support, exactly once. */
    method Grow(tree: FpTree, table: seq<nat>, count: seq<nat>, ghost D: seq<Trans>, ghost P: set<nat>, ghost U: set<nat>)
        returns (ghost em: seq<Emission>)
      requires Minable(tree.nodes, tree.sh, tree.nodenum, tree.newDataNum, tree.db, tree.numHotItem, table, count, D, P, U, arrays.THRESHOLD)
      requires arrays.Valid() && |table| <= arrays.capacity && |table| < 0x8000_0000
      requires forall i :: 0 <= i < |table| ==> table[i] < arrays.names
      requires Prefixed(list, P) && |list| + |table| <= |ITlen|
      modifies this, arrays
      ensures arrays.Valid() && list == old(list)
      ensures Mined(em, D, P, U, arrays.THRESHOLD) && out == old(out) + em && Tallied(old(ITlen), ITlen, em)
      decreases |table|, 2, 0
    {
      hide Represents, Mined, MinedFrom, LevelOk, Tallied, Prefixed, TreeReady, PrefixTree, TreeShape, Flattened, NodenumOk,
           Minable, Proper, AllZero, AllFalse, EntriesAt, EntriesOfItem, Items, NoRepeats, Flattening.Valid;
      var itemno := |table|;
      var mark := MarkFor(itemno);
      ghost var ns, sh, db, nodenum := tree.nodes, tree.sh, FlatAll(tree.db), tree.nodenum;
      MinableFacts(ns, sh, nodenum, tree.newDataNum, tree.db, tree.numHotItem, table, count, D, P, U, arrays.THRESHOLD);
      var fl := new Flattening(tree.nodes, itemno, tree.newDataNum, mark, tree.sh);
      fl.Transform();
      ghost var a, lists, ids := fl.ItemArray[..], fl.NodeArrayList, fl.ids;
      var s := itemno;
      em := [];
      NothingYet(D, P, table, arrays.THRESHOLD);
      TalliedNothing(ITlen);
      while s > 0
        invariant 0 <= s <= |table| && arrays.Valid() && list == old(list)
        invariant fl.ItemArray[..] == a && fl.NodeArrayList == lists && fl.ids == ids
        invariant MinedFrom(em, D, P, table, s, arrays.THRESHOLD) && out == old(out) + em && Tallied(old(ITlen), ITlen, em)
      {
        s := s - 1;
        ghost var E := ItemEntries(a, lists, ids, ns, sh, db, nodenum, itemno, mark, s);
        ghost var before := ITlen;
        SizeKept(old(ITlen), before, em);
        ghost var e, sub := MineItem(fl.ItemArray, fl.NodeArrayList[s], mark, table, count, s, db, E, D, P, U);
        LevelStep(em, e, sub, D, P, U, arrays.THRESHOLD, table, count, s);
        TalliedTrans(old(ITlen), before, ITlen, em, [e] + sub);
        assert em + ([e] + sub) == em + [e] + sub;
        em := em + [e] + sub;
      }
      LevelMined(em, D, P, U, arrays.THRESHOLD, table, count);
    }
  }

  /** A tree with its table, ready to be mined for the extensions of P. */
  ghost predicate Minable(ns: seq<Fnode>, sh: Shape, nodenum: seq<nat>, newDataNum: nat, hdb: seq<HotTrans>, numHot: nat,
                          table: seq<nat>, count: seq<nat>, D: seq<Trans>, P: set<nat>, U: set<nat>, T: nat)
  {
    && TreeReady(ns, sh, nodenum, newDataNum, hdb, numHot, |table|) && |table| > 0
    && Represents(FlatAll(hdb), table, D, P) && LevelOk(D, P, U, T, table, count)
  }

  lemma {:induction false} DbIsProper(hdb: seq<HotTrans>, numHot: nat, itemno: nat)
    requires DbOk(hdb, numHot, itemno)
    ensures Proper(FlatAll(hdb))
  {
    forall k | 0 <= k < |hdb| ensures Ascending(Flat(hdb[k]).items) && hdb[k].weight > 0 {
      var t := hdb[k];
      BitsAscend(t.mask);
      forall i | 0 <= i < |Bits(t.mask)| ensures Bits(t.mask)[i] < numHot { MaskIsHot(t.mask, numHot, i); }
    }
  }

  lemma MinableFacts(ns: seq<Fnode>, sh: Shape, nodenum: seq<nat>, newDataNum: nat, hdb: seq<HotTrans>, numHot: nat,
                     table: seq<nat>, count: seq<nat>, D: seq<Trans>, P: set<nat>, U: set<nat>, T: nat)
    requires Minable(ns, sh, nodenum, newDataNum, hdb, numHot, table, count, D, P, U, T)
    ensures PrefixTree(ns, sh, FlatAll(hdb), |table|) && Proper(FlatAll(hdb)) && TreeShape(ns, sh, |table|)
    ensures NodenumOk(nodenum, ns, sh, |table|) && |sh.path| == |sh.kids| && newDataNum == Sum(LeafDepths(sh)) + 1
    ensures Represents(FlatAll(hdb), table, D, P) && LevelOk(D, P, U, T, table, count) && |count| == |table| > 0
  {
    DbIsProper(hdb, numHot, |table|);
    TreeIsFlattenable(ns, sh, FlatAll(hdb), |table|);
    hide PrefixTree, Represents, TreeShape, NodenumOk, Proper;
  }

  lemma PathFacts(ns: seq<Fnode>, sh: Shape, nodenum: seq<nat>, newDataNum: nat, hdb: seq<HotTrans>, numHot: nat,
                  table: seq<nat>, count: seq<nat>, D: seq<Trans>, P: set<nat>, U: set<nat>, T: nat)
    requires Minable(ns, sh, nodenum, newDataNum, hdb, numHot, table, count, D, P, U, T) && IsChain(sh) && T >= 1
    ensures PrefixTree(ns, sh, FlatAll(hdb), |table|) && Proper(FlatAll(hdb))
    ensures forall j :: 0 <= j < |table| ==> Support(FlatAll(hdb), {j}) > 0
    ensures PathSupports(D, P, table, count) && LevelOk(D, P, U, T, table, count) && |count| == |table|
  {
    MinableFacts(ns, sh, nodenum, newDataNum, hdb, numHot, table, count, D, P, U, T);
    hide Minable, PrefixTree, Represents, LevelOk, Proper, TreeShape, NodenumOk;
    SinglePathSupports(ns, sh, FlatAll(hdb), D, P, U, T, table, count);
    forall j | 0 <= j < |table| ensures Support(FlatAll(hdb), {j}) > 0 { UsedItem(FlatAll(hdb), D, P, U, T, table, count, j); }
  }

  lemma ChainNext(ns: seq<Fnode>, sh: Shape, db: seq<Trans>, itemno: nat, q: nat)
    requires PrefixTree(ns, sh, db, itemno) && Proper(db) && IsChain(sh) && q < |ns|
    requires forall j :: 0 <= j < itemno ==> Support(db, {j}) > 0
    ensures q < |sh.path| == |ns| && |sh.path[q]| <= itemno && NULL <= ns[q].leftchild < |ns|
    ensures ns[q].leftchild == NULL ==> |sh.path[q]| == itemno
    ensures ns[q].leftchild != NULL ==> |sh.path[ns[q].leftchild]| == |sh.path[q]| + 1 <= itemno
    ensures ns[q].leftchild != NULL ==> ns[ns[q].leftchild].itemname == |sh.path[q]|
  {
    DepthOfNode(ns, sh, db, itemno, q);
    assert NodeOk(ns, sh, q);
    if sh.kids[q] == [] {
      ChainEnd(ns, sh, db, itemno, q);
    } else {
      var c := sh.kids[q][0];
      assert KidOk(ns, sh, q, 0);
      DepthOfNode(ns, sh, db, itemno, c);
      ChainItems(ns, sh, db, itemno, c, |sh.path[q]|);
    }
  }

  lemma ConditionalTree(ns: seq<Fnode>, sh: Shape, nodenum: seq<nat>, newDataNum: nat, hdb: seq<HotTrans>, numHot: nat,
                        D: seq<Trans>, P: set<nat>, U: set<nat>, T: nat, table: seq<nat>, count: seq<nat>, db: seq<Trans>, E: seq<Trans>,
                        s: nat, table': seq<nat>, count': seq<nat>, order: seq<int>)
    requires TreeReady(ns, sh, nodenum, newDataNum, hdb, numHot, |table'|) && |table'| > 0
    requires LevelOk(D, P, U, T, table, count) && Represents(db, table, D, P) && s < |table|
    requires EntriesOfItem(E, db, s) && ChildTable(table, E, s, T, table', count') && OrderOk(order, table, E, s, table')
    requires EntriesTaken(hdb, E, order)
    ensures Minable(ns, sh, nodenum, newDataNum, hdb, numHot, table', count', D, P + {table[s]}, Names(table, s), T)
    ensures PrefixTree(ns, sh, FlatAll(hdb), |table'|) && Proper(FlatAll(hdb))
  {
    ChildLevel(D, P, U, T, table, count, db, E, s, table', count');
    assert NoRepeats(table);
    hide ChildTable, OrderOk, EntriesOfItem, Represents, TreeReady, LevelOk;
    ChildRepresents(D, P, T, table, db, E, s, table', count', order, FlatAll(hdb));
    MinableFacts(ns, sh, nodenum, newDataNum, hdb, numHot, table', count', D, P + {table[s]}, Names(table, s), T);
  }

  lemma ItemFacts(D: seq<Trans>, P: set<nat>, U: set<nat>, T: nat, table: seq<nat>, count: seq<nat>, s: nat)
    requires LevelOk(D, P, U, T, table, count) && s < |table|
    ensures NoRepeats(table) && table[s] !in P && |count| == |table|
  {
  }

  lemma FewNames(D: seq<Trans>, P: set<nat>, U: set<nat>, T: nat, table: seq<nat>, count: seq<nat>)
    requires LevelOk(D, P, U, T, table, count)
    ensures |count| == |table| && (table != [] ==> table[0] !in P)
  {
    assert table != [] ==> table[0] in Items(table);
  }

  lemma TalliedNothing(before: seq<nat>)
    ensures Tallied(before, before, [])
  {
    forall k: nat ensures CountLen([], k) == 0 {}
  }

  lemma SizeKept(before: seq<nat>, after: seq<nat>, em: seq<Emission>)
    requires Tallied(before, after, em)
    ensures |after| == |before|
  {
  }

  /** The entries of item s, as the next level needs them. */
  lemma ItemEntries(a: seq<int>, lists: seq<seq<Entry>>, ids: seq<seq<nat>>, ns: seq<Fnode>, sh: Shape, db: seq<Trans>,
                    nodenum: seq<nat>, itemno: nat, mark: int, s: nat) returns (E: seq<Trans>)
    requires Flattened(a, lists, ids, ns, sh, itemno, mark) && PrefixTree(ns, sh, db, itemno) && Proper(db)
    requires TreeShape(ns, sh, itemno) && NodenumOk(nodenum, ns, sh, itemno) && s < itemno <= mark + 1
    ensures s < |lists| && |lists[s]| == nodenum[s]
    ensures EntriesAt(a, lists[s], mark, E, s) && EntriesOfItem(E, db, s)
  {
    EntriesAtItem(a, lists, ids, ns, sh, db, itemno, mark, s);
    ListsFitExactly(a, lists, ids, ns, sh, itemno, mark, nodenum, s);
    E := EntriesOf(PathsOf(sh, ids[s]), db);
    forall Y: set<nat> | forall y :: y in Y ==> y < s ensures Support(E, Y) == Support(db, Y + {s}) {
      EntriesSupport(PathsOf(sh, ids[s]), db, s, Y);
    }
  }
}
