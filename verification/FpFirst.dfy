/** FP_tree::FP_growth_first: the items of the first level are shared out among the threads, each with its own arrays, counters and output. */
module FpFirst {
  import opened Common
  import opened HotBits
  import opened Transactions
  import opened FpShape
  import opened FpInsertion
  import opened FpLinking
  import opened FpArrays
  import opened FpPatterns
  import opened FpLevels
  import opened FpTrees
  import opened FpTransform
  import opened FpThreads
  import opened FpGrowth
  import opened Mining

  // The width of the array's elements: it shrinks on the way down.

  /** `newItemArray[i] = oldItemArray[i] & mark`: the marks are one less than a power of two. */
  ghost function Narrowed(a: seq<int>, mark: nat): (r: seq<int>)
    ensures |r| == |a|
  {
    seq(|a|, i requires 0 <= i < |a| => a[i] % (mark + 1))
  }

  /** transform_FPArray. */
  method TransformArray(a: array<int>, mark: nat)
    modifies a
    ensures a[..] == Narrowed(old(a[..]), mark)
  {
    var i := 0;
    while i < a.Length
      invariant 0 <= i <= a.Length
      invariant forall k :: 0 <= k < i ==> a[k] == old(a[k]) % (mark + 1)
      invariant forall k :: i <= k < a.Length ==> a[k] == old(a[k])
    {
      a[i] := a[i] % (mark + 1);
      i := i + 1;
    }
  }

  /** A narrower array still has the lists of the items whose numbers fit: they only speak of smaller items, and no item becomes a mark. */
  lemma NarrowKeeps(a: seq<int>, list: seq<Entry>, mark: int, mark': nat, E: seq<Trans>, x: nat)
    requires EntriesAt(a, list, mark, E, x) && x <= mark' && mark % (mark' + 1) == mark'
    ensures EntriesAt(Narrowed(a, mark'), list, mark', E, x)
  {
    forall k | 0 <= k < |E| ensures PathAt(Narrowed(a, mark'), list[k].begin, E[k].items, mark') && mark' !in E[k].items {
      NarrowPath(a, list[k].begin, E[k].items, mark, mark', x);
    }
  }

  lemma NarrowPath(a: seq<int>, b: int, p: seq<nat>, mark: int, mark': nat, x: nat)
    requires PathAt(a, b, p, mark) && x <= mark' && mark % (mark' + 1) == mark' && forall i :: 0 <= i < |p| ==> p[i] < x
    ensures PathAt(Narrowed(a, mark'), b, p, mark') && mark' !in p
  {
    forall i | b <= i < b + |p| ensures Narrowed(a, mark')[i] == p[|p| - 1 - (i - b)] {
      Quotient(a[i], mark' + 1, 0, a[i]);
    }
  }

  /** The lists of the items below n can be read with this mark. */
  ghost predicate ListsOk(a: seq<int>, lists: seq<seq<Entry>>, mark: int, Es: seq<seq<Trans>>, db: seq<Trans>, n: nat)
  {
    && n <= |lists| == |Es|
    && (forall s :: 0 <= s < n ==> EntriesAt(a, lists[s], mark, Es[s], s) && EntriesOfItem(Es[s], db, s))
  }

  lemma NarrowLists(a: seq<int>, lists: seq<seq<Entry>>, mark: int, mark': nat, Es: seq<seq<Trans>>, db: seq<Trans>, n: nat)
    requires ListsOk(a, lists, mark, Es, db, n) && n <= mark' + 1 && mark % (mark' + 1) == mark'
    ensures ListsOk(Narrowed(a, mark'), lists, mark', Es, db, n)
  {
    hide EntriesAt, EntriesOfItem, Narrowed;
    forall s | 0 <= s < n ensures EntriesAt(Narrowed(a, mark'), lists[s], mark', Es[s], s) {
      NarrowKeeps(a, lists[s], mark, mark', Es[s], s);
    }
  }

  /** The mark of function_type, at first and for the positions below an upper bound. */
  function FirstMark(itemno: nat): nat { if itemno <= 0x100 then 0xff else if itemno < 0x10000 then 0xffff else 0xffff_ffff }

  function NewMark(upper: nat): nat
    requires upper > 0
  {
    if upper - 1 < 0x100 then 0xff else if upper - 1 < 0x10000 then 0xffff else 0xffff_ffff
  }

  /** lowerbound_array. */
  function LowerBound(t: nat): nat { if t == 0 then 0x10000 else if t == 1 then 0x100 else 0 }

  /** Where round t of the three begins. */
  function UpperBound(t: nat, itemno: nat): nat
  {
    var lower := if t == 0 then itemno else LowerBound(t - 1);
    if lower > itemno then itemno else lower
  }

  /** The mark that the array has when round t begins. */
  function MarkAt(t: nat, itemno: nat): nat { if t >= 2 && itemno >= 0x10000 then 0xffff else FirstMark(itemno) }

  /** Before round t the array is made narrower if its positions allow it. */
  method ChangeWidth(t: nat, a: array<int>, mark: nat, itemno: nat, ghost lists: seq<seq<Entry>>, ghost Es: seq<seq<Trans>>, ghost db: seq<Trans>)
      returns (mark': nat)
    requires t < 3 && mark == MarkAt(t, itemno) && UpperBound(t, itemno) > LowerBound(t)
    requires itemno < 0x8000_0000 && ListsOk(a[..], lists, mark, Es, db, UpperBound(t, itemno))
    modifies a
    ensures ListsOk(a[..], lists, mark', Es, db, UpperBound(t, itemno)) && (t < 2 ==> mark' == MarkAt(t + 1, itemno))
    ensures UpperBound(t, itemno) <= mark' + 1
    ensures mark' == 0xff || (mark' == 0xffff && UpperBound(t, itemno) > 0x100) || (mark' == 0xffff_ffff && UpperBound(t, itemno) > 0x10000)
  {
    hide ListsOk;
    mark' := NewMark(UpperBound(t, itemno));
    if mark' != mark {
      NarrowLists(a[..], lists, mark, mark', Es, db, UpperBound(t, itemno));
      if t == 1 { TransformArray(a, 0xffff); }
      if t == 2 { TransformArray(a, 0xff); }
    }
  }

  // The threads.

  /** A thread between two items: its list is empty, its counters tally with its output. */
  ghost predicate AtWork(g: Growth, out: seq<Emission>, zeros: seq<nat>)
    reads g, g.arrays
  {
    g.arrays.Valid() && g.list == [] && g.out == out && Tallied(zeros, g.ITlen, out)
  }

  ghost predicate Able(g: Growth, T: nat, table: seq<nat>)
  {
    g.arrays.THRESHOLD == T && |table| <= g.arrays.capacity && forall i :: 0 <= i < |table| ==> table[i] < g.arrays.names
  }

  ghost predicate Team(team: seq<Growth>, T: nat, table: seq<nat>)
  {
    && (forall t :: 0 <= t < |team| ==> Able(team[t], T, table))
    && (forall t, u :: 0 <= t < u < |team| ==> team[t] != team[u] && team[t].arrays != team[u].arrays)
  }

  ghost predicate AllAtWork(team: seq<Growth>, outs: seq<seq<Emission>>, zeros: seq<nat>)
    reads set g | g in team, set g | g in team :: g.arrays
  {
    |outs| == |team| && forall t :: 0 <= t < |team| ==> AtWork(team[t], outs[t], zeros)
  }

  /** What the threads have found so far, taken together. */
  ghost predicate Found(outs: seq<seq<Emission>>, D: seq<Trans>, table: seq<nat>, lo: nat, T: nat)
    requires lo <= |table|
  {
    exists em :: multiset(em) == multiset(Flatten(outs)) && MinedFrom(em, D, {}, table, lo, T)
  }

  /** One item by one thread. */
  method MineShare(g: Growth, a: array<int>, nodearray: seq<Entry>, mark: int, table: seq<nat>, count: seq<nat>, s: nat,
                   ghost out0: seq<Emission>, ghost zeros: seq<nat>, ghost db: seq<Trans>, ghost E: seq<Trans>, ghost D: seq<Trans>,
                   ghost U: set<nat>, ghost T: nat)
      returns (ghost e: Emission, ghost sub: seq<Emission>)
    requires Able(g, T, table) && AtWork(g, out0, zeros) && s < |table| <= |zeros| && |table| < 0x8000_0000
    requires EntriesAt(a[..], nodearray, mark, E, s) && EntriesOfItem(E, db, s) && Represents(db, table, D, {})
    requires LevelOk(D, {}, U, T, table, count)
    modifies g, g.arrays
    ensures AtWork(g, out0 + ([e] + sub), zeros) && |count| == |table|
    ensures NoRepeats(e.items) && Items(e.items) == {table[s]} && e.support == count[s]
    ensures Mined(sub, D, {table[s]}, Names(table, s), T)
  {
    ItemFacts(D, {}, U, T, table, count, s);
    SizeKept(zeros, g.ITlen, out0);
    assert Prefixed([], {});
    hide EntriesAt, EntriesOfItem, Represents, LevelOk, Mined, Tallied, Prefixed, NoRepeats, Names;
    ghost var before := g.ITlen;
    assert {} + {table[s]} == {table[s]};
    e, sub := g.MineItem(a, nodearray, mark, table, count, s, db, E, D, {}, U);
    TalliedTrans(zeros, before, g.ITlen, out0, [e] + sub);
  }

  lemma StillFound(em: seq<Emission>, outs: seq<seq<Emission>>, D: seq<Trans>, table: seq<nat>, lo: nat, T: nat)
    requires lo <= |table| && multiset(em) == multiset(Flatten(outs)) && MinedFrom(em, D, {}, table, lo, T)
    ensures Found(outs, D, table, lo, T)
  {
  }

  /** An item's sets are added to what one of the threads has found. */
  lemma FoundMore(outs: seq<seq<Emission>>, t: nat, e: Emission, sub: seq<Emission>, D: seq<Trans>, U: set<nat>, T: nat,
                  table: seq<nat>, count: seq<nat>, s: nat)
    requires LevelOk(D, {}, U, T, table, count) && s < |table| && t < |outs| && Found(outs, D, table, s + 1, T)
    requires NoRepeats(e.items) && Items(e.items) == {table[s]} && e.support == count[s]
    requires Mined(sub, D, {table[s]}, Names(table, s), T)
    ensures Found(outs[t := outs[t] + ([e] + sub)], D, table, s, T)
  {
    var em :| multiset(em) == multiset(Flatten(outs)) && MinedFrom(em, D, {}, table, s + 1, T);
    hide *;
    BagGrows(em, outs, t, e, sub);
    assert {} + {table[s]} == {table[s]};
    LevelStep(em, e, sub, D, {}, U, T, table, count, s);
    StillFound(em + [e] + sub, outs[t := outs[t] + ([e] + sub)], D, table, s, T);
  }

  lemma BagGrows(em: seq<Emission>, outs: seq<seq<Emission>>, t: nat, e: Emission, sub: seq<Emission>)
    requires t < |outs| && multiset(em) == multiset(Flatten(outs))
    ensures multiset(em + [e] + sub) == multiset(Flatten(outs[t := outs[t] + ([e] + sub)]))
  {
    hide Flatten;
    FlattenGrows(outs, t, [e] + sub);
    SameBags(em, Flatten(outs), Flatten(outs[t := outs[t] + ([e] + sub)]), [e] + sub);
    assert em + [e] + sub == em + ([e] + sub);
  }

  /** `#pragma omp parallel for schedule(dynamic,1)`: whichever thread gets which item. The rounds of different threads have nothing in
    * common that changes, so they can be looked at one after the other.
    */
  method MineRange(team: seq<Growth>, who: nat -> nat, a: array<int>, lists: seq<seq<Entry>>, mark: int, table: seq<nat>, count: seq<nat>,
                   lower: nat, upper: nat, ghost outs0: seq<seq<Emission>>, ghost zeros: seq<nat>, ghost Es: seq<seq<Trans>>,
                   ghost db: seq<Trans>, ghost D: seq<Trans>, ghost U: set<nat>, ghost T: nat)
      returns (ghost outs: seq<seq<Emission>>)
    requires Team(team, T, table) && AllAtWork(team, outs0, zeros) && (forall s: nat :: who(s) < |team|)
    requires lower <= upper <= |table| <= |zeros| && |table| < 0x8000_0000 && ListsOk(a[..], lists, mark, Es, db, upper)
    requires Represents(db, table, D, {}) && LevelOk(D, {}, U, T, table, count) && Found(outs0, D, table, upper, T)
    modifies set g | g in team, set g | g in team :: g.arrays
    ensures AllAtWork(team, outs, zeros) && Found(outs, D, table, lower, T)
  {
    hide EntriesAt, EntriesOfItem, Represents, LevelOk, Found, AtWork, Able, NoRepeats, Items, Names, Mined;
    outs := outs0;
    var s := upper;
    while s > lower
      invariant lower <= s <= upper && AllAtWork(team, outs, zeros) && Found(outs, D, table, s, T)
    {
      s := s - 1;
      var t := who(s);
      ghost var e, sub := MineShare(team[t], a, lists[s], mark, table, count, s, outs[t], zeros, db, Es[s], D, U, T);
      FoundMore(outs, t, e, sub, D, U, T, table, count, s);
      outs := outs[t := outs[t] + ([e] + sub)];
    }
  }

  lemma FewerLists(a: seq<int>, lists: seq<seq<Entry>>, mark: int, Es: seq<seq<Trans>>, db: seq<Trans>, n: nat, n': nat)
    requires ListsOk(a, lists, mark, Es, db, n) && n' <= n
    ensures ListsOk(a, lists, mark, Es, db, n')
  {
  }

  lemma AllEntries(a: seq<int>, lists: seq<seq<Entry>>, ids: seq<seq<nat>>, ns: seq<Fnode>, sh: Shape, db: seq<Trans>,
                   nodenum: seq<nat>, itemno: nat, mark: int, n: nat) returns (Es: seq<seq<Trans>>)
    requires Flattened(a, lists, ids, ns, sh, itemno, mark) && PrefixTree(ns, sh, db, itemno) && Proper(db)
    requires TreeShape(ns, sh, itemno) && NodenumOk(nodenum, ns, sh, itemno) && n <= itemno <= mark + 1
    ensures |Es| == n <= |lists| && forall s :: 0 <= s < n ==> EntriesAt(a, lists[s], mark, Es[s], s) && EntriesOfItem(Es[s], db, s)
  {
    if n == 0 {
      Es := [];
    } else {
      Es := AllEntries(a, lists, ids, ns, sh, db, nodenum, itemno, mark, n - 1);
      var E := ItemEntries(a, lists, ids, ns, sh, db, nodenum, itemno, mark, n - 1);
      hide *;
      Es := Es + [E];
    }
  }

  lemma AllLists(a: seq<int>, lists: seq<seq<Entry>>, ids: seq<seq<nat>>, ns: seq<Fnode>, sh: Shape, db: seq<Trans>,
                 nodenum: seq<nat>, itemno: nat, mark: int) returns (Es: seq<seq<Trans>>)
    requires Flattened(a, lists, ids, ns, sh, itemno, mark) && PrefixTree(ns, sh, db, itemno) && Proper(db)
    requires TreeShape(ns, sh, itemno) && NodenumOk(nodenum, ns, sh, itemno) && itemno <= mark + 1
    ensures ListsOk(a, lists, mark, Es, db, itemno)
  {
    Es := AllEntries(a, lists, ids, ns, sh, db, nodenum, itemno, mark, itemno);
    hide EntriesAt, EntriesOfItem;
  }

  ghost function Nothing(n: nat): (outs: seq<seq<Emission>>)
    ensures |outs| == n && forall t :: 0 <= t < n ==> outs[t] == []
  {
    seq(n, _ => [])
  }

  lemma FoundNothing(n: nat, D: seq<Trans>, table: seq<nat>, T: nat)
    ensures Found(Nothing(n), D, table, |table|, T)
  {
    var em: seq<Emission> := [];
    NothingYet(D, {}, table, T);
    FlattenNothing(Nothing(n));
    StillFound(em, Nothing(n), D, table, |table|, T);
  }

  lemma FoundAll(outs: seq<seq<Emission>>, D: seq<Trans>, U: set<nat>, T: nat, table: seq<nat>, count: seq<nat>)
    requires Found(outs, D, table, 0, T) && LevelOk(D, {}, U, T, table, count)
    ensures Mined(Flatten(outs), D, {}, U, T)
  {
    var em :| multiset(em) == multiset(Flatten(outs)) && MinedFrom(em, D, {}, table, 0, T);
    LevelMined(em, D, {}, U, T, table, count);
    MinedAnyway(em, Flatten(outs), D, {}, U, T);
  }

  /** FP_growth_first: what the threads report together is every frequent set with its support, once, whichever thread gets which item. */
  method GrowFirst(tree: FpTree, team: seq<Growth>, who: nat -> nat, table: seq<nat>, count: seq<nat>, ghost zeros: seq<nat>,
                   ghost D: seq<Trans>, ghost U: set<nat>, ghost T: nat)
      returns (ghost outs: seq<seq<Emission>>)
    requires Minable(tree.nodes, tree.sh, tree.nodenum, tree.newDataNum, tree.db, tree.numHotItem, table, count, D, {}, U, T)
    requires Team(team, T, table) && AllAtWork(team, Nothing(|team|), zeros) && (forall s: nat :: who(s) < |team|)
    requires |table| <= |zeros| && |table| < 0x8000_0000
    modifies set g | g in team, set g | g in team :: g.arrays
    ensures AllAtWork(team, outs, zeros) && Mined(Flatten(outs), D, {}, U, T)
  {
    hide Minable, PrefixTree, Proper, TreeShape, NodenumOk, Represents, LevelOk, Flattened, Flattening.Valid, ListsOk, Found, AllAtWork, Team,
         EntriesAt, EntriesOfItem, Mined;
    var itemno := |table|;
    var mark := FirstMark(itemno);
    ghost var ns, sh, db, nodenum := tree.nodes, tree.sh, FlatAll(tree.db), tree.nodenum;
    MinableFacts(ns, sh, nodenum, tree.newDataNum, tree.db, tree.numHotItem, table, count, D, {}, U, T);
    var fl := new Flattening(tree.nodes, itemno, tree.newDataNum, mark, tree.sh);
    fl.Transform();
    ghost var Es := AllLists(fl.ItemArray[..], fl.NodeArrayList, fl.ids, ns, sh, db, nodenum, itemno, mark);
    outs := Nothing(|team|);
    FoundNothing(|team|, D, table, T);
    outs := MineRounds(team, who, fl.ItemArray, fl.NodeArrayList, table, count, outs, zeros, Es, db, D, U, T);
    FoundAll(outs, D, U, T, table, count);
  }

  /** The three loops, each with the narrowest array that its items allow. */
  method MineRounds(team: seq<Growth>, who: nat -> nat, a: array<int>, lists: seq<seq<Entry>>, table: seq<nat>, count: seq<nat>,
                    ghost outs0: seq<seq<Emission>>, ghost zeros: seq<nat>, ghost Es: seq<seq<Trans>>, ghost db: seq<Trans>,
                    ghost D: seq<Trans>, ghost U: set<nat>, ghost T: nat)
      returns (ghost outs: seq<seq<Emission>>)
    requires Team(team, T, table) && AllAtWork(team, outs0, zeros) && (forall s: nat :: who(s) < |team|)
    requires 0 < |table| <= |zeros| && |table| < 0x8000_0000 && ListsOk(a[..], lists, FirstMark(|table|), Es, db, |table|)
    requires Represents(db, table, D, {}) && LevelOk(D, {}, U, T, table, count) && Found(outs0, D, table, |table|, T)
    modifies a, set g | g in team, set g | g in team :: g.arrays
    ensures AllAtWork(team, outs, zeros) && Found(outs, D, table, 0, T)
  {
    hide ListsOk, Represents, LevelOk, Found, Team, AllAtWork;
    var itemno, mark, t := |table|, FirstMark(|table|), 0;
    outs := outs0;
    while t < 3
      invariant 0 <= t <= 3 && AllAtWork(team, outs, zeros) && Found(outs, D, table, UpperBound(t, itemno), T)
      invariant t < 3 ==> mark == MarkAt(t, itemno) && ListsOk(a[..], lists, mark, Es, db, UpperBound(t, itemno))
    {
      var upper, lower := UpperBound(t, itemno), LowerBound(t);
      if upper > lower {
        mark := ChangeWidth(t, a, mark, itemno, lists, Es, db);
        outs := MineRange(team, who, a, lists, mark, table, count, lower, upper, outs, zeros, Es, db, D, U, T);
        FewerLists(a[..], lists, mark, Es, db, upper, lower);
      }
      t := t + 1;
    }
  }

  // The report.

  /** `ITlen[0][i] += ITlen[j][i]` */
  method AddLengths(g: Growth, h: Growth)
    requires g != h && |g.ITlen| == |h.ITlen|
    modifies g`ITlen
    ensures |g.ITlen| == |h.ITlen| && forall i :: 0 <= i < |g.ITlen| ==> g.ITlen[i] == old(g.ITlen[i]) + h.ITlen[i]
  {
    var i := 0;
    while i < |g.ITlen|
      invariant 0 <= i <= |g.ITlen| == |h.ITlen|
      invariant forall k :: 0 <= k < i ==> g.ITlen[k] == old(g.ITlen[k]) + h.ITlen[k]
      invariant forall k :: i <= k < |g.ITlen| ==> g.ITlen[k] == old(g.ITlen[k])
    {
      g.ITlen := g.ITlen[i := g.ITlen[i] + h.ITlen[i]];
      i := i + 1;
    }
  }

  /** The numbers of sets of every size, as far as there are any. */
  ghost predicate Lengths(lens: seq<nat>, em: seq<Emission>, n: nat)
  {
    && |lens| <= n && (lens != [] ==> lens[|lens| - 1] > 0)
    && (forall k :: 0 <= k < n ==> LengthIs(lens, em, k))
  }

  ghost predicate LengthIs(lens: seq<nat>, em: seq<Emission>, k: nat) { CountLen(em, k + 1) == if k < |lens| then lens[k] else 0 }

  /** printLen: the counters of all threads are added up, and the zeros at the end are not printed. */
  method PrintLen(team: seq<Growth>, ghost outs: seq<seq<Emission>>, ghost zeros: seq<nat>) returns (lens: seq<nat>)
    requires team != [] && (forall t, u :: 0 <= t < u < |team| ==> team[t] != team[u]) && AllAtWork(team, outs, zeros)
    requires forall k :: 0 <= k < |zeros| ==> zeros[k] == 0
    modifies team[0]
    ensures Lengths(lens, Flatten(outs), |zeros|)
  {
    AddAll(team, outs, zeros);
    hide AllAtWork, Flatten;
    var i := |team[0].ITlen|;
    while i > 0 && team[0].ITlen[i - 1] == 0
      invariant 0 <= i <= |team[0].ITlen| && forall k :: i <= k < |zeros| ==> team[0].ITlen[k] == 0
    {
      i := i - 1;
    }
    lens := team[0].ITlen[..i];
    forall k | 0 <= k < |zeros| ensures LengthIs(lens, Flatten(outs), k) { assert Counted(team[0].ITlen, Flatten(outs), k); }
  }

  ghost predicate Counted(lens: seq<nat>, em: seq<Emission>, k: nat)
    requires k < |lens|
  {
    lens[k] == CountLen(em, k + 1)
  }

  method AddAll(team: seq<Growth>, ghost outs: seq<seq<Emission>>, ghost zeros: seq<nat>)
    requires team != [] && (forall t, u :: 0 <= t < u < |team| ==> team[t] != team[u]) && AllAtWork(team, outs, zeros)
    requires forall k :: 0 <= k < |zeros| ==> zeros[k] == 0
    modifies team[0]
    ensures |team[0].ITlen| == |zeros| && forall k :: 0 <= k < |zeros| ==> Counted(team[0].ITlen, Flatten(outs), k)
  {
    var j := 1;
    assert AtWork(team[0], outs[0], zeros);
    FirstOut(outs);
    hide Flatten, CountLen;
    while j < |team|
      invariant 1 <= j <= |team| && |team[0].ITlen| == |zeros|
      invariant forall k :: 0 <= k < |zeros| ==> Counted(team[0].ITlen, Flatten(outs[..j]), k)
      invariant forall t :: j <= t < |team| ==> Tallied(zeros, team[t].ITlen, outs[t])
    {
      ghost var before := team[0].ITlen;
      AddLengths(team[0], team[j]);
      ghost var after, em := team[0].ITlen, Flatten(outs[..j + 1]);
      forall k | 0 <= k < |zeros| ensures Counted(after, em, k) {
        assert Counted(before, Flatten(outs[..j]), k);
        NextOut(outs, j, k + 1);
      }
      j := j + 1;
    }
    assert outs[..j] == outs;
  }

  lemma LengthsAt(lens: seq<nat>, em: seq<Emission>, n: nat, len: nat)
    requires Lengths(lens, em, n) && 0 < len <= n
    ensures CountLen(em, len) == if len <= |lens| then lens[len - 1] else 0
  {
    assert LengthIs(lens, em, len - 1);
  }

  lemma FirstOut(outs: seq<seq<Emission>>)
    requires outs != []
    ensures Flatten(outs[..1]) == outs[0]
  {
    assert outs[..1][..0] == [];
  }

  lemma NextOut(outs: seq<seq<Emission>>, j: nat, len: nat)
    requires j < |outs|
    ensures CountLen(Flatten(outs[..j + 1]), len) == CountLen(Flatten(outs[..j]), len) + CountLen(outs[j], len)
  {
    assert outs[..j + 1][..j] == outs[..j];
    CountLenConcat(Flatten(outs[..j]), outs[j], len);
  }

  /** The lines of the report, thread by thread. */
  method Lines(team: seq<Growth>, ghost outs: seq<seq<Emission>>, ghost zeros: seq<nat>) returns (out: seq<Emission>)
    requires AllAtWork(team, outs, zeros)
    ensures out == Flatten(outs)
  {
    out := [];
    var j := 0;
    while j < |team|
      invariant 0 <= j <= |team| && out == Flatten(outs[..j])
    {
      assert AtWork(team[j], outs[j], zeros);
      assert outs[..j + 1][..j] == outs[..j];
      out := out + team[j].out;
      j := j + 1;
    }
    assert outs[..j] == outs;
  }

  /** Every thread has its own arrays and counters. */
  method StartTeam(workingthread: nat, THRESHOLD: nat, hotItemNum1: nat, SORTHRESH: nat, table: seq<nat>, names: nat)
      returns (team: seq<Growth>)
    requires THRESHOLD >= 1 && SORTHRESH >= 1 && forall i :: 0 <= i < |table| ==> table[i] < names
    ensures |team| == workingthread && Team(team, THRESHOLD, table) && AllAtWork(team, Nothing(|team|), Zeros(|table|))
    ensures forall t :: 0 <= t < |team| ==> fresh(team[t]) && fresh(team[t].arrays)
  {
    hide Tallied;
    team := [];
    while |team| < workingthread
      invariant |team| <= workingthread && Team(team, THRESHOLD, table)
      invariant forall t :: 0 <= t < |team| ==> fresh(team[t]) && fresh(team[t].arrays) && AtWork(team[t], [], Zeros(|table|))
    {
      var arrays := new ThreadArrays(THRESHOLD, hotItemNum1, SORTHRESH, |table|, names);
      var growth := new Growth(arrays, |table|);
      TalliedNothing(Zeros(|table|));
      assert growth.ITlen == Zeros(|table|);
      team := team + [growth];
    }
  }

  function Zeros(n: nat): (r: seq<nat>)
    ensures |r| == n && forall k :: 0 <= k < n ==> r[k] == 0
  {
    seq(n, _ => 0)
  }

  /** The tree of all records. */
  method BuildTree(hdb: seq<HotTrans>, numHotItem: nat, itemno: nat) returns (tree: FpTree)
    requires 0 < itemno && numHotItem <= itemno && DbOk(hdb, numHotItem, itemno)
    ensures fresh(tree) && tree.db == hdb && tree.numHotItem == numHotItem
    ensures TreeReady(tree.nodes, tree.sh, tree.nodenum, tree.newDataNum, hdb, numHotItem, itemno)
  {
    hide PrefixTree, NodenumOk, DbOk, FpTree.Counted;
    tree := new FpTree(itemno, numHotItem);
    ghost var top: nat := Pow2(numHotItem) - 1;
    var i := 0;
    while i < |hdb|
      invariant 0 <= i <= |hdb| && tree.Counted(top) && |tree.hashtable| == |tree.hotNodeCount| == Pow2(numHotItem)
      invariant fresh(tree) && tree.db == hdb[..i]
    {
      OneOfDb(hdb, numHotItem, itemno, i);
      tree.AddTransaction(hdb[i].mask, hdb[i].rest, hdb[i].weight, top);
      assert hdb[..i + 1] == hdb[..i] + [hdb[i]];
      i := i + 1;
    }
    assert hdb[..i] == hdb;
    tree.LinkHotNodes(top);
  }

  lemma OneOfDb(hdb: seq<HotTrans>, numHot: nat, itemno: nat, i: nat)
    requires DbOk(hdb, numHot, itemno) && i < |hdb|
    ensures TransOk(hdb[i], numHot, itemno) && hdb[i].mask < Pow2(numHot)
  {
  }

  /** From a database to the report: build the tree, mine it with all threads, add up. `D` are the same transactions over item names;
    * `table` lists the frequent names.
    */
  method MineDatabase(hdb: seq<HotTrans>, numHotItem: nat, table: seq<nat>, count: seq<nat>, THRESHOLD: nat, hotItemNum1: nat,
                      SORTHRESH: nat, names: nat, workingthread: nat, who: nat -> nat, ghost D: seq<Trans>, ghost U: set<nat>)
      returns (ITlen: seq<nat>, out: seq<Emission>)
    requires 0 < |table| < 0x8000_0000 && numHotItem <= |table| && DbOk(hdb, numHotItem, |table|)
    requires THRESHOLD >= 1 && SORTHRESH >= 1 && forall i :: 0 <= i < |table| ==> table[i] < names
    requires forall s: nat :: who(s) < workingthread
    requires Represents(FlatAll(hdb), table, D, {}) && LevelOk(D, {}, U, THRESHOLD, table, count)
    ensures Mined(out, D, {}, U, THRESHOLD) && |ITlen| <= |table|
    ensures forall n :: 0 < n <= |table| ==> |Frequent(D, U, THRESHOLD, n)| == if n <= |ITlen| then ITlen[n - 1] else 0
  {
    hide Mined, LevelOk, Represents, Frequent, PrefixTree, NodenumOk, DbOk, Team, AllAtWork, TreeReady;
    var tree := BuildTree(hdb, numHotItem, |table|);
    var team := StartTeam(workingthread, THRESHOLD, hotItemNum1, SORTHRESH, table, names);
    ghost var outs := GrowFirst(tree, team, who, table, count, Zeros(|table|), D, U, THRESHOLD);
    out := Lines(team, outs, Zeros(|table|));
    assert who(0) < |team|;
    Apart(team, THRESHOLD, table);
    ITlen := PrintLen(team, outs, Zeros(|table|));
    forall n | 0 < n <= |table| ensures |Frequent(D, U, THRESHOLD, n)| == if n <= |ITlen| then ITlen[n - 1] else 0 {
      CountsAreFrequentSets(out, D, U, THRESHOLD, n);
      LengthsAt(ITlen, out, |table|, n);
    }
  }

  lemma Apart(team: seq<Growth>, T: nat, table: seq<nat>)
    requires Team(team, T, table)
    ensures forall t, u :: 0 <= t < u < |team| ==> team[t] != team[u]
  {
  }
}
