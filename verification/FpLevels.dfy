/** How one level of FP-growth hands over to the next: the entries of an item, relabelled by the new order, are the
  * database of the conditional tree.
  */
module FpLevels {
  import opened Transactions
  import opened Mining

  /** The names of a set of positions. */
  ghost function Picked(table: seq<nat>, Y: set<nat>): set<nat>
  {
    set y | y in Y && y < |table| :: table[y]
  }

  /** The level's database, over positions in `table`, has the supports of the original one extended by P. */
  ghost predicate Represents(db: seq<Trans>, table: seq<nat>, D: seq<Trans>, P: set<nat>)
  {
    forall Y: set<nat> :: (forall y :: y in Y ==> y < |table|) ==> Support(db, Y) == Support(D, P + Picked(table, Y))
  }

  /** The new table: exactly the items below s that are frequent together with s, in any order. */
  ghost predicate ChildTable(table: seq<nat>, E: seq<Trans>, s: nat, T: nat, table': seq<nat>, count': seq<nat>)
    requires s <= |table|
  {
    && NoRepeats(table') && |count'| == |table'|
    && (forall j :: 0 <= j < |table'| ==> FromParent(table, E, s, table'[j], count'[j]) && count'[j] >= T)
    && (forall i :: 0 <= i < s && Support(E, {i}) >= T ==> table[i] in table')
  }

  ghost predicate FromParent(table: seq<nat>, E: seq<Trans>, s: nat, name: nat, c: nat)
    requires s <= |table|
  {
    exists i :: 0 <= i < s && table[i] == name && c == Support(E, {i})
  }

  /** global_order_array: the new position of every old one that occurs, -1 for those that were infrequent. */
  ghost predicate OrderOk(order: seq<int>, table: seq<nat>, E: seq<Trans>, s: nat, table': seq<nat>)
    requires s <= |table|
  {
    && s <= |order|
    && (forall i :: 0 <= i < s && Support(E, {i}) > 0 ==>
          if table[i] in table' then 0 <= order[i] < |table'| && table'[order[i]] == table[i] else order[i] == -1)
  }

  /** The items of an entry under the new order. */
  ghost predicate Relabelled(items': seq<nat>, items: seq<nat>, order: seq<int>)
  {
    && (forall m :: 0 <= m < |items| ==> items[m] < |order|)
    && (forall j: nat :: j in items' <==> exists m :: 0 <= m < |items| && order[items[m]] == j)
  }

  /** The entries of item s: their supports are those of the sets that also contain s. */
  ghost predicate EntriesOfItem(E: seq<Trans>, db: seq<Trans>, s: nat)
  {
    && (forall Y: set<nat> :: (forall y :: y in Y ==> y < s) ==> Support(E, Y) == Support(db, Y + {s}))
    && (forall k, i :: 0 <= k < |E| && 0 <= i < |E[k].items| ==> E[k].items[i] < s)
    && (forall k :: 0 <= k < |E| ==> E[k].weight > 0)
  }

  lemma SupportOfEntry(E: seq<Trans>, db: seq<Trans>, table: seq<nat>, D: seq<Trans>, P: set<nat>, s: nat, i: nat)
    requires EntriesOfItem(E, db, s) && Represents(db, table, D, P) && i < s < |table|
    ensures Support(E, {i}) == Support(D, P + {table[s]} + {table[i]})
  {
    assert Support(E, {i}) == Support(db, {i} + {s});
    assert Picked(table, {i} + {s}) == {table[i], table[s]};
    assert P + {table[i], table[s]} == P + {table[s]} + {table[i]};
  }

  /** The conditional table makes a level for the prefix extended by s's name. */
  lemma ChildLevel(D: seq<Trans>, P: set<nat>, U: set<nat>, T: nat, table: seq<nat>, count: seq<nat>, db: seq<Trans>,
                   E: seq<Trans>, s: nat, table': seq<nat>, count': seq<nat>)
    requires LevelOk(D, P, U, T, table, count) && Represents(db, table, D, P) && s < |table|
    requires EntriesOfItem(E, db, s) && ChildTable(table, E, s, T, table', count')
    ensures LevelOk(D, P + {table[s]}, Names(table, s), T, table', count')
  {
    var P' := P + {table[s]};
    NamesStep(table, s);
    forall j | 0 <= j < |table'| ensures table'[j] in Names(table, s) && count'[j] == Support(D, P' + {table'[j]}) {
      var i :| 0 <= i < s && table[i] == table'[j] && count'[j] == Support(E, {i});
      SupportOfEntry(E, db, table, D, P, s, i);
      assert table[..s][i] == table'[j];
    }
    forall x | x in Names(table, s) && Support(D, P' + {x}) >= T ensures x in table' {
      var i :| 0 <= i < s && table[i] == x;
      SupportOfEntry(E, db, table, D, P, s, i);
    }
    assert Names(table, s) !! P';
  }

  lemma {:induction false} OccursCounts(E: seq<Trans>, k: nat, i: nat)
    requires k < |E| && i in E[k].items && E[k].weight > 0
    ensures Support(E, {i}) > 0
  {
    if k < |E| - 1 { OccursCounts(Init(E), k, i); }
  }

  lemma OldContained(table: seq<nat>, E: seq<Trans>, s: nat, T: nat, table': seq<nat>, count': seq<nat>, order: seq<int>,
                           k: nat, items': seq<nat>, Y: set<nat>, Y': set<nat>)
    requires s <= |table| && ChildTable(table, E, s, T, table', count') && OrderOk(order, table, E, s, table') && NoRepeats(table)
    requires k < |E| && E[k].weight > 0 && (forall i :: 0 <= i < |E[k].items| ==> E[k].items[i] < s)
    requires Relabelled(items', E[k].items, order)
    requires (forall y :: y in Y' ==> y < |table'|) && Y == set i | 0 <= i < s && table[i] in Picked(table', Y')
    ensures Y <= Items(E[k].items) ==> Y' <= Items(items')
  {
    var p := E[k].items;
    OrderPlaces(table, E, s, order, table', k);
    hide OrderOk, Support;
    if Y <= Items(p) {
      forall j | j in Y' ensures j in items' {
        var i :| 0 <= i < s && table[i] == table'[j] && count'[j] == Support(E, {i});
        assert i in Y;
        var m :| 0 <= m < |p| && p[m] == i;
        assert PlacedItem(p[m], table, order, table') && order[p[m]] == j;
      }
    }
  }

  /** Every item of an entry has its place in the new table, or -1 if it is not there. */
  ghost predicate Placed(p: seq<nat>, table: seq<nat>, order: seq<int>, table': seq<nat>)
  {
    forall m :: 0 <= m < |p| ==> PlacedItem(p[m], table, order, table')
  }

  ghost predicate PlacedItem(x: nat, table: seq<nat>, order: seq<int>, table': seq<nat>)
  {
    && x < |table| && x < |order|
    && if table[x] in table' then 0 <= order[x] < |table'| && table'[order[x]] == table[x] else order[x] == -1
  }

  lemma OrderPlaces(table: seq<nat>, E: seq<Trans>, s: nat, order: seq<int>, table': seq<nat>, k: nat)
    requires s <= |table| && OrderOk(order, table, E, s, table')
    requires k < |E| && E[k].weight > 0 && (forall i :: 0 <= i < |E[k].items| ==> E[k].items[i] < s)
    ensures Placed(E[k].items, table, order, table')
  {
    var p := E[k].items;
    forall m | 0 <= m < |p| ensures PlacedItem(p[m], table, order, table') { OccursCounts(E, k, p[m]); }
  }

  lemma NewContained(table: seq<nat>, s: nat, table': seq<nat>, order: seq<int>, p: seq<nat>, items': seq<nat>, Y: set<nat>, Y': set<nat>)
    requires s <= |table| && NoRepeats(table) && Placed(p, table, order, table') && Relabelled(items', p, order)
    requires (forall y :: y in Y' ==> y < |table'|) && Y == set i | 0 <= i < s && table[i] in Picked(table', Y')
    requires Y' <= Items(items')
    ensures Y <= Items(p)
  {
    forall i | i in Y ensures i in p {
      var j :| j in Y' && j < |table'| && table'[j] == table[i];
      assert j in items';
      var m :| 0 <= m < |p| && order[p[m]] == j;
      assert PlacedItem(p[m], table, order, table');
      assert table[p[m]] == table[i];
    }
  }

  /** A new set is contained in a relabelled entry exactly when the old set is contained in the entry. */
  lemma RelabelledContains(table: seq<nat>, E: seq<Trans>, s: nat, T: nat, table': seq<nat>, count': seq<nat>, order: seq<int>,
                           k: nat, items': seq<nat>, Y: set<nat>, Y': set<nat>)
    requires s <= |table| && ChildTable(table, E, s, T, table', count') && OrderOk(order, table, E, s, table') && NoRepeats(table)
    requires k < |E| && E[k].weight > 0 && (forall i :: 0 <= i < |E[k].items| ==> E[k].items[i] < s)
    requires Relabelled(items', E[k].items, order)
    requires (forall y :: y in Y' ==> y < |table'|) && Y == set i | 0 <= i < s && table[i] in Picked(table', Y')
    ensures Y' <= Items(items') <==> Y <= Items(E[k].items)
  {
    OldContained(table, E, s, T, table', count', order, k, items', Y, Y');
    OrderPlaces(table, E, s, order, table', k);
    if Y' <= Items(items') { NewContained(table, s, table', order, E[k].items, items', Y, Y'); }
    hide *;
  }

  /** The relabelled entries represent the next level. */
  lemma ChildRepresents(D: seq<Trans>, P: set<nat>, T: nat, table: seq<nat>, db: seq<Trans>, E: seq<Trans>, s: nat,
                        table': seq<nat>, count': seq<nat>, order: seq<int>, db': seq<Trans>)
    requires Represents(db, table, D, P) && s < |table| && NoRepeats(table)
    requires EntriesOfItem(E, db, s) && ChildTable(table, E, s, T, table', count') && OrderOk(order, table, E, s, table')
    requires |db'| == |E| && (forall k :: 0 <= k < |E| ==> db'[k].weight == E[k].weight && Relabelled(db'[k].items, E[k].items, order))
    ensures Represents(db', table', D, P + {table[s]})
  {
    forall Y': set<nat> | forall y :: y in Y' ==> y < |table'|
      ensures Support(db', Y') == Support(D, P + {table[s]} + Picked(table', Y'))
    {
      ChildSupport(D, P, T, table, db, E, s, table', count', order, db', Y');
    }
  }

  lemma ChildSupport(D: seq<Trans>, P: set<nat>, T: nat, table: seq<nat>, db: seq<Trans>, E: seq<Trans>, s: nat,
                     table': seq<nat>, count': seq<nat>, order: seq<int>, db': seq<Trans>, Y': set<nat>)
    requires Represents(db, table, D, P) && s < |table| && NoRepeats(table) && forall y :: y in Y' ==> y < |table'|
    requires EntriesOfItem(E, db, s) && ChildTable(table, E, s, T, table', count') && OrderOk(order, table, E, s, table')
    requires |db'| == |E| && (forall k :: 0 <= k < |E| ==> db'[k].weight == E[k].weight && Relabelled(db'[k].items, E[k].items, order))
    ensures Support(db', Y') == Support(D, P + {table[s]} + Picked(table', Y'))
  {
    var Y := set i | 0 <= i < s && table[i] in Picked(table', Y');
    forall k | 0 <= k < |E| ensures Y' <= Items(db'[k].items) <==> Y <= Items(E[k].items) {
      RelabelledContains(table, E, s, T, table', count', order, k, db'[k].items, Y, Y');
    }
    SupportSameItems(db', E, Y', Y);
    PickedChild(table, E, s, T, table', count', Y, Y');
    OldSupport(D, P, table, db, E, s, Y);
    hide *;
    UnionOrder(P, {table[s]}, Picked(table', Y'));
  }

  lemma OldSupport(D: seq<Trans>, P: set<nat>, table: seq<nat>, db: seq<Trans>, E: seq<Trans>, s: nat, Y: set<nat>)
    requires Represents(db, table, D, P) && EntriesOfItem(E, db, s) && s < |table| && forall y :: y in Y ==> y < s
    ensures Support(E, Y) == Support(D, P + Picked(table, Y + {s}))
  {
    hide Support, Picked;
  }

  lemma UnionOrder(a: set<nat>, b: set<nat>, c: set<nat>)
    ensures a + b + c == a + (c + b)
  {
  }

  lemma PickedChild(table: seq<nat>, E: seq<Trans>, s: nat, T: nat, table': seq<nat>, count': seq<nat>, Y: set<nat>, Y': set<nat>)
    requires s < |table| && ChildTable(table, E, s, T, table', count') && (forall y :: y in Y' ==> y < |table'|)
    requires Y == set i | 0 <= i < s && table[i] in Picked(table', Y')
    ensures Picked(table, Y + {s}) == Picked(table', Y') + {table[s]}
  {
    forall x | x in Picked(table', Y') ensures x in Picked(table, Y) {
      var j :| j in Y' && j < |table'| && table'[j] == x;
      var i :| 0 <= i < s && table[i] == table'[j] && count'[j] == Support(E, {i});
      assert i in Y;
    }
  }
}
