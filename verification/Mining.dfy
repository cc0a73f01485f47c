/** What FP-growth promises: the emissions are exactly the frequent itemsets, each once. `D` is the original database
  * over item names; a recursive call mines the extensions of the prefix set `P` by the names in `U`.
  */
module Mining {
  import opened Transactions

  /** One call of printSet: the items printed and their support. */
  datatype Emission = Emission(items: seq<nat>, support: nat)

  function Names(table: seq<nat>, n: nat): set<nat>
    requires n <= |table|
  {
    Items(table[..n])
  }

  ghost predicate Emitted(em: seq<Emission>, S: set<nat>) { exists k :: 0 <= k < |em| && Items(em[k].items) == S }

  ghost predicate EmissionOk(e: Emission, D: seq<Trans>, P: set<nat>, U: set<nat>, T: nat)
  {
    && NoRepeats(e.items) && P < Items(e.items) <= P + U
    && e.support == Support(D, Items(e.items)) >= T
  }

  ghost predicate AllDifferent(em: seq<Emission>)
  {
    forall j, k :: 0 <= j < k < |em| ==> Items(em[j].items) != Items(em[k].items)
  }

  /** Every frequent P + X with X a nonempty subset of U is listed once with its support, and nothing else is. */
  ghost predicate Mined(em: seq<Emission>, D: seq<Trans>, P: set<nat>, U: set<nat>, T: nat)
  {
    && (forall k :: 0 <= k < |em| ==> EmissionOk(em[k], D, P, U, T))
    && AllDifferent(em)
    && (forall X: set<nat> :: X <= U && X != {} && Support(D, P + X) >= T ==> Emitted(em, P + X))
  }

  /** The same in the middle of a level's loop: the sets whose last item, in table order, is at lo or later. */
  ghost predicate MinedFrom(em: seq<Emission>, D: seq<Trans>, P: set<nat>, table: seq<nat>, lo: nat, T: nat)
    requires lo <= |table|
  {
    && (forall k :: 0 <= k < |em| ==>
          EmissionOk(em[k], D, P, Items(table), T) && !(Items(em[k].items) <= P + Names(table, lo)))
    && AllDifferent(em)
    && (forall X: set<nat> :: X <= Items(table) && !(X <= Names(table, lo)) && Support(D, P + X) >= T ==> Emitted(em, P + X))
  }

  /** A level of the recursion: every item of its table is frequent with P, and no other name in U is. */
  ghost predicate LevelOk(D: seq<Trans>, P: set<nat>, U: set<nat>, T: nat, table: seq<nat>, count: seq<nat>)
  {
    && NoRepeats(table) && Items(table) <= U && U !! P && |count| == |table|
    && (forall i :: 0 <= i < |table| ==> count[i] == Support(D, P + {table[i]}) >= T)
    && (forall x :: x in U && Support(D, P + {x}) >= T ==> x in table)
  }

  lemma NothingYet(D: seq<Trans>, P: set<nat>, table: seq<nat>, T: nat)
    ensures MinedFrom([], D, P, table, |table|, T)
  {
    assert table[..|table|] == table;
  }

  lemma NamesStep(table: seq<nat>, s: nat)
    requires s < |table|
    ensures Names(table, s + 1) == Names(table, s) + {table[s]} <= Items(table)
    ensures NoRepeats(table) ==> table[s] !in Names(table, s)
  {
    assert table[..s + 1] == table[..s] + [table[s]];
    forall x | x in table[..s] ensures x in table {}
  }

  /** Anti-monotonicity: only the table's items can occur in frequent sets. */
  lemma LevelMined(em: seq<Emission>, D: seq<Trans>, P: set<nat>, U: set<nat>, T: nat, table: seq<nat>, count: seq<nat>)
    requires LevelOk(D, P, U, T, table, count) && MinedFrom(em, D, P, table, 0, T)
    ensures Mined(em, D, P, U, T)
  {
    forall X: set<nat> | X <= U && X != {} && Support(D, P + X) >= T ensures Emitted(em, P + X) {
      forall x | x in X ensures x in table { SupportAntitone(D, P + {x}, P + X); }
      assert X <= Items(table);
      assert Names(table, 0) == {};
    }
  }

  /** Processing the item at position s: the item on its own, then all its extensions by earlier items. */
  lemma LevelStep(em: seq<Emission>, e: Emission, sub: seq<Emission>, D: seq<Trans>, P: set<nat>, U: set<nat>, T: nat,
                  table: seq<nat>, count: seq<nat>, s: nat)
    requires LevelOk(D, P, U, T, table, count) && s < |table| && MinedFrom(em, D, P, table, s + 1, T)
    requires NoRepeats(e.items) && Items(e.items) == P + {table[s]} && e.support == count[s]
    requires Mined(sub, D, P + {table[s]}, Names(table, s), T)
    ensures MinedFrom(em + [e] + sub, D, P, table, s, T)
  {
    var r := em + [e] + sub;
    forall k | 0 <= k < |r|
      ensures EmissionOk(r[k], D, P, Items(table), T) && !(Items(r[k].items) <= P + Names(table, s))
      ensures k < |em| <==> !(Items(r[k].items) <= P + Names(table, s + 1))
      ensures k > |em| ==> Items(r[k].items) != P + {table[s]}
    {
      StepEach(em, e, sub, D, P, U, T, table, count, s, k);
    }
    forall X: set<nat> | X <= Items(table) && !(X <= Names(table, s)) && Support(D, P + X) >= T ensures Emitted(r, P + X) {
      StepComplete(em, e, sub, D, P, T, table, s, X);
    }
    assert AllDifferent(r) by {
      hide EmissionOk, Names, LevelOk, Emitted;
      StepDifferent(em, e, sub, P, table[s]);
    }
  }

  lemma StepEach(em: seq<Emission>, e: Emission, sub: seq<Emission>, D: seq<Trans>, P: set<nat>, U: set<nat>, T: nat,
                 table: seq<nat>, count: seq<nat>, s: nat, k: nat)
    requires LevelOk(D, P, U, T, table, count) && s < |table| && MinedFrom(em, D, P, table, s + 1, T)
    requires NoRepeats(e.items) && Items(e.items) == P + {table[s]} && e.support == count[s]
    requires Mined(sub, D, P + {table[s]}, Names(table, s), T) && k < |em + [e] + sub|
    ensures var S := Items((em + [e] + sub)[k].items);
      && EmissionOk((em + [e] + sub)[k], D, P, Items(table), T) && !(S <= P + Names(table, s))
      && (k < |em| <==> !(S <= P + Names(table, s + 1))) && (k > |em| ==> S != P + {table[s]})
  {
    var r := em + [e] + sub;
    NamesStep(table, s);
    assert table[s] !in P;
    if k < |em| {
      assert r[k] == em[k];
    } else if k > |em| {
      assert r[k] == sub[k - |em| - 1];
      assert EmissionOk(r[k], D, P + {table[s]}, Names(table, s), T);
    }
  }

  lemma StepDifferent(em: seq<Emission>, e: Emission, sub: seq<Emission>, P: set<nat>, t: nat)
    requires AllDifferent(em) && AllDifferent(sub) && Items(e.items) == P + {t}
    requires forall j, k :: 0 <= j < |em| <= k < |em + [e] + sub| ==> Items((em + [e] + sub)[j].items) != Items((em + [e] + sub)[k].items)
    requires forall k :: |em| < k < |em + [e] + sub| ==> Items((em + [e] + sub)[k].items) != P + {t}
    ensures AllDifferent(em + [e] + sub)
  {
    var r := em + [e] + sub;
    forall j, k | 0 <= j < k < |r| ensures Items(r[j].items) != Items(r[k].items) {
      if k < |em| { assert r[j] == em[j] && r[k] == em[k]; }
      else if j > |em| { assert r[j] == sub[j - |em| - 1] && r[k] == sub[k - |em| - 1]; }
    }
  }

  lemma StepComplete(em: seq<Emission>, e: Emission, sub: seq<Emission>, D: seq<Trans>, P: set<nat>, T: nat,
                     table: seq<nat>, s: nat, X: set<nat>)
    requires s < |table| && MinedFrom(em, D, P, table, s + 1, T) && Items(e.items) == P + {table[s]}
    requires Mined(sub, D, P + {table[s]}, Names(table, s), T)
    requires X <= Items(table) && !(X <= Names(table, s)) && Support(D, P + X) >= T
    ensures Emitted(em + [e] + sub, P + X)
  {
    var t := table[s];
    NamesStep(table, s);
    EmittedIn(em, e, sub, P + X);
    hide EmissionOk, AllDifferent, Support, Emitted, NoRepeats, Items;
    if X <= Names(table, s + 1) {
      var X' := X - {t};
      assert P + X == P + {t} + X' && X' <= Names(table, s);
      if X' == {} { assert P + X == P + {t}; }
    }
  }

  lemma EmittedIn(em: seq<Emission>, e: Emission, sub: seq<Emission>, S: set<nat>)
    ensures Emitted(em, S) || Items(e.items) == S || Emitted(sub, S) ==> Emitted(em + [e] + sub, S)
  {
    var r := em + [e] + sub;
    if Emitted(em, S) {
      var k :| 0 <= k < |em| && Items(em[k].items) == S;
      assert r[k] == em[k];
    } else if Items(e.items) == S {
      assert r[|em|] == e;
    } else if Emitted(sub, S) {
      var k :| 0 <= k < |sub| && Items(sub[k].items) == S;
      assert r[|em| + 1 + k] == sub[k];
    }
  }

  /** Nothing frequent: nothing emitted. */
  lemma NothingFrequent(D: seq<Trans>, P: set<nat>, U: set<nat>, T: nat)
    requires LevelOk(D, P, U, T, [], [])
    ensures Mined([], D, P, U, T)
  {
    NothingYet(D, P, [], T);
    LevelMined([], D, P, U, T, [], []);
  }

  /** One frequent item: it is emitted alone, as the shortcut for new_item_no == 1 does. */
  lemma OneFrequent(e: Emission, D: seq<Trans>, P: set<nat>, U: set<nat>, T: nat, table: seq<nat>, count: seq<nat>)
    requires LevelOk(D, P, U, T, table, count) && |table| == 1
    requires NoRepeats(e.items) && Items(e.items) == P + {table[0]} && e.support == count[0]
    ensures Mined([e], D, P, U, T)
  {
    NothingYet(D, P, table, T);
    assert Names(table, 0) == {};
    assert LevelOk(D, P + {table[0]}, {}, T, [], []);
    NothingFrequent(D, P + {table[0]}, {}, T);
    LevelStep([], e, [], D, P, U, T, table, count, 0);
    assert [] + [e] + [] == [e];
    LevelMined([e], D, P, U, T, table, count);
  }

  /** How many of the emissions have a given length: what ITlen[len - 1] counts. */
  function CountLen(em: seq<Emission>, len: nat): nat
  {
    if em == [] then 0 else CountLen(Init(em), len) + if |Last(em).items| == len then 1 else 0
  }

  lemma {:induction false} CountLenConcat(a: seq<Emission>, b: seq<Emission>, len: nat)
    ensures CountLen(a + b, len) == CountLen(a, len) + CountLen(b, len)
  {
    if b == [] { assert a + b == a; } else {
      assert Init(a + b) == a + Init(b);
      CountLenConcat(a, Init(b), len);
    }
  }

  ghost function EmittedSets(em: seq<Emission>, len: nat): set<set<nat>>
  {
    if em == [] then {}
    else EmittedSets(Init(em), len) + if |Last(em).items| == len then {Items(Last(em).items)} else {}
  }

  lemma {:induction false} EmittedSetsAre(em: seq<Emission>, len: nat, S: set<nat>)
    ensures S in EmittedSets(em, len) <==> exists k :: 0 <= k < |em| && |em[k].items| == len && Items(em[k].items) == S
  {
    if em != [] {
      EmittedSetsAre(Init(em), len, S);
      if S in EmittedSets(Init(em), len) {
        var k :| 0 <= k < |em| - 1 && |Init(em)[k].items| == len && Items(Init(em)[k].items) == S;
        assert em[k] == Init(em)[k];
      }
    }
  }

  lemma {:induction false} EmittedSetsCount(em: seq<Emission>, len: nat)
    requires AllDifferent(em)
    ensures |EmittedSets(em, len)| == CountLen(em, len)
  {
    if em != [] {
      EmittedSetsCount(Init(em), len);
      EmittedSetsAre(Init(em), len, Items(Last(em).items));
    }
  }

  /** The frequent sets with n items. */
  ghost function Frequent(D: seq<Trans>, U: set<nat>, T: nat, n: nat): set<set<nat>>
  {
    set X: set<nat> | X <= U && |X| == n && Support(D, X) >= T
  }

  lemma EmittedIsFrequent(em: seq<Emission>, D: seq<Trans>, U: set<nat>, T: nat, n: nat, S: set<nat>)
    requires Mined(em, D, {}, U, T) && S in EmittedSets(em, n)
    ensures S in Frequent(D, U, T, n)
  {
    EmittedSetsAre(em, n, S);
    hide Support, AllDifferent, EmittedSets;
    var k :| 0 <= k < |em| && |em[k].items| == n && Items(em[k].items) == S;
    ItemsCardinality(em[k].items);
    assert EmissionOk(em[k], D, {}, U, T);
  }

  lemma FrequentIsEmitted(em: seq<Emission>, D: seq<Trans>, U: set<nat>, T: nat, n: nat, X: set<nat>)
    requires Mined(em, D, {}, U, T) && n > 0 && X in Frequent(D, U, T, n)
    ensures X in EmittedSets(em, n)
  {
    hide Support, AllDifferent, EmittedSets;
    assert {} + X == X;
    var k :| 0 <= k < |em| && Items(em[k].items) == X;
    ItemsCardinality(em[k].items);
    EmittedSetsAre(em, n, X);
  }

  /** The counts printed at the end: ITlen[n - 1] is the number of frequent itemsets of n items. */
  lemma CountsAreFrequentSets(em: seq<Emission>, D: seq<Trans>, U: set<nat>, T: nat, n: nat)
    requires Mined(em, D, {}, U, T) && n > 0
    ensures CountLen(em, n) == |Frequent(D, U, T, n)|
  {
    EmittedSetsCount(em, n);
    forall S: set<nat> | S in EmittedSets(em, n) ensures S in Frequent(D, U, T, n) { EmittedIsFrequent(em, D, U, T, n, S); }
    forall X: set<nat> | X in Frequent(D, U, T, n) ensures X in EmittedSets(em, n) { FrequentIsEmitted(em, D, U, T, n, X); }
    hide *;
    assert EmittedSets(em, n) == Frequent(D, U, T, n);
  }

  lemma {:induction false} OnceEach(em: seq<Emission>, e: Emission)
    requires AllDifferent(em)
    ensures multiset(em)[e] <= 1
  {
    if em != [] {
      OnceEach(Init(em), e);
      assert em == Init(em) + [Last(em)];
      forall j | 0 <= j < |em| - 1 ensures Init(em)[j] != Last(em) { assert em[j] == Init(em)[j]; }
    }
  }

  lemma TwiceInBag(em: seq<Emission>, j: nat, k: nat)
    requires j < k < |em| && em[j] == em[k]
    ensures multiset(em)[em[j]] >= 2
  {
    assert em == em[..k] + em[k..];
    assert em[..k][j] == em[j] && em[k..][0] == em[k];
  }

  lemma DifferentAnyway(em: seq<Emission>, em': seq<Emission>)
    requires multiset(em) == multiset(em') && AllDifferent(em)
    ensures AllDifferent(em')
  {
    forall j, k | 0 <= j < k < |em'| ensures Items(em'[j].items) != Items(em'[k].items) {
      if em'[j] == em'[k] {
        TwiceInBag(em', j, k);
        OnceEach(em, em'[j]);
      } else {
        assert em'[j] in multiset(em) && em'[k] in multiset(em);
        var i :| 0 <= i < |em| && em[i] == em'[j];
        var l :| 0 <= l < |em| && em[l] == em'[k];
      }
    }
  }

  /** The order of the report does not matter. */
  lemma MinedAnyway(em: seq<Emission>, em': seq<Emission>, D: seq<Trans>, P: set<nat>, U: set<nat>, T: nat)
    requires multiset(em) == multiset(em') && Mined(em, D, P, U, T)
    ensures Mined(em', D, P, U, T)
  {
    DifferentAnyway(em, em');
    hide EmissionOk, AllDifferent;
    forall k | 0 <= k < |em'| ensures EmissionOk(em'[k], D, P, U, T) {
      assert em'[k] in multiset(em);
      var i :| 0 <= i < |em| && em[i] == em'[k];
    }
    forall X: set<nat> | X <= U && X != {} && Support(D, P + X) >= T ensures Emitted(em', P + X) {
      var i :| 0 <= i < |em| && Items(em[i].items) == P + X;
      assert em[i] in multiset(em');
      var k :| 0 <= k < |em'| && em'[k] == em[i];
    }
  }
}
