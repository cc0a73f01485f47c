/** The single-path shortcut: all subsets of the path's items are frequent. FP_tree::powerset lists them, and the
  * loop over `temp = (temp * i2) / i1` counts them by size.
  */
module Powerset {
  import opened Transactions
  import opened Mining

  function Choose(n: nat, k: nat): nat
  {
    if k == 0 then 1 else if n == 0 then 0 else Choose(n - 1, k - 1) + Choose(n - 1, k)
  }

  lemma {:induction false} ChooseTooMany(n: nat, k: nat)
    requires k > n
    ensures Choose(n, k) == 0
  {
    if n > 0 {
      ChooseTooMany(n - 1, k - 1);
      ChooseTooMany(n - 1, k);
    }
  }

  /** One step of the loop divides exactly. */
  lemma {:induction false} ChooseStep(n: nat, k: nat)
    requires 1 <= k <= n
    ensures k * Choose(n, k) == (n - k + 1) * Choose(n, k - 1)
    decreases n
  {
    if k == 1 {
      if n > 1 { ChooseStep(n - 1, 1); } else { ChooseTooMany(0, 1); }
    } else {
      if k == n { ChooseTooMany(n - 1, n); } else { ChooseStep(n - 1, k); }
      ChooseStep(n - 1, k - 1);
      Pascal(n, k, Choose(n - 1, k - 1), Choose(n - 1, k), Choose(n - 1, k - 2));
    }
  }

  lemma Pascal(n: nat, k: nat, a: nat, b: nat, c: nat)
    requires 2 <= k <= n && k * b == (n - k) * a && (k - 1) * a == (n - k + 1) * c
    ensures k * (a + b) == (n - k + 1) * (c + a)
  {
  }

  /** What powerset prints below a call: `prefix` has been chosen from the items before `current`, and `support`
    * belongs to its last item. */
  function Subsets(list: seq<nat>, prefix: seq<nat>, support: nat, table: seq<nat>, count: seq<nat>, current: nat): seq<Emission>
    requires current <= |table| == |count|
    decreases |table| - current
  {
    if current == |table| then
      if prefix == [] then [] else [Emission(list + prefix, support)]
    else
      Subsets(list, prefix, support, table, count, current + 1)
      + Subsets(list, prefix + [table[current]], count[current], table, count, current + 1)
  }

  /** On a single path the support of a set is the count of its deepest item. */
  ghost predicate PathSupports(D: seq<Trans>, P: set<nat>, table: seq<nat>, count: seq<nat>)
  {
    && |count| == |table|
    && (forall X: set<nat>, i :: 0 <= i < |table| && table[i] in X && X <= Names(table, i + 1) ==> Support(D, P + X) == count[i])
  }

  /** The call with prefix set Q and remaining items R lists P + Q + X for every subset X of R, once each. */
  ghost predicate SubsetsMined(em: seq<Emission>, D: seq<Trans>, P: set<nat>, Q: set<nat>, R: set<nat>, T: nat)
  {
    && (forall k :: 0 <= k < |em| ==> EmissionOk(em[k], D, P, Q + R, T) && Q <= Items(em[k].items))
    && AllDifferent(em)
    && (forall X: set<nat> :: X <= R && Q + X != {} ==> Emitted(em, P + Q + X))
  }

  lemma SplitSubsets(a: seq<Emission>, b: seq<Emission>, D: seq<Trans>, P: set<nat>, Q: set<nat>, R: set<nat>, T: nat, c: nat)
    requires SubsetsMined(a, D, P, Q, R, T) && SubsetsMined(b, D, P, Q + {c}, R, T)
    requires c !in R && c !in P && c !in Q
    ensures SubsetsMined(a + b, D, P, Q, R + {c}, T)
  {
    var em := a + b;
    forall k | 0 <= k < |em|
      ensures EmissionOk(em[k], D, P, Q + (R + {c}), T) && Q <= Items(em[k].items)
      ensures c in Items(em[k].items) <==> k >= |a|
    {
      if k < |a| {
        assert em[k] == a[k];
      } else {
        assert em[k] == b[k - |a|];
        assert Q + (R + {c}) == (Q + {c}) + R;
      }
    }
    assert AllDifferent(em) by { hide EmissionOk; SplitDifferent(a, b, c); }
    forall X: set<nat> | X <= R + {c} && Q + X != {} ensures Emitted(em, P + Q + X) {
      SplitComplete(a, b, D, P, Q, R, T, c, X);
    }
  }

  lemma SplitComplete(a: seq<Emission>, b: seq<Emission>, D: seq<Trans>, P: set<nat>, Q: set<nat>, R: set<nat>, T: nat, c: nat,
                      X: set<nat>)
    requires SubsetsMined(a, D, P, Q, R, T) && SubsetsMined(b, D, P, Q + {c}, R, T)
    requires X <= R + {c} && Q + X != {}
    ensures Emitted(a + b, P + Q + X)
  {
    hide EmissionOk, AllDifferent;
    var em := a + b;
    if c in X {
      var X' := X - {c};
      assert P + Q + X == P + (Q + {c}) + X';
      assert Emitted(b, P + (Q + {c}) + X');
      var k :| 0 <= k < |b| && Items(b[k].items) == P + Q + X;
      assert em[|a| + k] == b[k];
    } else {
      var k :| 0 <= k < |a| && Items(a[k].items) == P + Q + X;
      assert em[k] == a[k];
    }
  }

  lemma SplitDifferent(a: seq<Emission>, b: seq<Emission>, c: nat)
    requires AllDifferent(a) && AllDifferent(b)
    requires forall k :: 0 <= k < |a + b| ==> (c in Items((a + b)[k].items) <==> k >= |a|)
    ensures AllDifferent(a + b)
  {
    var em := a + b;
    forall j, k | 0 <= j < k < |em| ensures Items(em[j].items) != Items(em[k].items) {
      if k < |a| { assert em[j] == a[j] && em[k] == a[k]; }
      else if j >= |a| { assert em[j] == b[j - |a|] && em[k] == b[k - |a|]; }
      else { assert c in Items(em[k].items) && c !in Items(em[j].items); }
    }
  }

  /** `list` and the items chosen so far. */
  ghost predicate Chosen(list: seq<nat>, prefix: seq<nat>, support: nat, D: seq<Trans>, P: set<nat>, T: nat,
                         table: seq<nat>, count: seq<nat>, current: nat)
  {
    && current <= |table| == |count| && NoRepeats(table) && NoRepeats(list + prefix) && Items(list) == P && P !! Items(table)
    && Items(prefix) <= Names(table, current)
    && PathSupports(D, P, table, count) && (forall i :: 0 <= i < |count| ==> count[i] >= T)
    && (prefix != [] ==> support == Support(D, P + Items(prefix)) >= T)
  }

  lemma ChooseNext(list: seq<nat>, prefix: seq<nat>, support: nat, D: seq<Trans>, P: set<nat>, T: nat,
                   table: seq<nat>, count: seq<nat>, current: nat)
    requires Chosen(list, prefix, support, D, P, T, table, count, current) && current < |table|
    ensures Chosen(list, prefix, support, D, P, T, table, count, current + 1)
    ensures Chosen(list, prefix + [table[current]], count[current], D, P, T, table, count, current + 1)
    ensures Items(prefix + [table[current]]) == Items(prefix) + {table[current]}
    ensures table[current] !in P && table[current] !in Items(prefix)
  {
    var c := table[current];
    NamesStep(table, current);
    var prefix' := prefix + [c];
    assert Items(prefix') == Items(prefix) + {c};
    assert list + prefix' == list + prefix + [c];
    forall i | 0 <= i < |list + prefix| ensures (list + prefix)[i] != c {
      if i < |list| { assert list[i] in Items(list); } else { assert prefix[i - |list|] in Items(prefix); }
    }
  }

  lemma {:induction false} SubsetsExact(list: seq<nat>, prefix: seq<nat>, support: nat, D: seq<Trans>, P: set<nat>, T: nat,
                                        table: seq<nat>, count: seq<nat>, current: nat)
    requires Chosen(list, prefix, support, D, P, T, table, count, current)
    ensures SubsetsMined(Subsets(list, prefix, support, table, count, current), D, P, Items(prefix), Items(table[current..]), T)
    decreases |table| - current
  {
    if current == |table| {
      LastSubset(list, prefix, support, D, P, T, table, count);
    } else {
      var c := table[current];
      ChooseNext(list, prefix, support, D, P, T, table, count, current);
      SubsetsExact(list, prefix, support, D, P, T, table, count, current + 1);
      SubsetsExact(list, prefix + [c], count[current], D, P, T, table, count, current + 1);
      RestStep(table, current);
      assert NoRepeats(table);
      hide SubsetsMined, Chosen, PathSupports, Names;
      SplitSubsets(Subsets(list, prefix, support, table, count, current + 1),
                   Subsets(list, prefix + [c], count[current], table, count, current + 1),
                   D, P, Items(prefix), Items(table[current + 1..]), T, c);
    }
  }

  lemma LastSubset(list: seq<nat>, prefix: seq<nat>, support: nat, D: seq<Trans>, P: set<nat>, T: nat,
                   table: seq<nat>, count: seq<nat>)
    requires Chosen(list, prefix, support, D, P, T, table, count, |table|)
    ensures SubsetsMined(Subsets(list, prefix, support, table, count, |table|), D, P, Items(prefix), Items(table[|table|..]), T)
  {
    var em := Subsets(list, prefix, support, table, count, |table|);
    assert Items(list + prefix) == P + Items(prefix);
    assert Items(table[|table|..]) == {};
    if prefix != [] {
      assert prefix[0] in Items(prefix);
      NamesAreItems(table, |table|, prefix[0]);
      assert em[0].items == list + prefix;
      assert Items(em[0].items) == P + Items(prefix) + {};
    } else {
      assert Items(prefix) == {};
    }
  }

  lemma NamesAreItems(table: seq<nat>, n: nat, x: nat)
    requires n <= |table| && x in Names(table, n)
    ensures x in Items(table)
  {
  }

  lemma RestStep(table: seq<nat>, current: nat)
    requires current < |table| && NoRepeats(table)
    ensures Items(table[current..]) == Items(table[current + 1..]) + {table[current]}
    ensures table[current] !in Items(table[current + 1..])
  {
    assert table[current..] == [table[current]] + table[current + 1..];
  }

  /** powerset, called on the whole path, mines its level exactly. */
  lemma SinglePathMined(list: seq<nat>, D: seq<Trans>, P: set<nat>, U: set<nat>, T: nat, table: seq<nat>, count: seq<nat>)
    requires LevelOk(D, P, U, T, table, count) && PathSupports(D, P, table, count)
    requires NoRepeats(list) && Items(list) == P
    ensures Mined(Subsets(list, [], 0, table, count, 0), D, P, U, T)
  {
    assert list + [] == list;
    assert Items([]) == {} && Names(table, 0) == {};
    var em := Subsets(list, [], 0, table, count, 0);
    assert table[0..] == table;
    SubsetsExact(list, [], 0, D, P, T, table, count, 0);
    hide *;
    PathMined(em, D, P, U, T, table, count);
  }

  lemma PathMined(em: seq<Emission>, D: seq<Trans>, P: set<nat>, U: set<nat>, T: nat, table: seq<nat>, count: seq<nat>)
    requires LevelOk(D, P, U, T, table, count) && SubsetsMined(em, D, P, {}, Items(table), T)
    ensures Mined(em, D, P, U, T)
  {
    assert {} + Items(table) == Items(table);
    forall k | 0 <= k < |em| ensures EmissionOk(em[k], D, P, U, T) { assert EmissionOk(em[k], D, P, {} + Items(table), T); }
    hide EmissionOk;
    forall X: set<nat> | X <= U && X != {} && Support(D, P + X) >= T ensures Emitted(em, P + X) {
      AllInTable(D, P, U, T, table, count, X);
      assert P + {} + X == P + X && {} + X == X;
    }
  }

  lemma AllInTable(D: seq<Trans>, P: set<nat>, U: set<nat>, T: nat, table: seq<nat>, count: seq<nat>, X: set<nat>)
    requires LevelOk(D, P, U, T, table, count) && X <= U && Support(D, P + X) >= T
    ensures X <= Items(table)
  {
    forall x | x in X ensures x in table { SupportAntitone(D, P + {x}, P + X); }
  }

  /** ... and ITlen gets the binomial coefficients. */
  lemma {:induction false} SubsetsBySize(list: seq<nat>, prefix: seq<nat>, support: nat, table: seq<nat>, count: seq<nat>,
                                         current: nat, i: nat)
    requires current <= |table| == |count|
    ensures CountLen(Subsets(list, prefix, support, table, count, current), |list| + |prefix| + i)
         == Choose(|table| - current, i) - if i == 0 && prefix == [] then 1 else 0
    decreases |table| - current
  {
    if current == |table| {
      if prefix != [] {
        var e := Emission(list + prefix, support);
        assert Init([e]) == [];
      }
    } else {
      var c := table[current];
      var b := Subsets(list, prefix + [c], count[current], table, count, current + 1);
      SubsetsBySize(list, prefix, support, table, count, current + 1, i);
      if i == 0 {
        SubsetsLonger(list, prefix + [c], count[current], table, count, current + 1);
        CountNone(b, |list| + |prefix|);
      } else {
        SubsetsBySize(list, prefix + [c], count[current], table, count, current + 1, i - 1);
      }
      CountLenConcat(Subsets(list, prefix, support, table, count, current + 1), b, |list| + |prefix| + i);
    }
  }

  ghost predicate AtLeast(em: seq<Emission>, len: nat) { forall k :: 0 <= k < |em| ==> |em[k].items| >= len }

  lemma {:induction false} SubsetsLonger(list: seq<nat>, prefix: seq<nat>, support: nat, table: seq<nat>, count: seq<nat>, current: nat)
    requires current <= |table| == |count|
    ensures AtLeast(Subsets(list, prefix, support, table, count, current), |list| + |prefix|)
    decreases |table| - current
  {
    if current < |table| {
      SubsetsLonger(list, prefix, support, table, count, current + 1);
      SubsetsLonger(list, prefix + [table[current]], count[current], table, count, current + 1);
    }
  }

  lemma {:induction false} CountNone(em: seq<Emission>, len: nat)
    requires AtLeast(em, len + 1)
    ensures CountLen(em, len) == 0
  {
    if em != [] { CountNone(Init(em), len); }
  }
}
