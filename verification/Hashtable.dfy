/** The chained hash table of dedup (hashtable.c). Bucket i holds its chain as a sequence, head first. */
module Hashtables {
  import opened Common

  datatype Entry<K, V> = Entry(h: bv32, k: K, v: V)

  const PRIMES: seq<nat> := [
    53, 97, 193, 389, 769, 1543, 3079, 6151, 12289, 24593, 49157, 98317, 196613, 393241, 786433, 1572869,
    3145739, 6291469, 12582917, 25165843, 50331653, 100663319, 201326611, 402653189, 805306457, 1610612741]

  /** ceil(size * 0.65) */
  function LoadLimit(size: nat): (r: nat)
    ensures 65 * size <= 100 * r < 65 * size + 100
  {
    (65 * size + 99) / 100
  }

  /** The next table takes one entry more at least. */
  lemma LimitGrows(i: nat)
    requires i < |PRIMES| - 1
    ensures LoadLimit(PRIMES[i]) < LoadLimit(PRIMES[i + 1])
  {
    assert PRIMES[i] + 2 <= PRIMES[i + 1];
  }

  /** The mixing in hash(): 32-bit arithmetic with wrap-around. */
  function Mix(i0: bv32): bv32
  {
    var i1 := i0 + !(i0 << 9);
    var i2 := i1 ^ ((i1 >> 14) | (i1 << 18));
    var i3 := i2 + (i2 << 4);
    i3 ^ ((i3 >> 10) | (i3 << 22))
  }

  function IndexFor(tablelength: nat, h: bv32): (i: nat)
    requires tablelength > 0
    ensures i < tablelength
  {
    (h as int) % tablelength
  }

  /** How often an entry occurs in the whole table. */
  ghost function Count<K, V>(t: seq<seq<Entry<K, V>>>, e: Entry<K, V>): nat
  {
    if t == [] then 0 else Count(t[..|t| - 1], e) + multiset(t[|t| - 1])[e]
  }

  lemma {:induction false} CountUpdate<K, V>(t: seq<seq<Entry<K, V>>>, i: nat, c: seq<Entry<K, V>>, e: Entry<K, V>)
    requires i < |t|
    ensures Count(t[i := c], e) + multiset(t[i])[e] == Count(t, e) + multiset(c)[e]
  {
    var n := |t| - 1;
    if i == n {
      assert t[i := c][..n] == t[..n];
    } else {
      assert t[i := c][..n] == t[..n][i := c];
      CountUpdate(t[..n], i, c, e);
    }
  }

  lemma {:induction false} CountHas<K, V>(t: seq<seq<Entry<K, V>>>, e: Entry<K, V>)
    ensures Count(t, e) > 0 <==> exists i :: 0 <= i < |t| && e in t[i]
  {
    if t != [] {
      var n := |t| - 1;
      CountHas(t[..n], e);
      if Count(t[..n], e) > 0 {
        var i :| 0 <= i < n && e in t[..n][i];
        assert e in t[i];
      }
    }
  }

  lemma {:induction false} CountEmpty<K, V>(t: seq<seq<Entry<K, V>>>, e: Entry<K, V>)
    requires forall i :: 0 <= i < |t| ==> t[i] == []
    ensures Count(t, e) == 0
  {
    if t != [] { CountEmpty(t[..|t| - 1], e); }
  }

  /** Every entry is in the bucket of its hash value. */
  ghost predicate BucketsOk<K, V>(t: seq<seq<Entry<K, V>>>, hashfn: K -> bv32)
  {
    && |t| > 0
    && (forall i, e :: 0 <= i < |t| && e in t[i] ==> e.h == Mix(hashfn(e.k)) && IndexFor(|t|, e.h) == i)
  }

  /** The table has exactly the pairs p, each as often. */
  ghost predicate HasPairs<K(!new), V(!new)>(t: seq<seq<Entry<K, V>>>, p: multiset<(K, V)>, hashfn: K -> bv32)
  {
    forall e: Entry<K, V> :: Count(t, e) == Often(p, hashfn, e)
  }

  ghost function Often<K, V>(p: multiset<(K, V)>, hashfn: K -> bv32, e: Entry<K, V>): nat
  {
    if e.h == Mix(hashfn(e.k)) then p[(e.k, e.v)] else 0
  }

  /** r is a value for k, if there is one. */
  ghost predicate IsValue<K, V(!new)>(p: multiset<(K, V)>, k: K, r: Option<V>)
  {
    match r
    case None => forall v: V :: (k, v) !in p
    case Some(v) => (k, v) in p
  }

  /** The pairs make up a map: one value for every key. */
  ghost predicate IsMap<K(!new), V(!new)>(p: multiset<(K, V)>, m: map<K, V>)
  {
    forall k, v :: p[(k, v)] == if k in m && m[k] == v then 1 else 0
  }

  lemma EmptyIsMap<K(!new), V(!new)>()
    ensures IsMap<K, V>(multiset{}, map[])
  {
  }

  /** As long as only absent keys are inserted the table is a map. */
  lemma InsertIsUpdate<K(!new), V(!new)>(p: multiset<(K, V)>, m: map<K, V>, k: K, v: V)
    requires IsMap(p, m) && k !in m
    ensures IsMap(p + multiset{(k, v)}, m[k := v])
  {
  }

  /** Then searching is looking up, and removing is deleting. */
  lemma SearchIsLookup<K(!new), V(!new)>(p: multiset<(K, V)>, m: map<K, V>, k: K, r: Option<V>)
    requires IsMap(p, m) && IsValue(p, k, r)
    ensures r == if k in m then Some(m[k]) else None
    ensures r.Some? ==> IsMap(p - multiset{(k, r.value)}, m - {k})
    ensures r.None? ==> m - {k} == m
  {
    if k in m { assert p[(k, m[k])] == 1; }
  }

  lemma EmptyPairs<K(!new), V(!new)>(t: seq<seq<Entry<K, V>>>, hashfn: K -> bv32)
    requires forall i :: 0 <= i < |t| ==> t[i] == []
    ensures HasPairs(t, multiset{}, hashfn)
  {
    forall e: Entry<K, V> ensures Count(t, e) == 0 { CountEmpty(t, e); }
  }

  class Hashtable<K(==, !new), V(!new)> {
    const hashfn: K -> bv32
    const expansion: bool
    var table: array<seq<Entry<K, V>>>
    var entrycount: nat
    var loadlimit: nat
    var primeindex: nat
    ghost var contents: multiset<(K, V)>

    ghost predicate Valid()
      reads this, table
    {
      && BucketsOk(table[..], hashfn) && HasPairs(table[..], contents, hashfn)
      && (expansion ==> entrycount == |contents| && primeindex < |PRIMES| && table.Length == PRIMES[primeindex]
                        && loadlimit == LoadLimit(table.Length)
                        && (entrycount <= loadlimit || primeindex == |PRIMES| - 1))
    }

    /** hashtable_create: the first prime above minsize. */
    constructor (minsize: nat, hashfn: K -> bv32, expansion: bool)
      requires minsize <= 0x4000_0000
      ensures Valid() && fresh(table) && contents == multiset{} && table.Length > minsize
      ensures exists p :: 0 <= p < |PRIMES| && PRIMES[p] == table.Length && forall i :: 0 <= i < p ==> PRIMES[i] <= minsize
      ensures this.hashfn == hashfn && this.expansion == expansion
    {
      this.hashfn, this.expansion, contents := hashfn, expansion, multiset{};
      var pindex := 0;
      while pindex < |PRIMES| && PRIMES[pindex] <= minsize
        invariant 0 <= pindex <= |PRIMES|
        invariant forall i :: 0 <= i < pindex ==> PRIMES[i] <= minsize
      {
        pindex := pindex + 1;
      }
      assert PRIMES[|PRIMES| - 1] > minsize;
      table := new seq<Entry<K, V>>[PRIMES[pindex]](_ => []);
      entrycount, loadlimit, primeindex := 0, LoadLimit(PRIMES[pindex]), pindex;
      new;
      EmptyPairs(table[..], hashfn);
    }

    /** hashtable_getlock: the lock has the index of the bucket. */
    function GetLock(k: K): (i: nat)
      reads this
      requires table.Length > 0
      ensures i < table.Length
    {
      IndexFor(table.Length, Mix(hashfn(k)))
    }

    /** Whatever entry a key has, it lies in the bucket that getlock locks. */
    lemma LockGuardsKey(i: nat, e: Entry<K, V>)
      requires Valid() && i < table.Length && e in table[i]
      ensures i == GetLock(e.k)
    {
      assert e in table[..][i];
    }

    /** hashtable_search */
    method Search(k: K) returns (r: Option<V>)
      requires Valid()
      ensures IsValue(contents, k, r)
    {
      var hashvalue := Mix(hashfn(k));
      var index := IndexFor(table.Length, hashvalue);
      ghost var t: seq<seq<Entry<K, V>>> := table[..];
      assert t[index] == table[index];
      var e := table[index];
      while e != []
        invariant forall x: Entry<K, V> :: x in e ==> x in t[index]
        invariant forall x: Entry<K, V> :: x in t[index] && x.k == k ==> x in e
        decreases |e|
      {
        CountHas(t, e[0]);
        if hashvalue == e[0].h && k == e[0].k {
          assert Count(t, e[0]) == Often(contents, hashfn, e[0]);
          return Some(e[0].v);
        }
        assert e == [e[0]] + e[1..];
        e := e[1..];
      }
      NotInBucket(t, contents, hashfn, k);
      return None;
    }

    /** hashtable_insert. Only the bucket of the key is touched, unless the table grows. */
    method Insert(k: K, v: V)
      requires Valid()
      modifies this, table
      ensures Valid() && contents == old(contents) + multiset{(k, v)}
      ensures table == old(table) || fresh(table)
      ensures expansion && old(entrycount) < old(loadlimit) ==> table == old(table)
      ensures !expansion ==> table == old(table) && forall i :: 0 <= i < table.Length && i != GetLock(k) ==> table[i] == old(table[i])
    {
      hide HasPairs, Mix, LoadLimit;
      if expansion {
        entrycount := entrycount + 1;
        if entrycount > loadlimit { Expand(); }
      }
      var h := Mix(hashfn(k));
      var index := IndexFor(table.Length, h);
      var e := Entry(h, k, v);
      ghost var t: seq<seq<Entry<K, V>>> := table[..];
      Prepended(t, contents, hashfn, index, e);
      table[index] := [e] + table[index];
      assert table[..] == t[index := [e] + t[index]];
      contents := contents + multiset{(k, v)};
    }

    /** hashtable_expand, first branch: all entries move over, whatever their order. */
    method Expand()
      requires BucketsOk(table[..], hashfn) && HasPairs(table[..], contents, hashfn) && expansion
      requires primeindex < |PRIMES| && table.Length == PRIMES[primeindex] && loadlimit == LoadLimit(table.Length)
      modifies this`table, this`loadlimit, this`primeindex, table
      ensures BucketsOk(table[..], hashfn) && HasPairs(table[..], contents, hashfn)
      ensures primeindex < |PRIMES| && table.Length == PRIMES[primeindex] && loadlimit == LoadLimit(table.Length)
      ensures table == old(table) || fresh(table)
      ensures if old(primeindex) == |PRIMES| - 1 then primeindex == |PRIMES| - 1 else primeindex == old(primeindex) + 1 && loadlimit > old(loadlimit)
    {
      if primeindex == |PRIMES| - 1 { return; }
      primeindex := primeindex + 1;
      var newsize := PRIMES[primeindex];
      hide LoadLimit, BucketsOk, HasPairs;
      table := MoveAll(newsize);
      LimitGrows(primeindex - 1);
      loadlimit := LoadLimit(newsize);
    }

    /** The new table, and the loop over the old buckets. */
    method MoveAll(newsize: nat) returns (newtable: array<seq<Entry<K, V>>>)
      requires newsize > 0 && BucketsOk(table[..], hashfn) && HasPairs(table[..], contents, hashfn)
      modifies table
      ensures fresh(newtable) && newtable.Length == newsize
      ensures BucketsOk(newtable[..], hashfn) && HasPairs(newtable[..], contents, hashfn)
    {
      newtable := new seq<Entry<K, V>>[newsize](_ => []);
      NothingMoved(table[..], newtable[..], contents, hashfn);
      hide Moving, BucketsOk, HasPairs;
      var i := 0;
      while i < table.Length
        invariant 0 <= i <= table.Length && newtable != table && Moving(table[..], newtable[..], contents, hashfn)
        invariant forall j :: 0 <= j < i ==> table[j] == []
      {
        MoveBucket(newtable, i);
        i := i + 1;
      }
      AllMoved(table[..], newtable[..], contents, hashfn);
    }

    /** `while (NULL != (e = h->table[i]))`: unlink the head, link it into its new bucket. */
    method MoveBucket(newtable: array<seq<Entry<K, V>>>, i: nat)
      requires i < table.Length && newtable != table && newtable.Length > 0 && Moving(table[..], newtable[..], contents, hashfn)
      modifies table, newtable
      ensures Moving(table[..], newtable[..], contents, hashfn) && table[i] == []
      ensures forall j :: 0 <= j < table.Length && j != i ==> table[j] == old(table[j])
    {
      hide Moving;
      while table[i] != []
        invariant Moving(table[..], newtable[..], contents, hashfn)
        invariant forall j :: 0 <= j < table.Length && j != i ==> table[j] == old(table[j])
        decreases |table[i]|
      {
        var e := table[i][0];
        MoveOne(table[..], newtable[..], contents, hashfn, i);
        ghost var t, u := table[..], newtable[..];
        table[i] := table[i][1..];
        var index := IndexFor(newtable.Length, e.h);
        newtable[index] := [e] + newtable[index];
        assert table[..] == t[i := t[i][1..]] && newtable[..] == u[index := [e] + u[index]];
      }
    }

    /** hashtable_remove */
    method Remove(k: K) returns (r: Option<V>)
      requires Valid()
      modifies this`contents, this`entrycount, table
      ensures Valid() && IsValue(old(contents), k, r)
      ensures contents == if r.Some? then old(contents) - multiset{(k, r.value)} else old(contents)
      ensures forall i :: 0 <= i < table.Length && i != GetLock(k) ==> table[i] == old(table[i])
    {
      var hashvalue := Mix(hashfn(k));
      var index := IndexFor(table.Length, hashvalue);
      ghost var t: seq<seq<Entry<K, V>>> := table[..];
      var j := 0;
      while j < |table[index]| && !(hashvalue == table[index][j].h && k == table[index][j].k)
        invariant 0 <= j <= |table[index]|
        invariant table[..] == t && contents == old(contents) && entrycount == old(entrycount)
        invariant forall x :: 0 <= x < j ==> t[index][x].k != k
      {
        assert table[index][j] in t[index];
        j := j + 1;
      }
      if j < |table[index]| {
        r := Some(table[index][j].v);
        Unlink(index, j);
      } else {
        NotInBucket(t, contents, hashfn, k);
        r := None;
      }
    }

    /** `*pE = e->next` */
    method Unlink(index: nat, j: nat)
      requires Valid() && index < table.Length && j < |table[index]|
      modifies this`contents, this`entrycount, table
      ensures old((table[index][j].k, table[index][j].v) in contents)
      ensures Valid() && contents == old(contents - multiset{(table[index][j].k, table[index][j].v)})
      ensures forall i :: 0 <= i < table.Length && i != index ==> table[i] == old(table[i])
    {
      ghost var t: seq<seq<Entry<K, V>>> := table[..];
      ghost var e := table[index][j];
      Unlinked(t, contents, hashfn, index, j);
      table[index] := table[index][..j] + table[index][j + 1..];
      assert table[..] == t[index := t[index][..j] + t[index][j + 1..]];
      contents := contents - multiset{(e.k, e.v)};
      if expansion { entrycount := entrycount - 1; }
    }
  }

  lemma CountPrepend<K, V>(t: seq<seq<Entry<K, V>>>, i: nat, e: Entry<K, V>, x: Entry<K, V>)
    requires i < |t|
    ensures Count(t[i := [e] + t[i]], x) == Count(t, x) + if x == e then 1 else 0
  {
    CountUpdate(t, i, [e] + t[i], x);
    assert multiset([e] + t[i]) == multiset{e} + multiset(t[i]);
  }

  lemma CountCut<K, V>(t: seq<seq<Entry<K, V>>>, i: nat, j: nat, x: Entry<K, V>)
    requires i < |t| && j < |t[i]|
    ensures Count(t[i := t[i][..j] + t[i][j + 1..]], x) + (if x == t[i][j] then 1 else 0) == Count(t, x)
  {
    var c := t[i][..j] + t[i][j + 1..];
    CountUpdate(t, i, c, x);
    assert t[i] == t[i][..j] + [t[i][j]] + t[i][j + 1..];
    assert multiset(t[i]) == multiset(c) + multiset{t[i][j]};
  }

  /** Linking a new entry in front of its bucket's chain. */
  lemma Prepended<K(!new), V(!new)>(t: seq<seq<Entry<K, V>>>, p: multiset<(K, V)>, hashfn: K -> bv32, i: nat, e: Entry<K, V>)
    requires BucketsOk(t, hashfn) && HasPairs(t, p, hashfn) && e.h == Mix(hashfn(e.k)) && i == IndexFor(|t|, e.h)
    ensures BucketsOk(t[i := [e] + t[i]], hashfn)
    ensures HasPairs(t[i := [e] + t[i]], p + multiset{(e.k, e.v)}, hashfn)
  {
    hide Mix, Count;
    var t' := t[i := [e] + t[i]];
    forall x: Entry<K, V> ensures Count(t', x) == Often(p + multiset{(e.k, e.v)}, hashfn, x) {
      CountPrepend(t, i, e, x);
      assert Count(t, x) == Often(p, hashfn, x);
    }
  }

  /** Unlinking the entry at position j of a chain. */
  lemma Unlinked<K(!new), V(!new)>(t: seq<seq<Entry<K, V>>>, p: multiset<(K, V)>, hashfn: K -> bv32, i: nat, j: nat)
    requires BucketsOk(t, hashfn) && HasPairs(t, p, hashfn) && i < |t| && j < |t[i]|
    ensures (t[i][j].k, t[i][j].v) in p
    ensures BucketsOk(t[i := t[i][..j] + t[i][j + 1..]], hashfn)
    ensures HasPairs(t[i := t[i][..j] + t[i][j + 1..]], p - multiset{(t[i][j].k, t[i][j].v)}, hashfn)
  {
    hide Mix, Count;
    var e, c := t[i][j], t[i][..j] + t[i][j + 1..];
    assert e in t[i];
    CountHas(t, e);
    assert Count(t, e) == Often(p, hashfn, e);
    forall x: Entry<K, V> ensures Count(t[i := c], x) == Often(p - multiset{(e.k, e.v)}, hashfn, x) {
      CountCut(t, i, j, x);
      assert Count(t, x) == Often(p, hashfn, x);
    }
    forall x | x in c ensures x in t[i] {}
  }

  /** In the middle of an expansion: what has not moved and what has make up the pairs. */
  ghost predicate Moving<K(!new), V(!new)>(t: seq<seq<Entry<K, V>>>, u: seq<seq<Entry<K, V>>>, p: multiset<(K, V)>, hashfn: K -> bv32)
  {
    && (forall e: Entry<K, V> :: Count(t, e) + Count(u, e) == Often(p, hashfn, e)) && BucketsOk(u, hashfn)
    && (forall i, e :: 0 <= i < |t| && e in t[i] ==> e.h == Mix(hashfn(e.k)))
  }

  lemma NothingMoved<K(!new), V(!new)>(t: seq<seq<Entry<K, V>>>, u: seq<seq<Entry<K, V>>>, p: multiset<(K, V)>, hashfn: K -> bv32)
    requires BucketsOk(t, hashfn) && HasPairs(t, p, hashfn) && |u| > 0 && forall i :: 0 <= i < |u| ==> u[i] == []
    ensures Moving(t, u, p, hashfn)
  {
    hide Mix, Count;
    forall e: Entry<K, V> ensures Count(u, e) == 0 { CountEmpty(u, e); }
  }

  lemma AllMoved<K(!new), V(!new)>(t: seq<seq<Entry<K, V>>>, u: seq<seq<Entry<K, V>>>, p: multiset<(K, V)>, hashfn: K -> bv32)
    requires Moving(t, u, p, hashfn) && forall i :: 0 <= i < |t| ==> t[i] == []
    ensures BucketsOk(u, hashfn) && HasPairs(u, p, hashfn)
  {
    hide Mix, Count;
    forall e: Entry<K, V> ensures Count(t, e) == 0 { CountEmpty(t, e); }
  }

  lemma MoveOne<K(!new), V(!new)>(t: seq<seq<Entry<K, V>>>, u: seq<seq<Entry<K, V>>>, p: multiset<(K, V)>, hashfn: K -> bv32, i: nat)
    requires Moving(t, u, p, hashfn) && i < |t| && t[i] != []
    ensures var e := t[i][0]; var x := IndexFor(|u|, e.h);
      Moving(t[i := t[i][1..]], u[x := [e] + u[x]], p, hashfn)
  {
    hide Mix, Count;
    var e := t[i][0];
    var x := IndexFor(|u|, e.h);
    assert e in t[i];
    assert t[i][..0] + t[i][1..] == t[i][1..];
    forall y: Entry<K, V> ensures Count(t[i := t[i][1..]], y) + Count(u[x := [e] + u[x]], y) == Often(p, hashfn, y) {
      CountCut(t, i, 0, y);
      CountPrepend(u, x, e, y);
      assert Count(t, y) + Count(u, y) == Often(p, hashfn, y);
    }
    forall d | d in t[i][1..] ensures d in t[i] {}
  }

  /** A key that its bucket does not have is not in the table. */
  lemma NotInBucket<K(!new), V(!new)>(t: seq<seq<Entry<K, V>>>, p: multiset<(K, V)>, hashfn: K -> bv32, k: K)
    requires BucketsOk(t, hashfn) && HasPairs(t, p, hashfn)
    requires forall e :: e in t[IndexFor(|t|, Mix(hashfn(k)))] ==> e.k != k
    ensures forall v: V :: (k, v) !in p
  {
    forall v: V ensures (k, v) !in p {
      var e := Entry(Mix(hashfn(k)), k, v);
      CountHas(t, e);
      assert Count(t, e) == Often(p, hashfn, e);
    }
  }
}
