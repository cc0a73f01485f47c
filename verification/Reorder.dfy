/** The reorder stage of dedup: chunks carry two-level sequence numbers, arrive in any order, and are written in
  * lexicographic order. Chunks that are not next wait in a search tree of priority queues, one queue per level-1 number.
  */
module Reorder {
  import opened Sums

  /** A chunk as far as this stage looks at it; `payload` stands for the rest of it. */
  datatype Chunk = Chunk(l1num: nat, l2num: nat, isLastL2Chunk: bool, payload: nat)

  /** How the flush loop at the end came out. */
  datatype Flushed = Done | L1Mismatch | L2Mismatch

  /** `cs[a]` is the number of chunks that coarse chunk a was refined into. */
  ghost predicate Counts(cs: seq<int>) { forall a :: 0 <= a < |cs| ==> cs[a] >= 1 }

  ghost predicate Numbered(cs: seq<int>, c: Chunk)
  {
    c.l1num < |cs| && c.l2num < cs[c.l1num] && (c.isLastL2Chunk <==> c.l2num + 1 == cs[c.l1num])
  }

  /** The place of a sequence number in the whole stream. */
  ghost function Place(cs: seq<int>, l1: nat, l2: nat): int
  {
    Sum(if l1 <= |cs| then cs[..l1] else cs) + l2
  }

  ghost function PlaceOf(cs: seq<int>, c: Chunk): int
  {
    Place(cs, c.l1num, c.l2num)
  }

  lemma {:induction false} PlaceGrows(cs: seq<int>, a: nat, b: nat)
    requires Counts(cs) && a < b <= |cs|
    ensures Sum(cs[..a]) + cs[a] <= Sum(cs[..b])
  {
    assert cs[..b] == cs[..b - 1] + [cs[b - 1]];
    SumAppend(cs[..b - 1], cs[b - 1]);
    if a < b - 1 { PlaceGrows(cs, a, b - 1); }
  }

  predicate SequenceEq(c: Chunk, l1: nat, l2: nat) { c.l1num == l1 && c.l2num == l2 }

  predicate SequenceLt(c: Chunk, d: Chunk)
  {
    if c.l1num < d.l1num then true else c.l1num == d.l1num && c.l2num < d.l2num
  }

  /** The lexicographic order of sequence numbers is the order of places. */
  lemma SequenceOrder(cs: seq<int>, c: Chunk, d: Chunk)
    requires Counts(cs) && Numbered(cs, c) && Numbered(cs, d)
    ensures SequenceLt(c, d) <==> PlaceOf(cs, c) < PlaceOf(cs, d)
    ensures PlaceOf(cs, c) == PlaceOf(cs, d) <==> SequenceEq(c, d.l1num, d.l2num)
  {
    if c.l1num < d.l1num { PlaceGrows(cs, c.l1num, d.l1num); }
    if d.l1num < c.l1num { PlaceGrows(cs, d.l1num, c.l1num); }
  }

  /** (l1, l2) is the sequence number at place n, or the one after the last. */
  ghost predicate At(cs: seq<int>, l1: nat, l2: nat, n: nat)
  {
    && l1 <= |cs| && Place(cs, l1, l2) == n
    && (if l1 == |cs| then l2 == 0 else l2 < cs[l1])
  }

  lemma AtNext(cs: seq<int>, l1: nat, l2: nat, n: nat)
    requires Counts(cs) && At(cs, l1, l2, n) && l1 < |cs|
    ensures l2 + 1 < cs[l1] ==> At(cs, l1, l2 + 1, n + 1)
    ensures l2 + 1 == cs[l1] ==> At(cs, l1 + 1, 0, n + 1)
  {
    assert cs[..l1 + 1] == cs[..l1] + [cs[l1]];
    SumAppend(cs[..l1], cs[l1]);
  }

  lemma AtIs(cs: seq<int>, l1: nat, l2: nat, n: nat, c: Chunk)
    requires Counts(cs) && At(cs, l1, l2, n) && Numbered(cs, c)
    ensures SequenceEq(c, l1, l2) <==> PlaceOf(cs, c) == n
    ensures c.l1num < l1 ==> PlaceOf(cs, c) < n
    ensures c.l1num == l1 ==> (c.l2num < l2 <==> PlaceOf(cs, c) < n)
    ensures c.l1num > l1 ==> PlaceOf(cs, c) > n
  {
    if c.l1num < l1 { PlaceGrows(cs, c.l1num, l1); }
    if l1 < c.l1num { PlaceGrows(cs, l1, c.l1num); }
  }

  /** A priority queue, kept in ascending order of level-2 numbers. */
  function Insert(q: seq<Chunk>, c: Chunk): seq<Chunk>
  {
    if q == [] || c.l2num < q[0].l2num then [c] + q else [q[0]] + Insert(q[1..], c)
  }

  ghost predicate Queue(q: seq<Chunk>, l1: nat)
  {
    && (forall i :: 0 <= i < |q| ==> q[i].l1num == l1)
    && (forall i, j :: 0 <= i < j < |q| ==> q[i].l2num < q[j].l2num)
  }

  lemma {:induction false} InsertKeepsQueue(q: seq<Chunk>, c: Chunk, l1: nat)
    requires Queue(q, l1) && c.l1num == l1 && forall i :: 0 <= i < |q| ==> q[i].l2num != c.l2num
    ensures Queue(Insert(q, c), l1) && Insert(q, c) != []
    ensures forall d :: d in Insert(q, c) <==> d == c || d in q
  {
    if !(q == [] || c.l2num < q[0].l2num) {
      InsertKeepsQueue(q[1..], c, l1);
      assert q == [q[0]] + q[1..];
      forall i | 0 <= i < |Insert(q[1..], c)| ensures q[0].l2num < Insert(q[1..], c)[i].l2num {
        assert Insert(q[1..], c)[i] in Insert(q[1..], c);
      }
    }
  }

  /** The search tree, by level-1 number. */
  type Tree = map<nat, seq<Chunk>>

  lemma LeastKey(keys: set<nat>)
    requires keys != {}
    ensures exists m :: m in keys && forall j :: j in keys ==> m <= j
  {
    var k :| k in keys;
    LeastBelow(keys, k);
  }

  lemma {:induction false} LeastBelow(keys: set<nat>, k: nat)
    requires k in keys
    ensures exists m :: m in keys && forall j :: j in keys ==> m <= j
    decreases k
  {
    if j :| j in keys && j < k {
      LeastBelow(keys, j);
    } else {
      assert forall j :: j in keys ==> k <= j;
    }
  }

  function TreeFindMin(T: Tree): (k: nat)
    requires T != map[]
    ensures k in T && forall j :: j in T ==> k <= j
  {
    assert T.Keys != {};
    LeastKey(T.Keys);
    var k :| k in T.Keys && forall j :: j in T.Keys ==> k <= j;
    k
  }

  /** The cache: no empty queues, and in it exactly the chunks received but not written yet. */
  ghost predicate CacheOk(T: Tree, cs: seq<int>, received: set<Chunk>, n: nat)
  {
    && (forall k :: k in T ==> T[k] != [] && Queue(T[k], k))
    && (forall k, c :: k in T && c in T[k] ==> c in received && PlaceOf(cs, c) >= n)
    && (forall c :: c in received && PlaceOf(cs, c) >= n ==> c.l1num in T && c in T[c.l1num])
  }

  /** No two chunks share a sequence number. */
  ghost predicate Distinct(received: set<Chunk>)
  {
    forall c, d :: c in received && d in received && SequenceEq(c, d.l1num, d.l2num) ==> c == d
  }

  /** The first n places have been written, in order. */
  ghost predicate WrittenOk(written: seq<Chunk>, cs: seq<int>, received: set<Chunk>)
  {
    forall i :: 0 <= i < |written| ==> written[i] in received && PlaceOf(cs, written[i]) == i
  }

  /** chunks_per_anchor knows the number of chunks of every anchor whose last chunk has arrived. */
  ghost predicate AnchorsOk(per: seq<nat>, cs: seq<int>, received: set<Chunk>)
  {
    && (forall c :: c in received ==> c.l1num < |per|)
    && (forall a :: 0 <= a < |per| ==> per[a] == 0 || (a < |cs| && per[a] == cs[a]))
    && (forall c :: c in received && c.isLastL2Chunk ==> c.l1num < |cs| && per[c.l1num] == cs[c.l1num])
    && (forall a :: 0 <= a < |per| && per[a] != 0 ==> exists c :: c in received && c.l1num == a && c.isLastL2Chunk)
  }

  class ReorderStage {
    ghost const cs: seq<int>
    var T: Tree
    var nextL1: nat
    var nextL2: nat
    var chunksPerAnchor: array<nat>
    var written: seq<Chunk>
    ghost var received: set<Chunk>

    ghost predicate Base()
      reads this, chunksPerAnchor
    {
      && Counts(cs) && (forall c :: c in received ==> Numbered(cs, c)) && Distinct(received)
      && At(cs, nextL1, nextL2, |written|)
      && WrittenOk(written, cs, received)
      && AnchorsOk(chunksPerAnchor[..], cs, received) && chunksPerAnchor.Length > 0
    }

    /** While chunks are being written from the cache: the next one may be in it. */
    ghost predicate Running()
      reads this, chunksPerAnchor
    {
      Base() && CacheOk(T, cs, received, |written|)
    }

    /** The chunk `next` is in hand, the cache holds the later ones. */
    ghost predicate Holding(c: Chunk)
      reads this, chunksPerAnchor
    {
      Base() && c in received && SequenceEq(c, nextL1, nextL2) && CacheOk(T, cs, received, |written| + 1)
    }

    /** Between two arrivals every cached chunk is greater than `next`. */
    ghost predicate Valid()
      reads this, chunksPerAnchor
    {
      Running() && forall k, c :: k in T && c in T[k] ==> PlaceOf(cs, c) > |written|
    }

    constructor (max: nat, ghost cs: seq<int>)
      requires Counts(cs) && max > 0
      ensures Valid() && fresh(chunksPerAnchor) && chunksPerAnchor.Length == max
      ensures this.cs == cs && received == {} && written == [] && T == map[]
    {
      this.cs := cs;
      T, nextL1, nextL2, written, received := map[], 0, 0, [], {};
      chunksPerAnchor := new nat[max](_ => 0);
      new;
      assert cs[..0] == [];
    }

    /** The array is doubled when an arrival lies outside of it, at most once per arrival. */
    method Grow(l1num: nat)
      requires Valid() && l1num < 2 * chunksPerAnchor.Length
      modifies this`chunksPerAnchor
      ensures Valid() && l1num < chunksPerAnchor.Length
      ensures chunksPerAnchor == old(chunksPerAnchor) || fresh(chunksPerAnchor)
      ensures chunksPerAnchor.Length == Grown(old(chunksPerAnchor.Length), l1num)
    {
      if l1num >= chunksPerAnchor.Length {
        ghost var per0 := chunksPerAnchor[..];
        var old_ := chunksPerAnchor;
        var bigger := new nat[2 * old_.Length](i reads old_ => if 0 <= i < old_.Length then old_[i] else 0);
        AnchorsGrow(per0, bigger[..], cs, received);
        chunksPerAnchor := bigger;
      }
    }

    /** The last fine chunk of a coarse chunk tells how many there are; from here on the chunk counts as received. */
    method Announce(c: Chunk)
      requires Valid() && Numbered(cs, c) && c.l1num < chunksPerAnchor.Length
      requires forall d :: d in received ==> !SequenceEq(d, c.l1num, c.l2num)
      modifies this`received, chunksPerAnchor
      ensures received == old(received) + {c} && Base()
    {
      ghost var per: seq<nat> := chunksPerAnchor[..];
      if c.isLastL2Chunk {
        NotYetAnnounced(per, cs, received, c);
        assert chunksPerAnchor[c.l1num] == 0;
        chunksPerAnchor[c.l1num] := c.l2num + 1;
      }
      received := received + {c};
      assert chunksPerAnchor[..] == if c.isLastL2Chunk then per[c.l1num := c.l2num + 1] else per;
      AnchorsAnnounced(per, cs, old(received), c);
    }

    /** A chunk that is not next waits in the tree. */
    method Cache(c: Chunk, ghost received0: set<Chunk>)
      requires Base() && received == received0 + {c} && c !in received0
      requires CacheOk(T, cs, received0, |written|) && PlaceOf(cs, c) > |written|
      requires forall k, d :: k in T && d in T[k] ==> PlaceOf(cs, d) > |written|
      modifies this`T
      ensures Valid()
    {
      var q := if c.l1num in T then T[c.l1num] else [];
      assert Queue(q, c.l1num);
      forall i | 0 <= i < |q| ensures q[i].l2num != c.l2num {
        assert q[i] in T[c.l1num];
        if q[i].l2num == c.l2num { assert false; }
      }
      InsertKeepsQueue(q, c, c.l1num);
      CacheInsert(T, cs, received0, |written|, c, Insert(q, c));
      T := T[c.l1num := Insert(q, c)];
    }

    /** write_chunk_to_file and the step of `next`. */
    method Write(c: Chunk)
      requires Holding(c)
      modifies this`written, this`nextL1, this`nextL2
      ensures Running() && written == old(written) + [c]
    {
      assert Numbered(cs, c);
      AtIs(cs, nextL1, nextL2, |written|, c);
      AtNext(cs, nextL1, nextL2, |written|);
      written := written + [c];
      nextL2 := nextL2 + 1;
      if chunksPerAnchor[nextL1] != 0 && nextL2 == chunksPerAnchor[nextL1] {
        nextL1 := nextL1 + 1;
        nextL2 := 0;
      }
    }

    /** Is the next chunk in the cache? pos is NULL (-1) or the least level-1 number in the tree. */
    method TakeNext(pos: int) returns (more: bool, c: Chunk, pos': int)
      requires Running() && PosOk(pos, T)
      modifies this`T
      ensures PosOk(pos', T) && written == old(written)
      ensures more ==> Holding(c)
      ensures !more ==> Valid() && T == old(T)
    {
      hide CacheOk, AnchorsOk, WrittenOk, At, Distinct, Counts, Queue;
      more, pos' := false, pos;
      c := Chunk(0, 0, false, 0);
      if pos != -1 && pos == nextL1 {
        Head(T, cs, received, nextL1, nextL2, |written|, pos);
        if SequenceEq(T[pos][0], nextL1, nextL2) {
          more, c := true, T[pos][0];
          CacheRemove(T, cs, received, |written|, pos);
          if |T[pos]| == 1 {
            T := T - {pos};
            pos' := if T == map[] then -1 else TreeFindMin(T);
          } else {
            T := T[pos := T[pos][1..]];
            assert old(T).Keys == T.Keys;
          }
        }
      }
      if !more { NextNotCached(T, cs, received, nextL1, nextL2, |written|, pos); }
    }

    /** One round of the main loop. */
    method Arrive(c: Chunk)
      requires Valid() && Numbered(cs, c) && c.l1num < 2 * chunksPerAnchor.Length
      requires forall d :: d in received ==> !SequenceEq(d, c.l1num, c.l2num)
      modifies this, chunksPerAnchor
      ensures Valid() && received == old(received) + {c}
      ensures old(written) <= written
      ensures chunksPerAnchor == old(chunksPerAnchor) || fresh(chunksPerAnchor)
      ensures chunksPerAnchor.Length == Grown(old(chunksPerAnchor.Length), c.l1num)
    {
      hide CacheOk, AnchorsOk, WrittenOk, At, Distinct, Counts;
      Grow(c.l1num);
      ghost var received0 := received;
      NotYetPassed(cs, received, written, c);
      Announce(c);
      AtIs(cs, nextL1, nextL2, |written|, c);
      if !SequenceEq(c, nextL1, nextL2) {
        Cache(c, received0);
      } else {
        CacheWithout(T, cs, received0, |written|, c);
        WriteRun(c);
      }
    }

    /** The chunk that is next is written, and then those from the cache as far as they go. */
    method WriteRun(c: Chunk)
      requires Holding(c)
      modifies this`T, this`written, this`nextL1, this`nextL2
      ensures Valid() && old(written) <= written
    {
      hide CacheOk, AnchorsOk, WrittenOk, Counts, Distinct, At;
      var chunk, more := c, true;
      var pos := if T == map[] then -1 else TreeFindMin(T);
      while more
        invariant PosOk(pos, T) && (if more then Holding(chunk) else Valid())
        invariant old(written) <= written
        decreases Sum(cs) - |written|, more
      {
        PlaceBound(cs, chunk);
        PlaceOfNext(cs, nextL1, nextL2, |written|, chunk);
        Write(chunk);
        more, chunk, pos := TakeNext(pos);
      }
    }

    /** The loop behind the main loop, over what is left in the cache. It gets through exactly when no chunk is missing below one that has
      * arrived. */
    method Flush() returns (r: Flushed)
      requires Running()
      modifies this`T, this`written, this`nextL1, this`nextL2
      ensures Running() && old(written) <= written
      ensures r == Done <==> Gapless(cs, received)
      ensures if r == Done then T == map[] else T != map[] && Valid()
      ensures r != Done ==> (forall k :: k in T ==> k >= nextL1) && (r == L2Mismatch <==> nextL1 in T)
      ensures old(T == map[]) ==> r == Done && written == old(written)
    {
      r := Done;
      var pos := if T == map[] then -1 else TreeFindMin(T);
      while pos != -1
        invariant Running() && PosOk(pos, T) && old(written) <= written && (old(T == map[]) ==> pos == -1 && written == old(written))
        decreases Sum(cs) - |written|
      {
        var more, chunk, pos' := TakeNext(pos);
        if !more {
          CachedMeansGap(T, cs, received, |written|);
          CachedIsLater(T, cs, received, nextL1, nextL2, |written|);
          return if pos == nextL1 then L2Mismatch else L1Mismatch;
        }
        PlaceBound(cs, chunk);
        Write(chunk);
        pos := pos';
      }
      EmptyMeansGapless(cs, received, written);
    }
  }

  lemma CachedIsLater(T: Tree, cs: seq<int>, received: set<Chunk>, l1: nat, l2: nat, n: nat)
    requires Counts(cs) && (forall d :: d in received ==> Numbered(cs, d)) && CacheOk(T, cs, received, n) && At(cs, l1, l2, n)
    ensures forall k :: k in T ==> k >= l1
  {
    forall k | k in T ensures k >= l1 {
      var c := T[k][0];
      assert c in T[k] && c.l1num == k;
      AtIs(cs, l1, l2, n, c);
    }
  }

  /** Whatever has arrived, everything before it has. */
  ghost predicate Gapless(cs: seq<int>, received: set<Chunk>)
  {
    forall c, n: nat :: c in received && n < PlaceOf(cs, c) ==> Arrived(cs, received, n)
  }

  ghost predicate Arrived(cs: seq<int>, received: set<Chunk>, n: nat) { exists d :: d in received && PlaceOf(cs, d) == n }

  lemma CachedMeansGap(T: Tree, cs: seq<int>, received: set<Chunk>, n: nat)
    requires CacheOk(T, cs, received, n) && T != map[] && forall k, c :: k in T && c in T[k] ==> PlaceOf(cs, c) > n
    ensures !Gapless(cs, received)
  {
    var k :| k in T;
    var c := T[k][0];
    assert c in T[k] && c in received && n < PlaceOf(cs, c);
    forall d | d in received && PlaceOf(cs, d) >= n ensures PlaceOf(cs, d) > n { assert d in T[d.l1num]; }
    assert !Arrived(cs, received, n);
  }

  lemma EmptyMeansGapless(cs: seq<int>, received: set<Chunk>, written: seq<Chunk>)
    requires WrittenOk(written, cs, received) && CacheOk(map[], cs, received, |written|)
    ensures Gapless(cs, received)
  {
    forall c, n: nat | c in received && n < PlaceOf(cs, c) ensures Arrived(cs, received, n) {
      assert PlaceOf(cs, c) < |written|;
      assert written[n] in received;
    }
  }

  /** chunks_per_anchor_max after an arrival. */
  function Grown(max: nat, l1num: nat): nat { if l1num < max then max else 2 * max }

  /** The array is grown by at most one doubling per arrival, so no arrival may be further ahead than that. */
  predicate Fits(arrivals: seq<Chunk>, max: nat)
  {
    arrivals == [] || (arrivals[0].l1num < 2 * max && Fits(arrivals[1..], Grown(max, arrivals[0].l1num)))
  }

  /** chunks_per_anchor_max after the first n arrivals. */
  function MaxAfter(arrivals: seq<Chunk>, max: nat, n: nat): nat
    requires n <= |arrivals|
  {
    if n == 0 then max else MaxAfter(arrivals[1..], Grown(max, arrivals[0].l1num), n - 1)
  }

  /** Fits is exactly the condition that no arrival is looked up outside the array. */
  lemma {:induction false} FitsMeansInBounds(arrivals: seq<Chunk>, max: nat)
    ensures Fits(arrivals, max) <==> forall i :: 0 <= i < |arrivals| ==> arrivals[i].l1num < MaxAfter(arrivals, max, i + 1)
  {
    if arrivals != [] {
      var rest, max' := arrivals[1..], Grown(max, arrivals[0].l1num);
      FitsMeansInBounds(rest, max');
      forall i | 0 <= i < |arrivals|
        ensures MaxAfter(arrivals, max, i + 1) == MaxAfter(rest, max', i) && (i > 0 ==> arrivals[i] == rest[i - 1]) {}
      forall i | 0 <= i < |rest| ensures rest[i] == arrivals[i + 1] {}
    }
  }

  /** Streams of at most twice as many coarse chunks as the array starts with always fit ... */
  lemma {:induction false} ShortStreamsFit(arrivals: seq<Chunk>, max: nat, n: nat)
    requires n <= 2 * max && forall i :: 0 <= i < |arrivals| ==> arrivals[i].l1num < n
    ensures Fits(arrivals, max)
  {
    if arrivals != [] { ShortStreamsFit(arrivals[1..], Grown(max, arrivals[0].l1num), n); }
  }

  /** The chunks of coarse chunk a. */
  ghost function Row(cs: seq<int>, a: nat): seq<Chunk>
    requires Counts(cs) && a < |cs|
  {
    seq(cs[a], b requires 0 <= b < cs[a] => Chunk(a, b, b + 1 == cs[a], 0))
  }

  /** The chunks of the first n coarse chunks, the last coarse chunk first. */
  ghost function Rows(cs: seq<int>, n: nat): seq<Chunk>
    requires Counts(cs) && n <= |cs|
  {
    if n == 0 then [] else Row(cs, n - 1) + Rows(cs, n - 1)
  }

  lemma {:induction false} RowsComplete(cs: seq<int>, n: nat)
    requires Counts(cs) && n <= |cs|
    ensures forall i :: 0 <= i < |Rows(cs, n)| ==> Numbered(cs, Rows(cs, n)[i]) && Rows(cs, n)[i].l1num < n
    ensures forall i, j :: 0 <= i < j < |Rows(cs, n)| ==> !SequenceEq(Rows(cs, n)[i], Rows(cs, n)[j].l1num, Rows(cs, n)[j].l2num)
    ensures forall a, b :: 0 <= a < n && 0 <= b < cs[a] ==> Present(Rows(cs, n), a, b)
  {
    if n > 0 {
      RowsComplete(cs, n - 1);
      var row, rest, all := Row(cs, n - 1), Rows(cs, n - 1), Rows(cs, n);
      forall i | 0 <= i < |all| ensures all[i] == if i < |row| then row[i] else rest[i - |row|] {}
      forall a, b | 0 <= a < n && 0 <= b < cs[a] ensures Present(all, a, b) {
        if a == n - 1 {
          assert SequenceEq(all[b], a, b);
        } else {
          assert Present(rest, a, b);
          var i :| 0 <= i < |rest| && SequenceEq(rest[i], a, b);
          assert SequenceEq(all[|row| + i], a, b);
        }
      }
    }
  }

  /** ... of every longer stream there is an arrival order that does not fit: the last coarse chunk comes first. */
  lemma LongStreamsNeedNotFit(cs: seq<int>, max: nat) returns (arrivals: seq<Chunk>)
    requires Counts(cs) && |cs| > 2 * max
    ensures Complete(cs, arrivals) && !Fits(arrivals, max)
  {
    arrivals := Rows(cs, |cs|);
    RowsComplete(cs, |cs|);
    assert arrivals[0] == Row(cs, |cs| - 1)[0];
  }

  /** So a stream arrives safely in every order exactly if it has at most twice as many coarse chunks as the array has entries. */
  lemma EveryOrderFits(cs: seq<int>, max: nat)
    requires Counts(cs)
    ensures (forall arrivals :: Complete(cs, arrivals) ==> Fits(arrivals, max)) <==> |cs| <= 2 * max
  {
    if |cs| <= 2 * max {
      forall arrivals | Complete(cs, arrivals) ensures Fits(arrivals, max) { ShortStreamsFit(arrivals, max, |cs|); }
    } else {
      var arrivals := LongStreamsNeedNotFit(cs, max);
    }
  }

  /** Every sequence number of the stream occurs exactly once. */
  ghost predicate Complete(cs: seq<int>, arrivals: seq<Chunk>)
  {
    && (forall i :: 0 <= i < |arrivals| ==> Numbered(cs, arrivals[i]))
    && (forall i, j :: 0 <= i < j < |arrivals| ==> !SequenceEq(arrivals[i], arrivals[j].l1num, arrivals[j].l2num))
    && (forall a, b :: 0 <= a < |cs| && 0 <= b < cs[a] ==> Present(arrivals, a, b))
  }

  ghost predicate Present(arrivals: seq<Chunk>, a: nat, b: nat)
  {
    exists i :: 0 <= i < |arrivals| && SequenceEq(arrivals[i], a, b)
  }

  /** The output is the chunks in lexicographic order, each once. */
  ghost predicate InOrder(cs: seq<int>, arrivals: seq<Chunk>, written: seq<Chunk>)
  {
    && |written| == Sum(cs)
    && (forall i :: 0 <= i < |written| ==> written[i] in arrivals)
    && (forall c :: c in arrivals ==> 0 <= PlaceOf(cs, c) < |written| && written[PlaceOf(cs, c)] == c)
    && (forall i, j :: 0 <= i < j < |written| ==> SequenceLt(written[i], written[j]))
  }

  function SetOf(s: seq<Chunk>): set<Chunk> { set c | c in s }

  /** What the stage may expect of the next arrival. */
  lemma NextArrival(arrivals: seq<Chunk>, cs: seq<int>, i: nat, received: set<Chunk>, max: nat)
    requires Complete(cs, arrivals) && i < |arrivals| && received == SetOf(arrivals[..i]) && Fits(arrivals[i..], max)
    ensures Numbered(cs, arrivals[i]) && arrivals[i].l1num < 2 * max
    ensures forall d :: d in received ==> !SequenceEq(d, arrivals[i].l1num, arrivals[i].l2num)
    ensures received + {arrivals[i]} == SetOf(arrivals[..i + 1]) && Fits(arrivals[i + 1..], Grown(max, arrivals[i].l1num))
  {
    assert arrivals[..i + 1] == arrivals[..i] + [arrivals[i]] && arrivals[i..][1..] == arrivals[i + 1..];
  }

  /** The whole stage on any arrival order. */
  method ReorderAll(arrivals: seq<Chunk>, max: nat, ghost cs: seq<int>) returns (r: Flushed, written: seq<Chunk>)
    requires Counts(cs) && max > 0 && Complete(cs, arrivals) && Fits(arrivals, max)
    ensures InOrder(cs, arrivals, written) && r == Done
  {
    hide Complete, Fits, Numbered, Grown, InOrder, CacheOk, AnchorsOk, WrittenOk, At, Distinct, Counts, SequenceEq;
    var stage := new ReorderStage(max, cs);
    var i := 0;
    assert arrivals[0..] == arrivals;
    while i < |arrivals|
      invariant 0 <= i <= |arrivals| && stage.Valid() && fresh(stage) && fresh(stage.chunksPerAnchor) && stage.cs == cs
      invariant stage.received == SetOf(arrivals[..i]) && Fits(arrivals[i..], stage.chunksPerAnchor.Length)
    {
      NextArrival(arrivals, cs, i, stage.received, stage.chunksPerAnchor.Length);
      stage.Arrive(arrivals[i]);
      i := i + 1;
    }
    assert arrivals[..i] == arrivals;
    AllWritten(cs, arrivals, stage.T, stage.nextL1, stage.nextL2, stage.written, stage.received);
    r := stage.Flush();
    written := stage.written;
  }

  /** With everything received, everything is written: the flush loop finds an empty cache. */
  lemma AllWritten(cs: seq<int>, arrivals: seq<Chunk>, T: Tree, l1: nat, l2: nat, written: seq<Chunk>, received: set<Chunk>)
    requires Counts(cs) && Complete(cs, arrivals) && received == SetOf(arrivals)
    requires Distinct(received) && At(cs, l1, l2, |written|) && WrittenOk(written, cs, received) && CacheOk(T, cs, received, |written|)
    requires forall k, c :: k in T && c in T[k] ==> PlaceOf(cs, c) > |written|
    ensures T == map[] && InOrder(cs, arrivals, written)
  {
    forall c | c in received ensures Numbered(cs, c) {
      var i :| 0 <= i < |arrivals| && arrivals[i] == c;
    }
    forall c | c in received ensures !SequenceEq(c, l1, l2) { AtIs(cs, l1, l2, |written|, c); }
    assert l1 < |cs| ==> Present(arrivals, l1, l2);
    assert cs[..|cs|] == cs;
    forall c | c in received ensures 0 <= PlaceOf(cs, c) < |written| && written[PlaceOf(cs, c)] == c {
      PlaceBound(cs, c);
      assert cs[..0] == [];
      if c.l1num > 0 { PlaceGrows(cs, 0, c.l1num); }
      SequenceOrder(cs, c, written[PlaceOf(cs, c)]);
    }
    if T != map[] {
      var c := SomeCached(T, cs, received, |written|);
      assert false;
    }
    forall i, j | 0 <= i < j < |written| ensures SequenceLt(written[i], written[j]) {
      SequenceOrder(cs, written[i], written[j]);
    }
  }

  lemma SomeCached(T: Tree, cs: seq<int>, received: set<Chunk>, n: nat) returns (c: Chunk)
    requires CacheOk(T, cs, received, n) && T != map[]
    ensures c in received && PlaceOf(cs, c) >= n
  {
    var k :| k in T;
    c := T[k][0];
  }

  lemma PlaceBound(cs: seq<int>, c: Chunk)
    requires Counts(cs) && Numbered(cs, c)
    ensures PlaceOf(cs, c) < Sum(cs)
  {
    assert cs[..|cs|] == cs;
    PlaceGrows(cs, c.l1num, |cs|);
  }

  lemma PlaceOfNext(cs: seq<int>, l1: nat, l2: nat, n: nat, c: Chunk)
    requires At(cs, l1, l2, n) && SequenceEq(c, l1, l2)
    ensures PlaceOf(cs, c) == n
  {
  }

  lemma CacheWithout(T: Tree, cs: seq<int>, received: set<Chunk>, n: nat, c: Chunk)
    requires CacheOk(T, cs, received, n) && PlaceOf(cs, c) == n && c !in received
    requires forall k, d :: k in T && d in T[k] ==> PlaceOf(cs, d) > n
    ensures CacheOk(T, cs, received + {c}, n + 1)
  {
    forall d | d in received && PlaceOf(cs, d) >= n ensures PlaceOf(cs, d) > n { assert d in T[d.l1num]; }
  }

  lemma NotYetPassed(cs: seq<int>, received: set<Chunk>, written: seq<Chunk>, c: Chunk)
    requires Counts(cs) && (forall d :: d in received ==> Numbered(cs, d)) && WrittenOk(written, cs, received) && Numbered(cs, c)
    requires forall d :: d in received ==> !SequenceEq(d, c.l1num, c.l2num)
    ensures PlaceOf(cs, c) >= |written|
  {
    assert cs[..0] == [];
    if c.l1num > 0 { PlaceGrows(cs, 0, c.l1num); }
    if PlaceOf(cs, c) < |written| {
      SequenceOrder(cs, written[PlaceOf(cs, c)], c);
    }
  }

  ghost predicate PosOk(pos: int, T: Tree)
  {
    if T == map[] then pos == -1 else pos >= 0 && pos in T && forall k :: k in T ==> pos <= k
  }

  /** The assertion in the code: the last chunk of an anchor arrives only once. */
  lemma NotYetAnnounced(per: seq<nat>, cs: seq<int>, received: set<Chunk>, c: Chunk)
    requires (forall d :: d in received ==> Numbered(cs, d)) && AnchorsOk(per, cs, received) && Numbered(cs, c)
    requires c.isLastL2Chunk && c.l1num < |per| && forall d :: d in received ==> !SequenceEq(d, c.l1num, c.l2num)
    ensures per[c.l1num] == 0
  {
  }

  lemma AnchorsAnnounced(per: seq<nat>, cs: seq<int>, received: set<Chunk>, c: Chunk)
    requires (forall d :: d in received ==> Numbered(cs, d)) && AnchorsOk(per, cs, received) && Numbered(cs, c) && c.l1num < |per|
    ensures forall d :: d in received + {c} ==> Numbered(cs, d)
    ensures AnchorsOk(if c.isLastL2Chunk then per[c.l1num := c.l2num + 1] else per, cs, received + {c})
  {
    assert c in received + {c};
  }

  lemma CacheInsert(T: Tree, cs: seq<int>, received: set<Chunk>, n: nat, c: Chunk, q: seq<Chunk>)
    requires (forall d :: d in received + {c} ==> Numbered(cs, d)) && CacheOk(T, cs, received, n) && PlaceOf(cs, c) >= n
    requires Queue(q, c.l1num) && q != []
    requires forall d :: d in q <==> d == c || (c.l1num in T && d in T[c.l1num])
    ensures CacheOk(T[c.l1num := q], cs, received + {c}, n)
  {
  }

  /** Taking the chunk at place n out of the cache. */
  lemma CacheRemove(T: Tree, cs: seq<int>, received: set<Chunk>, n: nat, k: nat)
    requires Counts(cs) && (forall d :: d in received ==> Numbered(cs, d)) && Distinct(received) && CacheOk(T, cs, received, n)
    requires k in T && PlaceOf(cs, T[k][0]) == n
    ensures |T[k]| == 1 ==> CacheOk(T - {k}, cs, received, n + 1)
    ensures |T[k]| > 1 ==> CacheOk(T[k := T[k][1..]], cs, received, n + 1)
  {
    var c := T[k][0];
    assert T[k] == [c] + T[k][1..];
    forall d | d in received && PlaceOf(cs, d) == n ensures d == c { SequenceOrder(cs, c, d); }
    forall d | d in T[k][1..] ensures d != c && PlaceOf(cs, d) != n {}
    hide PlaceOf, Numbered, Counts, Distinct;
  }

  lemma Head(T: Tree, cs: seq<int>, received: set<Chunk>, l1: nat, l2: nat, n: nat, k: nat)
    requires Counts(cs) && (forall d :: d in received ==> Numbered(cs, d)) && CacheOk(T, cs, received, n) && At(cs, l1, l2, n)
    requires k in T
    ensures T[k] != [] && T[k][0] in received && (SequenceEq(T[k][0], l1, l2) ==> PlaceOf(cs, T[k][0]) == n)
  {
  }

  /** If the least cached chunk is not the next one, no cached chunk is. */
  lemma NextNotCached(T: Tree, cs: seq<int>, received: set<Chunk>, l1: nat, l2: nat, n: nat, pos: int)
    requires Counts(cs) && (forall d :: d in received ==> Numbered(cs, d)) && CacheOk(T, cs, received, n) && At(cs, l1, l2, n)
    requires PosOk(pos, T) && (pos == l1 ==> !SequenceEq(T[pos][0], l1, l2))
    ensures forall k, c :: k in T && c in T[k] ==> PlaceOf(cs, c) > n
  {
    forall k, c | k in T && c in T[k] ensures PlaceOf(cs, c) > n {
      AtIs(cs, l1, l2, n, c);
      var m := T[pos][0];
      assert m in T[pos];
      AtIs(cs, l1, l2, n, m);
    }
  }

  lemma AnchorsGrow(per: seq<nat>, per': seq<nat>, cs: seq<int>, received: set<Chunk>)
    requires (forall c :: c in received ==> Numbered(cs, c)) && AnchorsOk(per, cs, received)
    requires |per'| >= |per| && forall a :: 0 <= a < |per'| ==> per'[a] == if a < |per| then per[a] else 0
    ensures AnchorsOk(per', cs, received)
  {
  }
}
