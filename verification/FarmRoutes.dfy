/** Which chunks go round the compression stage in the pipeline of farms: the duplicates, and they alone. */
module FarmRoutes {
  import opened Farms

  ghost predicate OnlyOriginals(c: Config, s: seq<nat>) { forall i :: 0 <= i < |s| ==> !c.isDuplicate(s[i]) }

  ghost predicate OnlyDuplicates(c: Config, s: seq<nat>) { forall i :: 0 <= i < |s| ==> c.isDuplicate(s[i]) }

  /** Buffers of duplicates are marked to bypass compression, buffers of originals are not; there are no others. */
  ghost predicate Routed(c: Config, m: Msg) { if m.bypass then OnlyDuplicates(c, m.data) else OnlyOriginals(c, m.data) }

  /** What a farm of this kind sends: buffers that are at most full. FragmentRefine knows nothing of duplicates and bypasses nothing. */
  ghost predicate Shipped(c: Config, kind: Kind, m: Msg)
  {
    |m.data| <= c.cap && if kind == FragmentRefine then !m.bypass else Routed(c, m)
  }

  ghost predicate AllShipped(c: Config, kind: Kind, q: seq<Msg>) { forall i :: 0 <= i < |q| ==> Shipped(c, kind, q[i]) }

  /** A worker sends what is not full only behind its last chunk. */
  ghost predicate AllPacked(c: Config, q: seq<Msg>) { forall i :: 0 <= i < |q| ==> q[i].last || q[i].bypass || |q[i].data| == c.cap }

  /** The send buffers are never full between two chunks, and hold what belongs into them. */
  ghost predicate BuffersOk(c: Config, kind: Kind, w: Worker)
  {
    && |w.buf| < c.cap && |w.bufReorder| < c.cap && (kind != Deduplicate ==> w.bufReorder == [])
    && (kind != FragmentRefine ==> OnlyOriginals(c, w.buf)) && OnlyDuplicates(c, w.bufReorder)
  }

  ghost predicate WorkerRouted(c: Config, kind: Kind, w: Worker)
  {
    BuffersOk(c, kind, w) && AllShipped(c, kind, w.outq) && AllPacked(c, w.outq) && (kind == Compress ==> AllShipped(c, Deduplicate, w.inq))
  }

  ghost predicate FarmRouted(c: Config, f: Farm)
  {
    (forall i :: 0 <= i < |f.ws| ==> WorkerRouted(c, f.kind, f.ws[i])) && AllShipped(c, f.kind, f.sent)
  }

  lemma ShipOne(c: Config, kind: Kind, q: seq<Msg>, m: Msg)
    requires AllShipped(c, kind, q) && Shipped(c, kind, m)
    ensures AllShipped(c, kind, q + [m])
  {
    hide Shipped;
  }

  /** Chunk y goes into the send buffer for its kind. */
  lemma PutKeeps(c: Config, kind: Kind, w: Worker, y: nat)
    requires c.cap > 0 && WorkerRouted(c, kind, w) && (kind == Compress ==> !c.isDuplicate(y))
    ensures var w1 := if kind == Deduplicate && c.isDuplicate(y) then w.(bufReorder := w.bufReorder + [y]) else w.(buf := w.buf + [y]);
      WorkerRouted(c, kind, FlushFull(c, w1)) && FlushFull(c, w1).inq == w.inq
  {
    hide AllShipped;
    var w1 := if kind == Deduplicate && c.isDuplicate(y) then w.(bufReorder := w.bufReorder + [y]) else w.(buf := w.buf + [y]);
    if |w1.buf| >= c.cap {
      ShipOne(c, kind, w.outq, Msg(w1.buf, false, false));
    } else if |w1.bufReorder| >= c.cap {
      ShipOne(c, kind, w.outq, Msg(w1.bufReorder, false, true));
    }
  }

  lemma {:induction false} ProcessRoutes(c: Config, kind: Kind, w: Worker, data: seq<nat>)
    requires c.cap > 0 && WorkerRouted(c, kind, w) && (kind == Compress ==> OnlyOriginals(c, data))
    ensures WorkerRouted(c, kind, Process(c, kind, w, data)) && Process(c, kind, w, data).inq == w.inq
    decreases |data|
  {
    if data != [] {
      PutKeeps(c, kind, w, data[0]);
      hide WorkerRouted, FlushFull;
      var w1 := if kind == Deduplicate && c.isDuplicate(data[0]) then w.(bufReorder := w.bufReorder + [data[0]]) else w.(buf := w.buf + [data[0]]);
      ProcessRoutes(c, kind, FlushFull(c, w1), data[1..]);
    }
  }

  /** A worker routes the chunks of every buffer as it should. */
  lemma ServiceRoutes(c: Config, kind: Kind, w: Worker)
    requires c.cap > 0 && WorkerRouted(c, kind, w) && w.inq != []
    ensures WorkerRouted(c, kind, Service(c, kind, w))
  {
    var m, w0 := w.inq[0], w.(inq := w.inq[1..]);
    assert WorkerRouted(c, kind, w0);
    assert kind == Compress ==> Shipped(c, Deduplicate, m);
    if kind == Compress && m.bypass {
      ShipOne(c, kind, w0.outq, m);
    } else {
      ProcessRoutes(c, kind, w0, m.data);
      hide Process;
      if m.last { FinishRoutes(c, kind, Process(c, kind, w0, m.data)); }
    }
  }

  lemma FinishRoutes(c: Config, kind: Kind, w: Worker)
    requires c.cap > 0 && WorkerRouted(c, kind, w)
    ensures kind == Deduplicate ==>
      WorkerRouted(c, kind, w.(buf := [], bufReorder := [], outq := w.outq + [Msg(w.bufReorder, false, true), Msg(w.buf, true, false)]))
    ensures kind != Deduplicate ==> WorkerRouted(c, kind, w.(buf := [], outq := w.outq + [Msg(w.buf, true, false)]))
  {
    hide AllShipped;
    if kind == Deduplicate {
      ShipOne(c, kind, w.outq, Msg(w.bufReorder, false, true));
      ShipOne(c, kind, w.outq + [Msg(w.bufReorder, false, true)], Msg(w.buf, true, false));
      assert w.outq + [Msg(w.bufReorder, false, true), Msg(w.buf, true, false)]
          == w.outq + [Msg(w.bufReorder, false, true)] + [Msg(w.buf, true, false)];
    } else {
      ShipOne(c, kind, w.outq, Msg(w.buf, true, false));
    }
  }

  lemma EmitRoutes(c: Config, f: Farm, m: Msg, w: nat)
    requires FarmRouted(c, f) && w < |f.ws| && (f.kind == Compress ==> Shipped(c, Deduplicate, m))
    ensures FarmRouted(c, Emit(f, m, w))
  {
    hide Shipped;
    var f', e := Emit(f, m, w), Msg([], true, false);
    assert Shipped(c, Deduplicate, e) by { NothingToRoute(c, e); }
    forall i | 0 <= i < |f'.ws| ensures WorkerRouted(c, f.kind, f'.ws[i]) { assert WorkerRouted(c, f.kind, f.ws[i]); }
  }

  lemma NothingToRoute(c: Config, m: Msg)
    requires m.data == []
    ensures Shipped(c, Deduplicate, m)
  {
  }

  lemma ServeRoutes(c: Config, f: Farm, w: nat)
    requires c.cap > 0 && FarmRouted(c, f) && w < |f.ws| && f.ws[w].inq != []
    ensures FarmRouted(c, f.(ws := f.ws[w := Service(c, f.kind, f.ws[w])]))
  {
    ServiceRoutes(c, f.kind, f.ws[w]);
  }

  lemma CollectRoutes(c: Config, f: Farm, w: nat, isReorder: bool)
    requires FarmRouted(c, f) && w < |f.ws| && f.ws[w].outq != []
    ensures FarmRouted(c, Collect(c, f, w, isReorder))
  {
    var m := f.ws[w].outq[0];
    assert WorkerRouted(c, f.kind, f.ws[w]) && Shipped(c, f.kind, m) && Shipped(c, f.kind, m.(last := false));
    ShipOne(c, f.kind, f.sent, m);
    ShipOne(c, f.kind, f.sent, m.(last := false));
    forall i | 0 <= i < |f.ws| ensures WorkerRouted(c, f.kind, Collect(c, f, w, isReorder).ws[i]) { assert WorkerRouted(c, f.kind, f.ws[i]); }
  }

  // Compressed data.

  /** Chunk x is in a buffer that has not bypassed the compression stage. */
  ghost predicate Compressed(q: seq<Msg>, x: nat) { exists i :: 0 <= i < |q| && !q[i].bypass && x in q[i].data }

  /** An original that is in routed buffers at all is in one that has been compressed. */
  lemma {:induction false} OriginalsAreCompressed(c: Config, q: seq<Msg>, x: nat)
    requires AllShipped(c, Compress, q) && !c.isDuplicate(x)
    ensures InMsgs(q, x) > 0 <==> Compressed(q, x)
  {
    if q != [] {
      var n := |q| - 1;
      OriginalsAreCompressed(c, q[..n], x);
      assert Shipped(c, Compress, q[n]);
      if Compressed(q[..n], x) {
        var i :| 0 <= i < n && !q[..n][i].bypass && x in q[..n][i].data;
        assert !q[i].bypass && x in q[i].data;
      }
      if x in q[n].data { var j :| 0 <= j < |q[n].data| && q[n].data[j] == x; }
    }
  }
}
