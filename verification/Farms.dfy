/** Termination in the pipeline of farms (encoder_ff_pipeoffarms.cpp): how the "last" token travels through emitters, workers
  * and collectors, and why Reorder sees its last one only after every chunk.
  */
module Farms {
  import opened Sums

  /** A ring buffer on its way between two nodes. Coarse chunks are represented by the fine chunks they will become. */
  datatype Msg = Msg(data: seq<nat>, last: bool, bypass: bool)

  datatype Kind = FragmentRefine | Deduplicate | Compress

  /** A worker with its two FIFO channels and its send buffers; only Deduplicate uses the second one. */
  datatype Worker = Worker(inq: seq<Msg>, buf: seq<nat>, bufReorder: seq<nat>, outq: seq<Msg>)

  /** A farm: how much of its input stream the emitter has taken, the workers, the collector's counter, and all it has sent. */
  datatype Farm = Farm(kind: Kind, taken: nat, ws: seq<Worker>, rcvd: nat, sent: seq<Msg>)

  /** send_buf is sent when it holds `cap` chunks; `isDuplicate` is what the table lookup will say, `original` the chunk it will find. */
  datatype Config = Config(nw: nat, cap: nat, isDuplicate: nat -> bool, original: nat -> nat)

  function FlushFull(c: Config, w: Worker): Worker
  {
    var w1 := if |w.buf| >= c.cap then w.(buf := [], outq := w.outq + [Msg(w.buf, false, false)]) else w;
    if |w1.bufReorder| >= c.cap then w1.(bufReorder := [], outq := w1.outq + [Msg(w1.bufReorder, false, true)]) else w1
  }

  /** The loop over the chunks of a received buffer. */
  function Process(c: Config, kind: Kind, w: Worker, data: seq<nat>): Worker
    decreases |data|
  {
    if data == [] then w
    else
      var x := data[0];
      var w1 := if kind == Deduplicate && c.isDuplicate(x) then w.(bufReorder := w.bufReorder + [x]) else w.(buf := w.buf + [x]);
      Process(c, kind, FlushFull(c, w1), data[1..])
  }

  /** svc of a worker on its next buffer. */
  function Service(c: Config, kind: Kind, w: Worker): Worker
    requires w.inq != []
  {
    var m, w0 := w.inq[0], w.(inq := w.inq[1..]);
    if kind == Compress && m.bypass then w0.(outq := w0.outq + [m])
    else
      var w1 := Process(c, kind, w0, m.data);
      if !m.last then w1
      else if kind == Deduplicate then
        w1.(buf := [], bufReorder := [], outq := w1.outq + [Msg(w1.bufReorder, false, true), Msg(w1.buf, true, false)])
      else w1.(buf := [], outq := w1.outq + [Msg(w1.buf, true, false)])
  }

  /** POFEmitter (and Fragment, which emits the first farm's stream): data to some worker, the last token to all. */
  function Emit(f: Farm, m: Msg, w: nat): Farm
    requires w < |f.ws|
  {
    f.(taken := f.taken + 1,
       ws := if m.last then Broadcast(f.ws, m) else f.ws[w := f.ws[w].(inq := f.ws[w].inq + [m])])
  }

  function Broadcast(ws: seq<Worker>, m: Msg): (r: seq<Worker>)
    ensures |r| == |ws|
    ensures forall i :: 0 <= i < |ws| ==> r[i] == ws[i].(inq := ws[i].inq + [if i == 0 then m else Msg([], true, false)])
  {
    seq(|ws|, i requires 0 <= i < |ws| => ws[i].(inq := ws[i].inq + [if i == 0 then m else Msg([], true, false)]))
  }

  /** POFCollector: of the nw last tokens only the final one passes as such; Reorder counts the same way, without starting over. */
  function Collect(c: Config, f: Farm, w: nat, isReorder: bool): Farm
    requires w < |f.ws| && f.ws[w].outq != []
  {
    var m, f1 := f.ws[w].outq[0], f.(ws := f.ws[w := f.ws[w].(outq := f.ws[w].outq[1..])]);
    if !m.last then f1.(sent := f.sent + [m])
    else if f.rcvd + 1 == c.nw then f1.(rcvd := if isReorder then c.nw else 0, sent := f.sent + [m])
    else f1.(rcvd := f.rcvd + 1, sent := f.sent + [m.(last := false)])
  }

  ghost predicate NoLast(q: seq<Msg>) { forall i :: 0 <= i < |q| ==> !q[i].last }

  /** The last token, if there, is the final message. */
  ghost predicate WellEnded(q: seq<Msg>) { forall i :: 0 <= i < |q| && q[i].last ==> i == |q| - 1 }

  predicate Ended(q: seq<Msg>) { q != [] && q[|q| - 1].last }

  /** Bypass buffers never carry the token. */
  ghost predicate BypassOk(q: seq<Msg>) { forall i :: 0 <= i < |q| ==> !(q[i].bypass && q[i].last) }

  predicate Drained(w: Worker) { w.inq == [] && w.buf == [] && w.bufReorder == [] && w.outq == [] }

  ghost predicate WorkerOk(kind: Kind, w: Worker)
  {
    BypassOk(w.inq) && BypassOk(w.outq) && (kind != Deduplicate ==> w.bufReorder == [])
  }

  /** Before the emitter has sent the token ... */
  ghost predicate WorkerOpen(w: Worker) { NoLast(w.inq) && NoLast(w.outq) }

  /** ... and after: the token is the worker's final input, or its final output, or it has been collected. */
  ghost predicate WorkerClosing(w: Worker)
  {
    || (Ended(w.inq) && WellEnded(w.inq) && NoLast(w.outq))
    || (w.inq == [] && w.buf == [] && w.bufReorder == [] && Ended(w.outq) && WellEnded(w.outq))
    || Drained(w)
  }

  ghost function DrainedCount(ws: seq<Worker>): seq<int>
  {
    seq(|ws|, i requires 0 <= i < |ws| => if Drained(ws[i]) then 1 else 0)
  }

  /** How often chunk x is in a sequence of buffers. */
  ghost function InMsgs(q: seq<Msg>, x: nat): nat
  {
    if q == [] then 0 else InMsgs(q[..|q| - 1], x) + multiset(q[|q| - 1].data)[x]
  }

  ghost function InWorker(w: Worker, x: nat): nat
  {
    InMsgs(w.inq, x) + multiset(w.buf)[x] + multiset(w.bufReorder)[x] + InMsgs(w.outq, x)
  }

  ghost function InWorkers(ws: seq<Worker>, x: nat): seq<int> { seq(|ws|, i requires 0 <= i < |ws| => InWorker(ws[i], x)) }

  ghost predicate Conserved(f: Farm, stream: seq<Msg>)
    requires f.taken <= |stream|
  {
    forall x: nat :: InMsgs(stream[..f.taken], x) == Sum(InWorkers(f.ws, x)) + InMsgs(f.sent, x)
  }

  ghost predicate FarmOk(c: Config, f: Farm, stream: seq<Msg>, isReorder: bool)
  {
    && c.nw > 0 && c.cap > 0 && |f.ws| == c.nw && f.taken <= |stream|
    && WellEnded(stream) && BypassOk(stream) && WellEnded(f.sent) && BypassOk(f.sent)
    && (forall i :: 0 <= i < c.nw ==> WorkerOk(f.kind, f.ws[i]))
    && Conserved(f, stream)
    && TokenOk(c, f, stream, isReorder)
  }

  /** Where the token is: before the emitter has sent it, and after. */
  ghost predicate TokenOk(c: Config, f: Farm, stream: seq<Msg>, isReorder: bool)
    requires |f.ws| == c.nw
  {
    if Ended(stream) && f.taken == |stream| then
      && (forall i :: 0 <= i < c.nw ==> WorkerClosing(f.ws[i]))
      && (if Ended(f.sent) then (forall i :: 0 <= i < c.nw ==> Drained(f.ws[i])) && f.rcvd == (if isReorder then c.nw else 0)
          else f.rcvd == Sum(DrainedCount(f.ws)) && f.rcvd < c.nw)
    else (forall i :: 0 <= i < c.nw ==> WorkerOpen(f.ws[i])) && !Ended(f.sent) && f.rcvd == 0
  }

  // Counting chunks.

  lemma {:induction false} InMsgsConcat(a: seq<Msg>, b: seq<Msg>, x: nat)
    ensures InMsgs(a + b, x) == InMsgs(a, x) + InMsgs(b, x)
  {
    if b == [] { assert a + b == a; } else {
      assert (a + b)[..|a + b| - 1] == a + b[..|b| - 1];
      InMsgsConcat(a, b[..|b| - 1], x);
    }
  }

  lemma InMsgsOne(m: Msg, x: nat)
    ensures InMsgs([m], x) == multiset(m.data)[x]
  {
    assert [m][..0] == [];
  }

  lemma InMsgsAppend(q: seq<Msg>, m: Msg, x: nat)
    ensures InMsgs(q + [m], x) == InMsgs(q, x) + multiset(m.data)[x]
  {
    InMsgsConcat(q, [m], x);
    InMsgsOne(m, x);
  }

  lemma InMsgsHead(q: seq<Msg>, x: nat)
    requires q != []
    ensures InMsgs(q, x) == multiset(q[0].data)[x] + InMsgs(q[1..], x)
  {
    assert q == [q[0]] + q[1..];
    InMsgsConcat([q[0]], q[1..], x);
    InMsgsOne(q[0], x);
  }

  lemma UpdateWorker(ws: seq<Worker>, i: nat, w: Worker, x: nat)
    requires i < |ws|
    ensures Sum(InWorkers(ws[i := w], x)) == Sum(InWorkers(ws, x)) - InWorker(ws[i], x) + InWorker(w, x)
  {
    assert InWorkers(ws[i := w], x) == InWorkers(ws, x)[i := InWorker(w, x)];
    SumUpdate(InWorkers(ws, x), i, InWorker(w, x));
  }

  // The workers.

  lemma FlushCount(c: Config, w: Worker, x: nat)
    ensures InWorker(FlushFull(c, w), x) == InWorker(w, x)
  {
    InMsgsAppend(w.outq, Msg(w.buf, false, false), x);
    var w1 := if |w.buf| >= c.cap then w.(buf := [], outq := w.outq + [Msg(w.buf, false, false)]) else w;
    InMsgsAppend(w1.outq, Msg(w1.bufReorder, false, true), x);
    hide InMsgs;
  }

  /** Buffers sent because they are full carry no token. */
  ghost predicate Sending(w: Worker, w': Worker)
  {
    && w'.inq == w.inq && (NoLast(w.outq) ==> NoLast(w'.outq)) && (BypassOk(w.outq) ==> BypassOk(w'.outq))
    && (w.bufReorder == [] ==> w'.bufReorder == [])
  }

  lemma FlushShape(c: Config, w: Worker)
    ensures Sending(w, FlushFull(c, w))
  {
  }

  lemma {:induction false} ProcessCount(c: Config, kind: Kind, w: Worker, data: seq<nat>, x: nat)
    ensures InWorker(Process(c, kind, w, data), x) == InWorker(w, x) + multiset(data)[x]
    decreases |data|
  {
    hide InMsgs, FlushFull;
    if data != [] {
      var y := data[0];
      var w1 := if kind == Deduplicate && c.isDuplicate(y) then w.(bufReorder := w.bufReorder + [y]) else w.(buf := w.buf + [y]);
      assert multiset(data)[x] == (if x == y then 1 else 0) + multiset(data[1..])[x] by { assert data == [y] + data[1..]; }
      FlushCount(c, w1, x);
      ProcessCount(c, kind, FlushFull(c, w1), data[1..], x);
    }
  }

  lemma {:induction false} ProcessShape(c: Config, kind: Kind, w: Worker, data: seq<nat>)
    ensures Process(c, kind, w, data).inq == w.inq
    ensures NoLast(w.outq) ==> NoLast(Process(c, kind, w, data).outq)
    ensures BypassOk(w.outq) ==> BypassOk(Process(c, kind, w, data).outq)
    ensures kind != Deduplicate && w.bufReorder == [] ==> Process(c, kind, w, data).bufReorder == []
    decreases |data|
  {
    hide NoLast, BypassOk, FlushFull;
    if data != [] {
      var y := data[0];
      var w1 := if kind == Deduplicate && c.isDuplicate(y) then w.(bufReorder := w.bufReorder + [y]) else w.(buf := w.buf + [y]);
      FlushShape(c, w1);
      ProcessShape(c, kind, FlushFull(c, w1), data[1..]);
    }
  }

  /** A worker loses no chunk. */
  lemma ServiceCount(c: Config, kind: Kind, w: Worker, x: nat)
    requires w.inq != [] && (kind != Deduplicate ==> w.bufReorder == [])
    ensures InWorker(Service(c, kind, w), x) == InWorker(w, x)
  {
    var m, w0 := w.inq[0], w.(inq := w.inq[1..]);
    InMsgsHead(w.inq, x);
    InMsgsAppend(w0.outq, m, x);
    ProcessCount(c, kind, w0, m.data, x);
    ProcessShape(c, kind, w0, m.data);
    FinishCount(Process(c, kind, w0, m.data), x);
    hide InMsgs, Process;
  }

  lemma FinishCount(w: Worker, x: nat)
    ensures InMsgs(w.outq + [Msg(w.bufReorder, false, true), Msg(w.buf, true, false)], x)
         == InMsgs(w.outq, x) + multiset(w.bufReorder)[x] + multiset(w.buf)[x]
    ensures InMsgs(w.outq + [Msg(w.buf, true, false)], x) == InMsgs(w.outq, x) + multiset(w.buf)[x]
  {
    InMsgsAppend(w.outq, Msg(w.buf, true, false), x);
    InMsgsAppend(w.outq, Msg(w.bufReorder, false, true), x);
    InMsgsAppend(w.outq + [Msg(w.bufReorder, false, true)], Msg(w.buf, true, false), x);
    assert w.outq + [Msg(w.bufReorder, false, true), Msg(w.buf, true, false)]
        == w.outq + [Msg(w.bufReorder, false, true)] + [Msg(w.buf, true, false)];
  }

  /** A worker passes the token on exactly when it gets it, as its final output and with empty hands. */
  lemma ServiceShape(c: Config, kind: Kind, w: Worker)
    requires w.inq != [] && !(w.inq[0].bypass && w.inq[0].last) && (kind != Deduplicate ==> w.bufReorder == [])
    requires NoLast(w.outq) && BypassOk(w.outq)
    ensures Service(c, kind, w).inq == w.inq[1..] && (kind != Deduplicate ==> Service(c, kind, w).bufReorder == [])
    ensures BypassOk(Service(c, kind, w).outq)
    ensures !w.inq[0].last ==> NoLast(Service(c, kind, w).outq)
    ensures w.inq[0].last ==> Ended(Service(c, kind, w).outq) && WellEnded(Service(c, kind, w).outq)
    ensures w.inq[0].last ==> Service(c, kind, w).buf == [] && Service(c, kind, w).bufReorder == []
  {
    ProcessShape(c, kind, w.(inq := w.inq[1..]), w.inq[0].data);
    hide Process;
  }

  // The farm.

  lemma EmitCount(f: Farm, stream: seq<Msg>, w: nat)
    requires f.taken < |stream| && w < |f.ws| && Conserved(f, stream)
    ensures Conserved(Emit(f, stream[f.taken], w), stream)
  {
    var m, f' := stream[f.taken], Emit(f, stream[f.taken], w);
    assert stream[..f.taken + 1] == stream[..f.taken] + [m];
    forall x: nat ensures InMsgs(stream[..f'.taken], x) == Sum(InWorkers(f'.ws, x)) + InMsgs(f'.sent, x) {
      InMsgsAppend(stream[..f.taken], m, x);
      assert InMsgs(stream[..f.taken], x) == Sum(InWorkers(f.ws, x)) + InMsgs(f.sent, x);
      if m.last { BroadcastCount(f.ws, m, x); } else {
        Receives(f.ws[w], m, x);
        UpdateWorker(f.ws, w, f.ws[w].(inq := f.ws[w].inq + [m]), x);
      }
    }
  }

  lemma BroadcastCount(ws: seq<Worker>, m: Msg, x: nat)
    requires |ws| > 0
    ensures Sum(InWorkers(Broadcast(ws, m), x)) == Sum(InWorkers(ws, x)) + multiset(m.data)[x]
  {
    hide InWorker;
    var ws', n := Broadcast(ws, m), multiset(m.data)[x];
    var s, s' := InWorkers(ws, x), InWorkers(ws', x);
    forall i | 0 <= i < |ws| ensures s'[i] == s[i] + if i == 0 then n else 0 {
      Receives(ws[i], if i == 0 then m else Msg([], true, false), x);
    }
    assert s' == s[0 := s[0] + n];
    SumUpdate(s, 0, s[0] + n);
  }

  lemma Receives(w: Worker, m: Msg, x: nat)
    ensures InWorker(w.(inq := w.inq + [m]), x) == InWorker(w, x) + multiset(m.data)[x]
  {
    InMsgsAppend(w.inq, m, x);
  }

  /** What worker i gets when the emitter has chosen worker w: the token goes to all. */
  function ShareOf(m: Msg, w: nat, i: nat): seq<Msg>
  {
    if !m.last then (if i == w then [m] else []) else if i == 0 then [m] else [Msg([], true, false)]
  }

  lemma EmitKeeps(c: Config, f: Farm, stream: seq<Msg>, w: nat, isReorder: bool)
    requires FarmOk(c, f, stream, isReorder) && f.taken < |stream| && w < c.nw
    ensures FarmOk(c, Emit(f, stream[f.taken], w), stream, isReorder)
    ensures |Emit(f, stream[f.taken], w).ws| == c.nw
    ensures forall i :: 0 <= i < c.nw ==> Emit(f, stream[f.taken], w).ws[i].inq == f.ws[i].inq + ShareOf(stream[f.taken], w, i)
  {
    EmitSendsAll(c, f, stream, w, isReorder);
    EmitShares(f, stream[f.taken], w);
    hide *;
  }

  lemma EmitShares(f: Farm, m: Msg, w: nat)
    requires w < |f.ws|
    ensures |Emit(f, m, w).ws| == |f.ws|
    ensures forall i :: 0 <= i < |f.ws| ==> Emit(f, m, w).ws[i].inq == f.ws[i].inq + ShareOf(m, w, i)
  {
  }

  lemma EmitSendsAll(c: Config, f: Farm, stream: seq<Msg>, w: nat, isReorder: bool)
    requires FarmOk(c, f, stream, isReorder) && f.taken < |stream| && w < c.nw
    ensures |f.ws| == c.nw && FarmOk(c, Emit(f, stream[f.taken], w), stream, isReorder)
  {
    var m, f' := stream[f.taken], Emit(f, stream[f.taken], w);
    EmitCount(f, stream, w);
    hide Conserved;
    assert !(m.bypass && m.last);
    if m.last {
      forall i | 0 <= i < c.nw ensures WorkerClosing(f'.ws[i]) && !Drained(f'.ws[i]) {}
      SumZero(DrainedCount(f'.ws));
    }
  }

  lemma ServeKeeps(c: Config, f: Farm, stream: seq<Msg>, w: nat, isReorder: bool)
    requires FarmOk(c, f, stream, isReorder) && w < c.nw && f.ws[w].inq != []
    ensures FarmOk(c, f.(ws := f.ws[w := Service(c, f.kind, f.ws[w])]), stream, isReorder)
  {
    var w0, w1 := f.ws[w], Service(c, f.kind, f.ws[w]);
    var f' := f.(ws := f.ws[w := w1]);
    ServiceShape(c, f.kind, w0);
    assert Conserved(f', stream) by {
      forall x: nat ensures Sum(InWorkers(f'.ws, x)) == Sum(InWorkers(f.ws, x)) {
        ServiceCount(c, f.kind, w0, x);
        UpdateWorker(f.ws, w, w1, x);
      }
    }
    hide Conserved, Service;
    assert !Drained(w0);
    if Ended(stream) && f.taken == |stream| {
      ServeClosing(c, f.kind, w0);
      assert DrainedCount(f'.ws) == DrainedCount(f.ws);
    } else {
      assert WorkerOpen(w0);
    }
  }

  lemma ServeClosing(c: Config, kind: Kind, w0: Worker)
    requires WorkerClosing(w0) && w0.inq != [] && WorkerOk(kind, w0)
    ensures WorkerClosing(Service(c, kind, w0)) && !Drained(Service(c, kind, w0))
  {
    ServiceShape(c, kind, w0);
    hide Service;
    var w1 := Service(c, kind, w0);
    if w0.inq[0].last { assert |w0.inq| == 1; } else { assert Ended(w1.inq); }
  }

  lemma {:induction false} AllOnes(s: seq<int>)
    requires (forall k :: 0 <= k < |s| ==> s[k] <= 1) && Sum(s) == |s|
    ensures forall k :: 0 <= k < |s| ==> s[k] == 1
  {
    if s != [] {
      AtMost(s[..|s| - 1]);
      AllOnes(s[..|s| - 1]);
    }
  }

  lemma {:induction false} AtMost(s: seq<int>)
    requires forall k :: 0 <= k < |s| ==> s[k] <= 1
    ensures Sum(s) <= |s|
  {
    if s != [] { AtMost(s[..|s| - 1]); }
  }

  lemma CollectCount(c: Config, f: Farm, stream: seq<Msg>, w: nat, isReorder: bool)
    requires w < |f.ws| && f.ws[w].outq != [] && f.taken <= |stream| && Conserved(f, stream)
    ensures Conserved(Collect(c, f, w, isReorder), stream)
  {
    var f' := Collect(c, f, w, isReorder);
    assert f'.taken == f.taken;
    forall x: nat ensures InMsgs(stream[..f.taken], x) == Sum(InWorkers(f'.ws, x)) + InMsgs(f'.sent, x) {
      assert InMsgs(stream[..f.taken], x) == Sum(InWorkers(f.ws, x)) + InMsgs(f.sent, x);
      hide *;
      CollectOne(c, f, w, isReorder, x);
    }
  }

  lemma CollectOne(c: Config, f: Farm, w: nat, isReorder: bool, x: nat)
    requires w < |f.ws| && f.ws[w].outq != []
    ensures var f' := Collect(c, f, w, isReorder);
      Sum(InWorkers(f'.ws, x)) + InMsgs(f'.sent, x) == Sum(InWorkers(f.ws, x)) + InMsgs(f.sent, x)
  {
    var f', m, w1 := Collect(c, f, w, isReorder), f.ws[w].outq[0], f.ws[w].(outq := f.ws[w].outq[1..]);
    assert f'.ws == f.ws[w := w1];
    assert f'.sent == f.sent + [m] || f'.sent == f.sent + [m.(last := false)];
    assert InWorker(w1, x) == InWorker(f.ws[w], x) - multiset(m.data)[x] by { InMsgsHead(f.ws[w].outq, x); }
    hide *;
    UpdateWorker(f.ws, w, w1, x);
    InMsgsAppend(f.sent, m, x);
    InMsgsAppend(f.sent, m.(last := false), x);
  }

  /** The collector's step: the nw-th token is forwarded, all others are swallowed. */
  lemma CollectKeeps(c: Config, f: Farm, stream: seq<Msg>, w: nat, isReorder: bool)
    requires FarmOk(c, f, stream, isReorder) && w < c.nw && f.ws[w].outq != []
    ensures FarmOk(c, Collect(c, f, w, isReorder), stream, isReorder)
    ensures !Ended(f.sent) && exists m: Msg :: Collect(c, f, w, isReorder).sent == f.sent + [m]
  {
    CollectCount(c, f, stream, w, isReorder);
    CollectSends(c, f, stream, w, isReorder);
    CollectTokens(c, f, stream, w, isReorder);
    hide Conserved, TokenOk, WellEnded, BypassOk, WorkerOk, Ended;
  }

  lemma CollectSends(c: Config, f: Farm, stream: seq<Msg>, w: nat, isReorder: bool)
    requires FarmOk(c, f, stream, isReorder) && w < c.nw && f.ws[w].outq != []
    ensures !Ended(f.sent) && exists m: Msg :: Collect(c, f, w, isReorder).sent == f.sent + [m]
    ensures WellEnded(Collect(c, f, w, isReorder).sent) && BypassOk(Collect(c, f, w, isReorder).sent)
    ensures |Collect(c, f, w, isReorder).ws| == c.nw && forall i :: 0 <= i < c.nw ==> WorkerOk(f.kind, Collect(c, f, w, isReorder).ws[i])
  {
    hide Conserved, WorkerClosing, WorkerOpen;
    var f', m := Collect(c, f, w, isReorder), f.ws[w].outq[0];
    assert WorkerOk(f.kind, f.ws[w]) && !Drained(f.ws[w]);
    assert f'.sent == f.sent + [f'.sent[|f.sent|]];
  }

  lemma CollectTokens(c: Config, f: Farm, stream: seq<Msg>, w: nat, isReorder: bool)
    requires FarmOk(c, f, stream, isReorder) && w < c.nw && f.ws[w].outq != []
    ensures |Collect(c, f, w, isReorder).ws| == c.nw && TokenOk(c, Collect(c, f, w, isReorder), stream, isReorder)
  {
    hide Conserved, WellEnded, BypassOk, WorkerOk;
    var w0 := f.ws[w];
    var w1 := w0.(outq := w0.outq[1..]);
    assert !Drained(w0);
    if Ended(stream) && f.taken == |stream| {
      CollectClosing(w0, w1);
      hide Drained, WorkerClosing, NoLast, WorkerOpen;
      TokenCount(f.ws, w, w1, w0.outq[0].last);
    } else {
      assert WorkerOpen(w0);
    }
  }

  lemma TokenCount(ws: seq<Worker>, w: nat, w1: Worker, last: bool)
    requires w < |ws| && !Drained(ws[w]) && (Drained(w1) <==> last)
    ensures Sum(DrainedCount(ws[w := w1])) == Sum(DrainedCount(ws)) + if last then 1 else 0
    ensures Sum(DrainedCount(ws[w := w1])) == |ws| ==> var ws' := ws[w := w1]; forall i :: 0 <= i < |ws'| ==> Drained(ws'[i])
  {
    hide Drained;
    var ws' := ws[w := w1];
    var d := DrainedCount(ws');
    assert d == DrainedCount(ws)[w := if last then 1 else 0];
    SumUpdate(DrainedCount(ws), w, if last then 1 else 0);
    if Sum(d) == |ws| {
      AllOnes(d);
      forall i | 0 <= i < |ws'| ensures Drained(ws'[i]) { assert d[i] == 1; }
    }
  }

  lemma CollectClosing(w0: Worker, w1: Worker)
    requires w0.outq != [] && w1 == w0.(outq := w0.outq[1..]) && WorkerClosing(w0)
    ensures WorkerClosing(w1) && (Drained(w1) <==> w0.outq[0].last)
  {
    if w0.inq == [] {
      assert w0.outq[|w0.outq| - 1].last;
    }
  }

  /** The input stream may grow until its token has come. */
  lemma StreamGrows(c: Config, f: Farm, stream: seq<Msg>, m: Msg, isReorder: bool)
    requires FarmOk(c, f, stream, isReorder) && !Ended(stream) && WellEnded(stream + [m]) && BypassOk(stream + [m])
    ensures FarmOk(c, f, stream + [m], isReorder)
  {
    assert (stream + [m])[..f.taken] == stream[..f.taken];
  }
}
