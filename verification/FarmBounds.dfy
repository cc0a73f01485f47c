/** Every run of the pipeline of farms is finite: what has been read from a channel is never read again, a chunk fills at most one more
  * buffer per farm, and a token becomes at most nw tokens and nw bypass buffers per farm.
  */
module FarmBounds {
  import opened Sums
  import opened Farms
  import opened FarmRuns

  /** The price of a buffer without and with the token, and of a chunk in it. */
  datatype Price = Price(buffer: nat, last: nat, chunk: nat)

  /** Prices of a worker's input, of its send buffers (per chunk) and of its output. */
  datatype Prices = Prices(inp: Price, held: nat, outp: Price)

  /** The price in the stream before farm k; nothing behind the last farm costs anything. */
  function StreamPrice(nw: nat, k: nat): Price
    requires k <= 3
    decreases 3 - k
  {
    if k == 3 then Price(0, 0, 0)
    else
      var p := FarmPrices(nw, k);
      Price(p.inp.buffer + 1, Times(nw, p.inp.last) + 1, p.inp.chunk)
  }

  function FarmPrices(nw: nat, k: nat): Prices
    requires k < 3
    decreases 3 - k, 0
  {
    var next := StreamPrice(nw, k + 1);
    var out := Price(next.buffer + 1, next.last + 1, next.chunk);
    var held := out.chunk + out.buffer;
    Prices(Price(out.buffer + 1, out.buffer + out.last + 1, held), held, out)
  }

  function MsgCost(m: Msg, p: Price): nat { (if m.last then p.last else p.buffer) + Times(|m.data|, p.chunk) }

  function Cost(q: seq<Msg>, p: Price): nat
  {
    if q == [] then 0 else MsgCost(q[0], p) + Cost(q[1..], p)
  }

  lemma {:induction false} CostAppend(q: seq<Msg>, m: Msg, p: Price)
    ensures Cost(q + [m], p) == Cost(q, p) + MsgCost(m, p)
  {
    if q == [] {
      assert q + [m] == [m] && [m][1..] == [];
    } else {
      CostAppend(q[1..], m, p);
      assert (q + [m])[1..] == q[1..] + [m];
    }
  }

  function WorkerCost(w: Worker, p: Prices): nat
  {
    Cost(w.inq, p.inp) + Times(|w.buf|, p.held) + Times(|w.bufReorder|, p.held) + Cost(w.outq, p.outp)
  }

  /** The chunks held pay for the buffer they are sent in. */
  ghost predicate Fair(p: Prices)
  {
    && p.held == p.outp.chunk + p.outp.buffer == p.inp.chunk
    && p.inp.buffer > p.outp.buffer && p.inp.last > p.outp.buffer + p.outp.last
  }

  lemma PricesFair(nw: nat, k: nat)
    requires k < 3
    ensures Fair(FarmPrices(nw, k))
  {
  }

  lemma SendBuffer(data: seq<nat>, bypass: bool, p: Prices)
    requires Fair(p) && data != []
    ensures MsgCost(Msg(data, false, bypass), p.outp) <= Times(|data|, p.held)
  {
    TimesSum(|data|, p.outp.chunk, p.outp.buffer);
    TimesMonotone(|data|, p.outp.buffer);
  }

  lemma SendLast(data: seq<nat>, last: bool, bypass: bool, p: Prices)
    requires Fair(p)
    ensures MsgCost(Msg(data, last, bypass), p.outp) <= Times(|data|, p.held) + if last then p.outp.last else p.outp.buffer
  {
    TimesSum(|data|, p.outp.chunk, p.outp.buffer);
  }

  lemma FlushCost(c: Config, w: Worker, p: Prices)
    requires Fair(p) && c.cap > 0
    ensures WorkerCost(FlushFull(c, w), p) <= WorkerCost(w, p)
  {
    hide Fair, MsgCost, Cost;
    var w1 := if |w.buf| >= c.cap then w.(buf := [], outq := w.outq + [Msg(w.buf, false, false)]) else w;
    if |w.buf| >= c.cap {
      SendBuffer(w.buf, false, p);
      CostAppend(w.outq, Msg(w.buf, false, false), p.outp);
    }
    if |w1.bufReorder| >= c.cap {
      SendBuffer(w1.bufReorder, true, p);
      CostAppend(w1.outq, Msg(w1.bufReorder, false, true), p.outp);
    }
  }

  lemma {:induction false} ProcessCost(c: Config, kind: Kind, w: Worker, data: seq<nat>, p: Prices)
    requires Fair(p) && c.cap > 0
    ensures WorkerCost(Process(c, kind, w, data), p) <= WorkerCost(w, p) + Times(|data|, p.held)
    decreases |data|
  {
    hide Fair, Cost, FlushFull;
    if data != [] {
      var x := data[0];
      var w1 := if kind == Deduplicate && c.isDuplicate(x) then w.(bufReorder := w.bufReorder + [x]) else w.(buf := w.buf + [x]);
      assert WorkerCost(w1, p) == WorkerCost(w, p) + p.held;
      hide WorkerCost;
      FlushCost(c, w1, p);
      ProcessCost(c, kind, FlushFull(c, w1), data[1..], p);
    }
  }

  /** A worker's step costs something. */
  lemma ServiceCost(c: Config, kind: Kind, w: Worker, p: Prices)
    requires Fair(p) && c.cap > 0 && w.inq != [] && !(w.inq[0].bypass && w.inq[0].last)
    ensures WorkerCost(Service(c, kind, w), p) < WorkerCost(w, p)
  {
    var m, w0 := w.inq[0], w.(inq := w.inq[1..]);
    assert WorkerCost(w, p) == WorkerCost(w0, p) + MsgCost(m, p.inp);
    if kind == Compress && m.bypass {
      PassOn(w0, m, p);
    } else {
      ProcessCost(c, kind, w0, m.data, p);
      assert MsgCost(m, p.inp) == Times(|m.data|, p.held) + if m.last then p.inp.last else p.inp.buffer;
      var w1 := Process(c, kind, w0, m.data);
      assert p.inp.buffer > 0;
      hide Process, Cost, MsgCost;
      if m.last { FinishCost(w1, p, kind == Deduplicate); }
    }
  }

  lemma PassOn(w: Worker, m: Msg, p: Prices)
    requires Fair(p) && !m.last
    ensures WorkerCost(w.(outq := w.outq + [m]), p) < WorkerCost(w, p) + MsgCost(m, p.inp)
  {
    CostAppend(w.outq, m, p.outp);
    TimesSum(|m.data|, p.outp.chunk, p.outp.buffer);
  }

  lemma FinishCost(w: Worker, p: Prices, both: bool)
    requires Fair(p)
    ensures WorkerCost(if both then w.(buf := [], bufReorder := [], outq := w.outq + [Msg(w.bufReorder, false, true), Msg(w.buf, true, false)])
                       else w.(buf := [], outq := w.outq + [Msg(w.buf, true, false)]), p)
      <= WorkerCost(w, p) + p.outp.buffer + p.outp.last
  {
    hide Cost, MsgCost, Fair;
    SendLast(w.buf, true, false, p);
    if both {
      SendLast(w.bufReorder, false, true, p);
      CostAppend(w.outq, Msg(w.bufReorder, false, true), p.outp);
      CostAppend(w.outq + [Msg(w.bufReorder, false, true)], Msg(w.buf, true, false), p.outp);
      assert w.outq + [Msg(w.bufReorder, false, true), Msg(w.buf, true, false)]
          == w.outq + [Msg(w.bufReorder, false, true)] + [Msg(w.buf, true, false)];
    } else {
      CostAppend(w.outq, Msg(w.buf, true, false), p.outp);
    }
  }

  ghost function WorkerCosts(ws: seq<Worker>, p: Prices): seq<int> { seq(|ws|, i requires 0 <= i < |ws| => WorkerCost(ws[i], p)) }

  lemma UpdateCost(ws: seq<Worker>, i: nat, w: Worker, p: Prices)
    requires i < |ws|
    ensures Sum(WorkerCosts(ws[i := w], p)) == Sum(WorkerCosts(ws, p)) - WorkerCost(ws[i], p) + WorkerCost(w, p)
  {
    hide WorkerCost;
    assert WorkerCosts(ws[i := w], p) == WorkerCosts(ws, p)[i := WorkerCost(w, p)];
    SumUpdate(WorkerCosts(ws, p), i, WorkerCost(w, p));
  }

  /** What is still to be done in farm k and on its input. */
  ghost function FarmCost(nw: nat, k: nat, f: Farm, stream: seq<Msg>): int
    requires k < 3 && f.taken <= |stream|
  {
    Cost(stream[f.taken..], StreamPrice(nw, k)) + Sum(WorkerCosts(f.ws, FarmPrices(nw, k)))
  }

  lemma GetMessage(w: Worker, m: Msg, p: Prices)
    ensures WorkerCost(w.(inq := w.inq + [m]), p) == WorkerCost(w, p) + MsgCost(m, p.inp)
  {
    CostAppend(w.inq, m, p.inp);
  }

  lemma {:induction false} SumPlus(s: seq<int>, s': seq<int>, a: nat)
    requires |s| == |s'| && forall i :: 0 <= i < |s| ==> s'[i] == s[i] + a
    ensures Sum(s') == Sum(s) + Times(|s|, a)
  {
    if s != [] { SumPlus(s[..|s| - 1], s'[..|s| - 1], a); }
  }

  lemma BroadcastCost(ws: seq<Worker>, m: Msg, p: Prices)
    requires ws != [] && m.last
    ensures Sum(WorkerCosts(Broadcast(ws, m), p)) == Sum(WorkerCosts(ws, p)) + Times(|ws|, p.inp.last) + Times(|m.data|, p.inp.chunk)
  {
    hide MsgCost, Times, WorkerCost, Cost;
    forall i | 0 <= i < |ws| ensures WorkerCosts(Broadcast(ws, m), p)[i]
      == WorkerCosts(ws, p)[i] + p.inp.last + if i == 0 then Times(|m.data|, p.inp.chunk) else 0
    {
      BroadcastEach(ws, m, p, i);
    }
    hide Broadcast;
    SumRaised(WorkerCosts(ws, p), WorkerCosts(Broadcast(ws, m), p), p.inp.last, Times(|m.data|, p.inp.chunk));
  }

  lemma SumRaised(s: seq<int>, s': seq<int>, a: nat, d: nat)
    requires |s| == |s'| > 0 && forall i :: 0 <= i < |s| ==> s'[i] == s[i] + a + if i == 0 then d else 0
    ensures Sum(s') == Sum(s) + Times(|s|, a) + d
  {
    hide Sum, Times;
    SumUpdate(s, 0, s[0] + d);
    SumPlus(s[0 := s[0] + d], s', a);
  }

  lemma BroadcastEach(ws: seq<Worker>, m: Msg, p: Prices, i: nat)
    requires i < |ws| && m.last
    ensures WorkerCost(Broadcast(ws, m)[i], p) == WorkerCost(ws[i], p) + p.inp.last + if i == 0 then Times(|m.data|, p.inp.chunk) else 0
  {
    GetMessage(ws[i], if i == 0 then m else Msg([], true, false), p);
  }

  lemma EmitCost(nw: nat, k: nat, f: Farm, stream: seq<Msg>, w: nat)
    requires k < 3 && f.taken < |stream| && w < |f.ws| == nw
    ensures FarmCost(nw, k, Emit(f, stream[f.taken], w), stream) < FarmCost(nw, k, f, stream)
  {
    var m, p := stream[f.taken], FarmPrices(nw, k);
    assert stream[f.taken..] == [m] + stream[f.taken + 1..];
    assert Cost(stream[f.taken..], StreamPrice(nw, k)) == MsgCost(m, StreamPrice(nw, k)) + Cost(stream[f.taken + 1..], StreamPrice(nw, k));
    assert MsgCost(m, StreamPrice(nw, k)) == 1 + (if m.last then Times(nw, p.inp.last) else p.inp.buffer) + Times(|m.data|, p.inp.chunk);
    hide Cost, WorkerCost, StreamPrice, FarmPrices, Times;
    if m.last { BroadcastCost(f.ws, m, p); } else {
      GetMessage(f.ws[w], m, p);
      UpdateCost(f.ws, w, f.ws[w].(inq := f.ws[w].inq + [m]), p);
    }
  }

  lemma CollectCost(c: Config, k: nat, f: Farm, stream: seq<Msg>, w: nat, isReorder: bool, m': Msg)
    requires k < 3 && f.taken <= |stream| && w < |f.ws| && f.ws[w].outq != [] && c.nw > 0
    requires Collect(c, f, w, isReorder).sent == f.sent + [m']
    ensures FarmCost(c.nw, k, Collect(c, f, w, isReorder), stream) + MsgCost(m', StreamPrice(c.nw, k + 1)) < FarmCost(c.nw, k, f, stream)
  {
    var m, p := f.ws[w].outq[0], FarmPrices(c.nw, k);
    var w1 := f.ws[w].(outq := f.ws[w].outq[1..]);
    assert WorkerCost(f.ws[w], p) == WorkerCost(w1, p) + MsgCost(m, p.outp);
    UpdateCost(f.ws, w, w1, p);
    assert m' == (f.sent + [m'])[|f.sent|];
    assert m'.data == m.data && (m'.last ==> m.last);
    LastCostsMore(c.nw, k + 1);
    hide Cost, WorkerCost, Times;
  }

  lemma LastCostsMore(nw: nat, k: nat)
    requires k <= 3 && nw > 0
    ensures StreamPrice(nw, k).last >= StreamPrice(nw, k).buffer
  {
    if k < 3 { TimesMonotone(nw, FarmPrices(nw, k).inp.last); }
  }

  /** What the whole pipeline has still to do. */
  ghost function Measure(c: Config, s: System): int
    requires Inv(c, s)
  {
    assert forall k :: 0 <= k < 3 ==> FarmOk(c, s.farms[k], Stream(s, k), k == 2);
    FarmCost(c.nw, 0, s.farms[0], Stream(s, 0)) + FarmCost(c.nw, 1, s.farms[1], Stream(s, 1)) + FarmCost(c.nw, 2, s.farms[2], Stream(s, 2))
  }

  lemma MeasurePositive(c: Config, s: System)
    requires Inv(c, s)
    ensures Measure(c, s) >= 0
  {
    forall k | 0 <= k < 3 ensures s.farms[k].taken <= |Stream(s, k)| && FarmCost(c.nw, k, s.farms[k], Stream(s, k)) >= 0 {
      assert FarmOk(c, s.farms[k], Stream(s, k), k == 2);
      var a := WorkerCosts(s.farms[k].ws, FarmPrices(c.nw, k));
      SumNonNegative(a);
    }
  }

  /** The farm that moves gets cheaper by more than the next one, which may see a new message, gets dearer. */
  lemma StepCost(c: Config, s: System, step: Step)
    requires Inv(c, s) && Enabled(c, s, step) && Inv(c, Apply(c, s, step))
    ensures Measure(c, Apply(c, s, step)) < Measure(c, s)
  {
    var s', k := Apply(c, s, step), step.k;
    forall j | 0 <= j < 3 ensures s.farms[j].taken <= |Stream(s, j)| && s'.farms[j].taken <= |Stream(s', j)| {
      assert FarmOk(c, s.farms[j], Stream(s, j), j == 2) && FarmOk(c, s'.farms[j], Stream(s', j), j == 2);
    }
    hide FarmCost, FarmOk, Enabled, Apply, SourceOk;
    StepPrices(c, s, step);
  }

  lemma StepPrices(c: Config, s: System, step: Step)
    requires Inv(c, s) && Enabled(c, s, step) && Inv(c, Apply(c, s, step))
    requires forall j :: 0 <= j < 3 ==> s.farms[j].taken <= |Stream(s, j)|
    requires forall j :: 0 <= j < 3 ==> Apply(c, s, step).farms[j].taken <= |Stream(Apply(c, s, step), j)|
    ensures var s' := Apply(c, s, step);
      FarmCost(c.nw, 0, s'.farms[0], Stream(s', 0)) + FarmCost(c.nw, 1, s'.farms[1], Stream(s', 1)) + FarmCost(c.nw, 2, s'.farms[2], Stream(s', 2))
      < FarmCost(c.nw, 0, s.farms[0], Stream(s, 0)) + FarmCost(c.nw, 1, s.farms[1], Stream(s, 1)) + FarmCost(c.nw, 2, s.farms[2], Stream(s, 2))
  {
    hide FarmCost, Service, Collect, MsgCost;
    var s', k, w := Apply(c, s, step), step.k, step.w;
    var f, f', stream := s.farms[k], s'.farms[k], Stream(s, k);
    assert FarmOk(c, f, stream, k == 2);
    assert !step.Collecting? ==> f'.sent == f.sent;
    hide Emit;
    hide FarmOk;
    match step {
      case Emitting(_, _) => EmitCost(c.nw, k, f, stream, w);
      case Serving(_, _) => ServeCost(c, k, f, stream, w, k == 2);
      case Collecting(_, _) =>
        CollectKeeps(c, f, stream, w, k == 2);
        var m: Msg :| f'.sent == f.sent + [m];
        CollectCost(c, k, f, stream, w, k == 2, m);
        if k < 2 { MessageArrives(c.nw, k + 1, s.farms[k + 1], f.sent, m); }
    }
  }

  lemma ServeCost(c: Config, k: nat, f: Farm, stream: seq<Msg>, w: nat, isReorder: bool)
    requires k < 3 && FarmOk(c, f, stream, isReorder) && w < c.nw && f.ws[w].inq != []
    ensures FarmCost(c.nw, k, f.(ws := f.ws[w := Service(c, f.kind, f.ws[w])]), stream) < FarmCost(c.nw, k, f, stream)
  {
    PricesFair(c.nw, k);
    assert WorkerOk(f.kind, f.ws[w]);
    hide FarmPrices, Service, Cost;
    ServiceCost(c, f.kind, f.ws[w], FarmPrices(c.nw, k));
    UpdateCost(f.ws, w, Service(c, f.kind, f.ws[w]), FarmPrices(c.nw, k));
  }

  lemma MessageArrives(nw: nat, k: nat, f: Farm, stream: seq<Msg>, m: Msg)
    requires k < 3 && f.taken <= |stream|
    ensures FarmCost(nw, k, f, stream + [m]) == FarmCost(nw, k, f, stream) + MsgCost(m, StreamPrice(nw, k))
  {
    assert (stream + [m])[f.taken..] == stream[f.taken..] + [m];
    CostAppend(stream[f.taken..], m, StreamPrice(nw, k));
  }

  /** No run is longer than what its first state costs. */
  lemma {:induction false} RunLength(c: Config, s: System, steps: seq<Step>, s': System)
    requires Inv(c, s) && Run(c, s, steps, s')
    ensures Inv(c, s') && |steps| + Measure(c, s') <= Measure(c, s)
    decreases |steps|
  {
    if steps != [] {
      StepKeeps(c, s, steps[0]);
      StepCost(c, s, steps[0]);
      hide Measure, Inv, Enabled, Apply;
      RunLength(c, Apply(c, s, steps[0]), steps[1..], s');
    }
  }

  /** Every run is finite, with a bound that depends on the source and the configuration only. */
  lemma RunsAreBounded(c: Config, source: seq<Msg>, steps: seq<Step>, s: System)
    requires SourceOk(c, source) && Run(c, Initial(c, source), steps, s)
    ensures Inv(c, Initial(c, source)) && |steps| <= Measure(c, Initial(c, source))
  {
    InvInitially(c, source);
    RunLength(c, Initial(c, source), steps, s);
    MeasurePositive(c, s);
  }
}
