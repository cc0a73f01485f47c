/** The three farms in a row, and their runs: Fragment and the FragmentRefine farm, the Deduplicate farm, the Compress farm
  * with Reorder as its collector.
  */
module FarmRuns {
  import opened Sums
  import opened Farms
  import opened FarmRoutes

  /** `source` is the stream of buffers that Fragment fills; the input of every other farm is what the farm before it has sent. */
  datatype System = System(source: seq<Msg>, farms: seq<Farm>)

  datatype Step = Emitting(k: nat, w: nat) | Serving(k: nat, w: nat) | Collecting(k: nat, w: nat)

  ghost predicate Shaped(c: Config, s: System)
  {
    && |s.farms| == 3 && s.farms[0].kind == FragmentRefine && s.farms[1].kind == Deduplicate && s.farms[2].kind == Compress
    && (forall k :: 0 <= k < 3 ==> |s.farms[k].ws| == c.nw)
  }

  function Stream(s: System, k: nat): seq<Msg>
    requires k <= |s.farms|
  {
    if k == 0 then s.source else s.farms[k - 1].sent
  }

  ghost predicate Enabled(c: Config, s: System, step: Step)
    requires Shaped(c, s)
  {
    && step.k < 3 && step.w < c.nw
    && match step
       case Emitting(k, w) => s.farms[k].taken < |Stream(s, k)|
       case Serving(k, w) => s.farms[k].ws[w].inq != []
       case Collecting(k, w) => s.farms[k].ws[w].outq != []
  }

  function Apply(c: Config, s: System, step: Step): System
    requires Shaped(c, s) && Enabled(c, s, step)
  {
    match step
    case Emitting(k, w) => s.(farms := s.farms[k := Emit(s.farms[k], Stream(s, k)[s.farms[k].taken], w)])
    case Serving(k, w) =>
      var f := s.farms[k];
      s.(farms := s.farms[k := f.(ws := f.ws[w := Service(c, f.kind, f.ws[w])])])
    case Collecting(k, w) => s.(farms := s.farms[k := Collect(c, s.farms[k], w, k == 2)])
  }

  function Idle(kind: Kind, nw: nat): Farm { Farm(kind, 0, seq(nw, _ => Worker([], [], [], [])), 0, []) }

  /** Fragment's stream ends with the token and has no other. */
  ghost predicate SourceOk(c: Config, source: seq<Msg>)
  {
    c.nw > 0 && c.cap > 0 && Ended(source) && WellEnded(source) && BypassOk(source)
  }

  function Initial(c: Config, source: seq<Msg>): System
  {
    System(source, [Idle(FragmentRefine, c.nw), Idle(Deduplicate, c.nw), Idle(Compress, c.nw)])
  }

  ghost predicate Inv(c: Config, s: System)
  {
    && Shaped(c, s) && SourceOk(c, s.source)
    && (forall k :: 0 <= k < 3 ==> FarmOk(c, s.farms[k], Stream(s, k), k == 2))
    && (forall k :: 0 <= k < 3 ==> FarmRouted(c, s.farms[k]))
  }

  lemma IdleOk(c: Config, kind: Kind, stream: seq<Msg>, isReorder: bool)
    requires c.nw > 0 && c.cap > 0 && WellEnded(stream) && BypassOk(stream)
    ensures FarmOk(c, Idle(kind, c.nw), stream, isReorder) && FarmRouted(c, Idle(kind, c.nw))
  {
    var f := Idle(kind, c.nw);
    assert stream[..0] == [];
    forall x: nat ensures Sum(InWorkers(f.ws, x)) == 0 { SumZero(InWorkers(f.ws, x)); }
  }

  lemma InvInitially(c: Config, source: seq<Msg>)
    requires SourceOk(c, source)
    ensures Inv(c, Initial(c, source))
  {
    IdleOk(c, FragmentRefine, source, false);
    IdleOk(c, Deduplicate, [], false);
    IdleOk(c, Compress, [], true);
  }

  lemma MovedKeeps(c: Config, s: System, step: Step)
    requires Inv(c, s) && Enabled(c, s, step)
    ensures |Apply(c, s, step).farms| == 3 && FarmOk(c, Apply(c, s, step).farms[step.k], Stream(s, step.k), step.k == 2)
  {
    var k, w := step.k, step.w;
    assert FarmOk(c, s.farms[k], Stream(s, k), k == 2);
    match step {
      case Emitting(_, _) => EmitKeeps(c, s.farms[k], Stream(s, k), w, k == 2);
      case Serving(_, _) => ServeKeeps(c, s.farms[k], Stream(s, k), w, k == 2);
      case Collecting(_, _) => CollectKeeps(c, s.farms[k], Stream(s, k), w, k == 2);
    }
  }

  /** The farms that have nothing to do with a step. */
  lemma OthersKept(c: Config, s: System, step: Step, j: nat)
    requires Inv(c, s) && Enabled(c, s, step) && j < 3 && j != step.k && j != step.k + 1
    ensures |Apply(c, s, step).farms| == 3 && FarmOk(c, Apply(c, s, step).farms[j], Stream(Apply(c, s, step), j), j == 2)
  {
    assert FarmOk(c, s.farms[j], Stream(s, j), j == 2);
    hide FarmOk, Emit, Service, Collect;
  }

  lemma StillShaped(c: Config, s: System, step: Step)
    requires Inv(c, s) && Enabled(c, s, step)
    ensures Shaped(c, Apply(c, s, step)) && Apply(c, s, step).source == s.source
    ensures Stream(Apply(c, s, step), step.k) == Stream(s, step.k)
  {
    KindKept(c, s, step);
    hide FarmOk, Emit, Service, Collect;
  }

  /** Whoever moves, the chunks go on as they should. */
  lemma RoutesKept(c: Config, s: System, step: Step, j: nat)
    requires Inv(c, s) && Enabled(c, s, step) && j < 3
    ensures |Apply(c, s, step).farms| == 3 && FarmRouted(c, Apply(c, s, step).farms[j])
  {
    var k, w := step.k, step.w;
    assert FarmRouted(c, s.farms[j]) && FarmRouted(c, s.farms[k]);
    if step.Emitting? && k == 2 { assert FarmRouted(c, s.farms[1]) && Stream(s, 2) == s.farms[1].sent; }
    assert c.cap > 0;
    hide FarmOk, WorkerRouted, SourceOk, Emit, Service, Collect, Shipped;
    match step {
      case Emitting(_, _) => EmitRoutes(c, s.farms[k], Stream(s, k)[s.farms[k].taken], w);
      case Serving(_, _) => ServeRoutes(c, s.farms[k], w);
      case Collecting(_, _) => CollectRoutes(c, s.farms[k], w, k == 2);
    }
  }

  /** Farm k has moved; farm k + 1 may see one more message. */
  lemma StepKeeps(c: Config, s: System, step: Step)
    requires Inv(c, s) && Enabled(c, s, step)
    ensures Inv(c, Apply(c, s, step))
  {
    hide FarmOk, Enabled, Apply, Stream, SourceOk, FarmRouted;
    var s', k := Apply(c, s, step), step.k;
    StillShaped(c, s, step);
    forall j | 0 <= j < 3 ensures FarmRouted(c, s'.farms[j]) { RoutesKept(c, s, step, j); }
    forall j | 0 <= j < 3 ensures FarmOk(c, s'.farms[j], Stream(s', j), j == 2) {
      if j == k { MovedKeeps(c, s, step); } else if j == k + 1 { NextSees(c, s, step); } else { OthersKept(c, s, step, j); }
    }
  }

  lemma KindKept(c: Config, s: System, step: Step)
    requires Shaped(c, s) && Enabled(c, s, step)
    ensures |Apply(c, s, step).farms| == 3
    ensures forall k :: 0 <= k < 3 ==> Apply(c, s, step).farms[k].kind == s.farms[k].kind && |Apply(c, s, step).farms[k].ws| == c.nw
  {
    hide Service;
  }

  lemma NextSees(c: Config, s: System, step: Step)
    requires Inv(c, s) && Enabled(c, s, step) && step.k + 1 < 3
    ensures FarmOk(c, Apply(c, s, step).farms[step.k + 1], Stream(Apply(c, s, step), step.k + 1), step.k + 1 == 2)
  {
    var s', k := Apply(c, s, step), step.k;
    var f, g := s.farms[k], s.farms[k + 1];
    assert FarmOk(c, g, f.sent, k + 1 == 2) by { assert Stream(s, k + 1) == f.sent; }
    if step.Collecting? {
      CollectKeeps(c, f, Stream(s, k), step.w, k == 2);
      var m: Msg :| s'.farms[k].sent == f.sent + [m];
      assert WellEnded(f.sent + [m]) && BypassOk(f.sent + [m]);
      hide FarmOk;
      StreamGrows(c, g, f.sent, m, k + 1 == 2);
    }
  }

  ghost predicate Run(c: Config, s: System, steps: seq<Step>, s': System)
    decreases |steps|
  {
    if steps == [] then s' == s
    else Shaped(c, s) && Enabled(c, s, steps[0]) && Run(c, Apply(c, s, steps[0]), steps[1..], s')
  }

  lemma {:induction false} RunKeeps(c: Config, s: System, steps: seq<Step>, s': System)
    requires Inv(c, s) && Run(c, s, steps, s')
    ensures Inv(c, s')
    decreases |steps|
  {
    hide Inv, Enabled, Apply;
    if steps != [] {
      StepKeeps(c, s, steps[0]);
      RunKeeps(c, Apply(c, s, steps[0]), steps[1..], s');
    }
  }

  /** In every run a collector sends the token at most once, and as the last thing it sends. */
  lemma AtMostOneToken(c: Config, source: seq<Msg>, steps: seq<Step>, s: System, k: nat, i: nat)
    requires SourceOk(c, source) && Run(c, Initial(c, source), steps, s) && k < 3
    requires |s.farms| == 3 && i < |s.farms[k].sent| && s.farms[k].sent[i].last
    ensures i == |s.farms[k].sent| - 1
  {
    InvInitially(c, source);
    RunKeeps(c, Initial(c, source), steps, s);
    assert FarmOk(c, s.farms[k], Stream(s, k), k == 2);
  }

  /** A farm that has sent the token has taken its whole input, is empty, and has sent on every chunk. */
  lemma TokenMeansAll(c: Config, f: Farm, stream: seq<Msg>, isReorder: bool, x: nat)
    requires FarmOk(c, f, stream, isReorder) && Ended(f.sent)
    ensures Ended(stream) && InMsgs(f.sent, x) == InMsgs(stream, x)
    ensures forall i :: 0 <= i < c.nw ==> Drained(f.ws[i])
  {
    assert stream[..f.taken] == stream;
    SumZero(InWorkers(f.ws, x));
  }

  /** Reorder counts its nw-th token only after every chunk has arrived, the bypassed ones included. */
  lemma ReorderHasAll(c: Config, source: seq<Msg>, steps: seq<Step>, s: System, x: nat)
    requires SourceOk(c, source) && Run(c, Initial(c, source), steps, s)
    requires |s.farms| == 3 && s.farms[2].rcvd == c.nw
    ensures InMsgs(s.farms[2].sent, x) == InMsgs(source, x)
    ensures InMsgs(source, x) > 0 && !c.isDuplicate(x) ==> Compressed(s.farms[2].sent, x)
    ensures forall k, i :: 0 <= k < 3 && 0 <= i < c.nw && i < |s.farms[k].ws| ==> Drained(s.farms[k].ws[i])
  {
    InvInitially(c, source);
    RunKeeps(c, Initial(c, source), steps, s);
    SourceKept(c, Initial(c, source), steps, s);
    hide FarmOk, Inv, Run, FarmRouted, Compressed, Drained, SourceOk;
    AllSent(c, s, 2);
    if InMsgs(s.farms[2].sent, x) > 0 && !c.isDuplicate(x) { OriginalsComeCompressed(c, source, steps, s, x); }
    forall k, i | 0 <= k < 3 && 0 <= i < c.nw && i < |s.farms[k].ws| ensures Drained(s.farms[k].ws[i]) { AllDrained(c, s, k); }
  }

  lemma AllDrained(c: Config, s: System, k: nat)
    requires Inv(c, s) && s.farms[2].rcvd == c.nw && k < 3
    ensures forall i :: 0 <= i < c.nw && i < |s.farms[k].ws| ==> Drained(s.farms[k].ws[i])
  {
    AllSent(c, s, k);
    assert FarmOk(c, s.farms[k], Stream(s, k), k == 2);
    hide Inv, FarmOk;
    TokenMeansAll(c, s.farms[k], Stream(s, k), k == 2, 0);
  }

  lemma {:induction false} SourceKept(c: Config, s: System, steps: seq<Step>, s': System)
    requires Inv(c, s) && Run(c, s, steps, s')
    ensures s'.source == s.source
    decreases |steps|
  {
    if steps != [] {
      StepKeeps(c, s, steps[0]);
      hide Inv, Enabled;
      SourceKept(c, Apply(c, s, steps[0]), steps[1..], s');
    }
  }

  /** A farm with nothing left to do has sent the token, if it has got it. */
  lemma FarmStep(c: Config, s: System, k: nat) returns (step: Step)
    requires Inv(c, s) && k < 3 && Ended(Stream(s, k)) && !Ended(s.farms[k].sent)
    ensures Enabled(c, s, step) && step.k == k
  {
    var f := s.farms[k];
    assert FarmOk(c, f, Stream(s, k), k == 2);
    if f.taken < |Stream(s, k)| {
      step := Emitting(k, 0);
    } else if w :| 0 <= w < c.nw && f.ws[w].inq != [] {
      step := Serving(k, w);
    } else if w :| 0 <= w < c.nw && f.ws[w].outq != [] {
      step := Collecting(k, w);
    } else {
      var d := DrainedCount(f.ws);
      forall i | 0 <= i < |d| ensures d[i] == 1 { assert WorkerClosing(f.ws[i]); }
      AllOnesSum(d);
      assert false;
    }
  }

  lemma {:induction false} AllOnesSum(s: seq<int>)
    requires forall k :: 0 <= k < |s| ==> s[k] == 1
    ensures Sum(s) == |s|
  {
    if s != [] { AllOnesSum(s[..|s| - 1]); }
  }

  /** In every run, in what a farm sends: the buffers that bypass compression have duplicates only, the others originals only. */
  lemma DuplicatesBypass(c: Config, source: seq<Msg>, steps: seq<Step>, s: System, k: nat, i: nat, x: nat)
    requires SourceOk(c, source) && Run(c, Initial(c, source), steps, s)
    requires 1 <= k < 3 && |s.farms| == 3 && i < |s.farms[k].sent| && x in s.farms[k].sent[i].data
    ensures s.farms[k].sent[i].bypass <==> c.isDuplicate(x)
    ensures |s.farms[k].sent[i].data| <= c.cap
  {
    InvInitially(c, source);
    RunKeeps(c, Initial(c, source), steps, s);
    assert FarmRouted(c, s.farms[k]);
    assert Shipped(c, s.farms[k].kind, s.farms[k].sent[i]);
  }

  /** In every run: an original that Reorder has has come out of the compression stage. */
  lemma OriginalsComeCompressed(c: Config, source: seq<Msg>, steps: seq<Step>, s: System, x: nat)
    requires SourceOk(c, source) && Run(c, Initial(c, source), steps, s)
    requires |s.farms| == 3 && InMsgs(s.farms[2].sent, x) > 0 && !c.isDuplicate(x)
    ensures Compressed(s.farms[2].sent, x)
  {
    InvInitially(c, source);
    RunKeeps(c, Initial(c, source), steps, s);
    assert FarmRouted(c, s.farms[2]);
    OriginalsAreCompressed(c, s.farms[2].sent, x);
  }

  /** The chunk that the table finds for a duplicate is one of the same stream, and one whose own lookup has found nothing. */
  ghost predicate OriginalsOk(c: Config, source: seq<Msg>)
  {
    forall x: nat :: InMsgs(source, x) > 0 && c.isDuplicate(x) ==> InMsgs(source, c.original(x)) > 0 && !c.isDuplicate(c.original(x))
  }

  /** Chunk x has been compressed: Reorder has it in a buffer that is no bypass, or a worker of the last farm is about to send it so. */
  ghost predicate HasData(c: Config, s: System, x: nat)
    requires Shaped(c, s)
  {
    Compressed(s.farms[2].sent, x) || exists w :: 0 <= w < c.nw && PastCompress(s.farms[2].ws[w], x)
  }

  ghost predicate PastCompress(w: Worker, x: nat) { x in w.buf || Compressed(w.outq, x) }

  /** Without data, an original is neither with Reorder nor behind the compression in a worker. */
  lemma NotYetCompressed(c: Config, s: System, x: nat)
    requires Inv(c, s) && !c.isDuplicate(x) && !HasData(c, s, x)
    ensures InMsgs(s.farms[2].sent, x) == 0
    ensures forall w :: 0 <= w < c.nw ==> InWorker(s.farms[2].ws[w], x) == InMsgs(s.farms[2].ws[w].inq, x)
  {
    var f := s.farms[2];
    assert FarmRouted(c, f);
    hide FarmOk, Shipped, Compressed, SourceOk;
    OriginalsAreCompressed(c, f.sent, x);
    forall w | 0 <= w < c.nw ensures InWorker(f.ws[w], x) == InMsgs(f.ws[w].inq, x) {
      assert WorkerRouted(c, f.kind, f.ws[w]) && !PastCompress(f.ws[w], x);
      OriginalsAreCompressed(c, f.ws[w].outq, x);
    }
  }

  /** Reorder may be waiting in write_chunk_to_file: it has a duplicate whose original has no data yet. */
  ghost predicate MayWait(c: Config, s: System)
    requires Shaped(c, s)
  {
    exists y: nat :: InMsgs(s.farms[2].sent, y) > 0 && c.isDuplicate(y) && !HasData(c, s, c.original(y))
  }

  /** What is sure to be possible: a waiting Reorder takes nothing. */
  ghost predicate Ready(c: Config, s: System, step: Step)
    requires Shaped(c, s)
  {
    Enabled(c, s, step) && (step.Collecting? && step.k == 2 ==> !MayWait(c, s))
  }

  lemma {:induction false} InPrefix(q: seq<Msg>, n: nat, x: nat)
    requires n <= |q|
    ensures InMsgs(q[..n], x) <= InMsgs(q, x)
  {
    assert q == q[..n] + q[n..];
    InMsgsConcat(q[..n], q[n..], x);
  }

  lemma SentWasThere(c: Config, f: Farm, stream: seq<Msg>, isReorder: bool, x: nat)
    requires FarmOk(c, f, stream, isReorder)
    ensures InMsgs(f.sent, x) <= InMsgs(stream, x)
  {
    InPrefix(stream, f.taken, x);
    SumNonNegative(InWorkers(f.ws, x));
  }

  /** What Reorder has comes from the source. */
  lemma ReorderHasFromSource(c: Config, s: System, y: nat)
    requires Inv(c, s)
    ensures InMsgs(s.farms[2].sent, y) <= InMsgs(s.source, y)
  {
    SentWasThere(c, s.farms[2], Stream(s, 2), true, y);
    SentWasThere(c, s.farms[1], Stream(s, 1), false, y);
    SentWasThere(c, s.farms[0], Stream(s, 0), false, y);
  }

  /** A farm that is through has sent on what it got. */
  lemma PassedOn(c: Config, s: System, k: nat, x: nat)
    requires Inv(c, s) && k < 2 && Ended(s.farms[k].sent)
    ensures Ended(Stream(s, k)) && InMsgs(s.farms[k].sent, x) == InMsgs(Stream(s, k), x)
  {
    TokenMeansAll(c, s.farms[k], Stream(s, k), false, x);
  }

  /** What Reorder waits for has a step to make before the compression stage, or in it. */
  lemma WaitedForMoves(c: Config, s: System, y: nat) returns (step: Step)
    requires Inv(c, s) && OriginalsOk(c, s.source)
    requires InMsgs(s.farms[2].sent, y) > 0 && c.isDuplicate(y) && !HasData(c, s, c.original(y))
    ensures Enabled(c, s, step) && !(step.Collecting? && step.k == 2)
  {
    var x := c.original(y);
    ReorderHasFromSource(c, s, y);
    assert InMsgs(s.source, x) > 0 && Ended(s.source) && !c.isDuplicate(x);
    if !Ended(s.farms[0].sent) {
      step := FarmStep(c, s, 0);
    } else {
      PassedOn(c, s, 0, x);
      if !Ended(s.farms[1].sent) {
        step := FarmStep(c, s, 1);
      } else {
        PassedOn(c, s, 1, x);
        NotYetCompressed(c, s, x);
        step := BeforeCompress(c, s, x);
      }
    }
  }

  lemma BeforeCompress(c: Config, s: System, x: nat) returns (step: Step)
    requires Inv(c, s) && InMsgs(s.farms[1].sent, x) > 0 && InMsgs(s.farms[2].sent, x) == 0
    requires forall w :: 0 <= w < c.nw ==> InWorker(s.farms[2].ws[w], x) == InMsgs(s.farms[2].ws[w].inq, x)
    ensures Enabled(c, s, step) && !step.Collecting?
  {
    var f := s.farms[2];
    assert FarmOk(c, f, Stream(s, 2), true);
    if f.taken < |Stream(s, 2)| {
      step := Emitting(2, 0);
    } else {
      assert Stream(s, 2)[..f.taken] == Stream(s, 2);
      if w :| 0 <= w < c.nw && InWorker(f.ws[w], x) > 0 {
        assert InMsgs(f.ws[w].inq, x) > 0;
        step := Serving(2, w);
      } else {
        SumZero(InWorkers(f.ws, x));
        assert false;
      }
    }
  }

  /** No run stops before Reorder has seen its nw-th token, even if Reorder waits as long as it can for compressed data. */
  lemma Progress(c: Config, s: System) returns (step: Step)
    requires Inv(c, s) && OriginalsOk(c, s.source) && s.farms[2].rcvd != c.nw
    ensures Ready(c, s, step)
  {
    assert FarmOk(c, s.farms[2], Stream(s, 2), true);
    assert !Ended(s.farms[2].sent);
    hide FarmOk, Enabled;
    if MayWait(c, s) {
      var y: nat :| InMsgs(s.farms[2].sent, y) > 0 && c.isDuplicate(y) && !HasData(c, s, c.original(y));
      step := WaitedForMoves(c, s, y);
    } else if !Ended(s.farms[0].sent) {
      step := FarmStep(c, s, 0);
    } else if !Ended(s.farms[1].sent) {
      step := FarmStep(c, s, 1);
    } else {
      step := FarmStep(c, s, 2);
    }
  }

  /** Every run that cannot go on has ended well: each collector has forwarded exactly one token, as the last thing, and Reorder has
    * every chunk.
    */
  lemma MaximalRunsEnd(c: Config, source: seq<Msg>, steps: seq<Step>, s: System, k: nat)
    requires SourceOk(c, source) && OriginalsOk(c, source) && Run(c, Initial(c, source), steps, s) && k < 3
    requires Shaped(c, s) && forall step :: !Ready(c, s, step)
    ensures s.farms[2].rcvd == c.nw && Ended(s.farms[k].sent) && WellEnded(s.farms[k].sent)
    ensures forall x: nat :: InMsgs(s.farms[k].sent, x) == InMsgs(source, x)
  {
    InvInitially(c, source);
    RunKeeps(c, Initial(c, source), steps, s);
    SourceKept(c, Initial(c, source), steps, s);
    if s.farms[2].rcvd != c.nw { var step := Progress(c, s); }
    hide Ready, Run, Inv;
    AllSent(c, s, k);
  }

  lemma AllSent(c: Config, s: System, k: nat)
    requires Inv(c, s) && s.farms[2].rcvd == c.nw && k < 3
    ensures Ended(s.farms[k].sent) && WellEnded(s.farms[k].sent)
    ensures forall x: nat :: InMsgs(s.farms[k].sent, x) == InMsgs(s.source, x)
  {
    assert FarmOk(c, s.farms[2], Stream(s, 2), true) && Ended(s.farms[2].sent);
    TokenMeansAll(c, s.farms[2], Stream(s, 2), true, 0);
    PassedOn(c, s, 1, 0);
    assert FarmOk(c, s.farms[k], Stream(s, k), k == 2);
    hide Inv, FarmOk;
    forall x: nat ensures InMsgs(s.farms[k].sent, x) == InMsgs(s.source, x) {
      PassedOn(c, s, 0, x);
      PassedOn(c, s, 1, x);
      if k == 2 { LastPassedOn(c, s, x); }
    }
  }

  lemma LastPassedOn(c: Config, s: System, x: nat)
    requires Inv(c, s) && Ended(s.farms[2].sent)
    ensures InMsgs(s.farms[2].sent, x) == InMsgs(s.farms[1].sent, x)
  {
    TokenMeansAll(c, s.farms[2], Stream(s, 2), true, x);
  }
}
