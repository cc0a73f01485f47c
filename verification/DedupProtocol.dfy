/** The pthread pipeline of dedup from FragmentRefine's output to the file: Deduplicate, Compress and Reorder as steps of a
  * transition system, one step per critical section. Chunks are named by their place in the sequence order.
  */
module DedupProtocol {

  const MAX_THREADS_PER_QUEUE: nat := 4

  datatype ChunkState = UNCOMPRESSED | COMPRESSED | FLUSHED

  /** One record of the output file; the content is named by its SHA1 sum. */
  datatype Record = TypeCompress(sha1: nat) | TypeFingerprint(sha1: nat)

  /** Where a chunk is; a queue of the lane, or in the hands of a thread. */
  datatype Loc =
    | Todo | DeduplicateQue | Deduplicating(t: nat) | Routing(t: nat)
    | CompressQue | Compressing(t: nat) | Compressed(t: nat)
    | ReorderQue | Cached | Written

  /** The input: the SHA1 sum of every chunk and the FragmentRefine thread it comes from; threads per stage. */
  datatype Config = Config(sha1: seq<nat>, emitter: seq<nat>, nthreads: nat)

  ghost predicate ConfigOk(c: Config)
  {
    c.nthreads > 0 && |c.emitter| == |c.sha1| && forall i :: 0 <= i < |c.emitter| ==> c.emitter[i] < c.nthreads
  }

  function NQueues(c: Config): nat
  {
    c.nthreads / MAX_THREADS_PER_QUEUE + if c.nthreads % MAX_THREADS_PER_QUEUE != 0 then 1 else 0
  }

  function QueueOf(tid: nat): nat { tid / MAX_THREADS_PER_QUEUE }

  /** All queues a chunk passes through have the same number. */
  function Lane(c: Config, i: nat): nat
    requires i < |c.emitter|
  {
    QueueOf(c.emitter[i])
  }

  /** `isDuplicate` and `ref` (compressed_data_ref) are set by Deduplicate; `next`, `writing`, `qid`, `misses` and `ended` are
    * Reorder's: the next place to write, whether that chunk is in hand, the queue it turns to, how many terminated queues in a
    * row it has found, and whether it has left its main loop. */
  datatype State = State(
    loc: seq<Loc>, isDuplicate: seq<bool>, ref: seq<nat>, state: seq<ChunkState>, table: map<nat, nat>,
    refineDone: seq<bool>, dedupDone: seq<bool>, compressDone: seq<bool>,
    next: nat, writing: bool, qid: nat, misses: nat, ended: bool, out: seq<Record>)

  datatype Step =
    | Emit(i: nat) | RefineStop(t: nat)
    | DedupFetch(i: nat, t: nat) | Deduplicate(i: nat) | Route(i: nat) | DedupStop(t: nat)
    | CompressFetch(i: nat, t: nat) | Compress(i: nat) | Forward(i: nat) | CompressStop(t: nat)
    | ReorderFetch(i: nat) | WriteChunk | ReorderSkip

  function Initial(c: Config): State
  {
    var n, m := |c.sha1|, c.nthreads;
    State(seq(n, _ => Todo), seq(n, _ => false), seq(n, _ => 0), seq(n, _ => UNCOMPRESSED), map[],
          seq(m, _ => false), seq(m, _ => false), seq(m, _ => false), 0, false, 0, 0, false, [])
  }

  ghost predicate Sized(c: Config, s: State)
  {
    && |s.loc| == |s.isDuplicate| == |s.ref| == |s.state| == |c.sha1|
    && |s.refineDone| == |s.dedupDone| == |s.compressDone| == c.nthreads
  }

  /** queue_isTerminated: all producers of queue q have terminated it. */
  ghost predicate Terminated(done: seq<bool>, q: nat)
  {
    forall t :: 0 <= t < |done| && QueueOf(t) == q ==> done[t]
  }

  ghost predicate QueueEmpty(c: Config, s: State, que: Loc, q: nat)
    requires Sized(c, s) && |c.emitter| == |c.sha1|
  {
    forall i :: 0 <= i < |s.loc| && Lane(c, i) == q ==> s.loc[i] != que
  }

  ghost predicate DedupIdle(s: State, t: nat) { forall i :: 0 <= i < |s.loc| ==> s.loc[i] != Deduplicating(t) && s.loc[i] != Routing(t) }

  ghost predicate CompressIdle(s: State, t: nat) { forall i :: 0 <= i < |s.loc| ==> s.loc[i] != Compressing(t) && s.loc[i] != Compressed(t) }

  /** The chunk whose data a record for chunk i needs. */
  function Original(s: State, i: nat): nat
    requires i < |s.isDuplicate| && i < |s.ref|
  {
    if s.isDuplicate[i] then s.ref[i] else i
  }

  ghost predicate Enabled(c: Config, s: State, step: Step)
    requires ConfigOk(c) && Sized(c, s)
  {
    match step
    case Emit(i) => i < |s.loc| && s.loc[i] == Todo
    case RefineStop(t) => t < c.nthreads && !s.refineDone[t] && (forall i :: 0 <= i < |s.loc| && c.emitter[i] == t ==> s.loc[i] != Todo)
    case DedupFetch(i, t) => i < |s.loc| && t < c.nthreads && s.loc[i] == DeduplicateQue && QueueOf(t) == Lane(c, i) && !s.dedupDone[t] && DedupIdle(s, t)
    case Deduplicate(i) => i < |s.loc| && s.loc[i].Deduplicating?
    case Route(i) => i < |s.loc| && s.loc[i].Routing?
    case DedupStop(t) => t < c.nthreads && !s.dedupDone[t] && DedupIdle(s, t) && QueueEmpty(c, s, DeduplicateQue, QueueOf(t)) && Terminated(s.refineDone, QueueOf(t))
    case CompressFetch(i, t) => i < |s.loc| && t < c.nthreads && s.loc[i] == CompressQue && QueueOf(t) == Lane(c, i) && !s.compressDone[t] && CompressIdle(s, t)
    case Compress(i) => i < |s.loc| && s.loc[i].Compressing?
    case Forward(i) => i < |s.loc| && s.loc[i].Compressed?
    case CompressStop(t) => t < c.nthreads && !s.compressDone[t] && CompressIdle(s, t) && QueueEmpty(c, s, CompressQue, QueueOf(t)) && Terminated(s.dedupDone, QueueOf(t))
    case ReorderFetch(i) => !s.writing && !s.ended && i < |s.loc| && s.loc[i] == ReorderQue && Lane(c, i) == s.qid
    case WriteChunk => s.writing && s.next < |s.loc| && Original(s, s.next) < |s.state| && s.state[Original(s, s.next)] != UNCOMPRESSED
    case ReorderSkip => !s.writing && !s.ended && QueueEmpty(c, s, ReorderQue, s.qid) && Terminated(s.compressDone, s.qid)
  }

  function Move(s: State, i: nat, to: Loc): State
    requires i < |s.loc|
  {
    s.(loc := s.loc[i := to])
  }

  /** sub_Deduplicate, under the lock of the chunk's bucket. */
  function AfterDeduplicate(c: Config, s: State, i: nat): State
    requires i < |s.loc| == |s.isDuplicate| == |s.ref| == |c.sha1| && s.loc[i].Deduplicating?
  {
    var k, s1 := c.sha1[i], Move(s, i, Routing(s.loc[i].t));
    if k in s.table then s1.(isDuplicate := s.isDuplicate[i := true], ref := s.ref[i := s.table[k]])
    else s1.(isDuplicate := s.isDuplicate[i := false], table := s.table[k := i])
  }

  /** write_chunk_to_file, under the lock of the chunk that has the data. */
  function AfterWrite(c: Config, s: State): State
    requires s.next < |s.loc| == |s.isDuplicate| == |s.ref| == |s.state| == |c.sha1| && Original(s, s.next) < |s.state|
  {
    var o := Original(s, s.next);
    var r := if s.state[o] == COMPRESSED then TypeCompress(c.sha1[o]) else TypeFingerprint(c.sha1[o]);
    s.(out := s.out + [r], state := s.state[o := FLUSHED], loc := s.loc[s.next := Written], next := s.next + 1,
       writing := s.next + 1 < |s.loc| && s.loc[s.next + 1] == Cached)
  }

  function Apply(c: Config, s: State, step: Step): State
    requires ConfigOk(c) && Sized(c, s) && Enabled(c, s, step)
  {
    match step
    case Emit(i) => Move(s, i, DeduplicateQue)
    case RefineStop(t) => s.(refineDone := s.refineDone[t := true])
    case DedupFetch(i, t) => Move(s, i, Deduplicating(t))
    case Deduplicate(i) => AfterDeduplicate(c, s, i)
    case Route(i) => Move(s, i, if s.isDuplicate[i] then ReorderQue else CompressQue)
    case DedupStop(t) => s.(dedupDone := s.dedupDone[t := true])
    case CompressFetch(i, t) => Move(s, i, Compressing(t))
    case Compress(i) => Move(s, i, Compressed(s.loc[i].t)).(state := s.state[i := COMPRESSED])
    case Forward(i) => Move(s, i, ReorderQue)
    case CompressStop(t) => s.(compressDone := s.compressDone[t := true])
    case ReorderFetch(i) => Move(s, i, Cached).(writing := i == s.next, qid := (s.qid + 1) % NQueues(c), misses := 0)
    case WriteChunk => AfterWrite(c, s)
    case ReorderSkip => s.(qid := (s.qid + 1) % NQueues(c), misses := s.misses + 1, ended := s.misses + 1 == NQueues(c))
  }

  /** What the serial writer puts out: data for the first chunk with a SHA1 sum, fingerprints for all others. */
  function SerialRecord(sha1: seq<nat>, i: nat): Record
    requires i < |sha1|
  {
    if sha1[i] in sha1[..i] then TypeFingerprint(sha1[i]) else TypeCompress(sha1[i])
  }

  function SerialStream(sha1: seq<nat>, n: nat): (r: seq<Record>)
    requires n <= |sha1|
    ensures |r| == n && forall i :: 0 <= i < n ==> r[i] == SerialRecord(sha1, i)
  {
    if n == 0 then [] else SerialStream(sha1, n - 1) + [SerialRecord(sha1, n - 1)]
  }

  /** What deduplication is for: a record for every chunk, in order, which is data if no earlier chunk has the same SHA1 sum, and else a
    * fingerprint.
    */
  ghost predicate Deduplicated(sha1: seq<nat>, out: seq<Record>)
  {
    && |out| <= |sha1|
    && (forall i :: 0 <= i < |out| ==> out[i].sha1 == sha1[i])
    && (forall i :: 0 <= i < |out| ==> (out[i].TypeCompress? <==> forall j :: 0 <= j < i ==> sha1[j] != sha1[i]))
  }

  lemma SerialIsDeduplicated(sha1: seq<nat>, n: nat)
    requires n <= |sha1|
    ensures Deduplicated(sha1, SerialStream(sha1, n))
  {
    hide SerialStream;
    var out := SerialStream(sha1, n);
    forall i | 0 <= i < n ensures out[i].TypeCompress? <==> forall j :: 0 <= j < i ==> sha1[j] != sha1[i] {
      assert out[i] == SerialRecord(sha1, i);
      if sha1[i] in sha1[..i] { var j :| 0 <= j < i && sha1[..i][j] == sha1[i]; }
      else { forall j | 0 <= j < i ensures sha1[j] != sha1[i] { assert sha1[..i][j] == sha1[j]; } }
    }
  }

  /** The data behind every SHA1 sum is written exactly once, and not after a fingerprint with that sum. */
  lemma {:induction false} DataOnce(sha1: seq<nat>, out: seq<Record>, i: nat) returns (k: nat)
    requires Deduplicated(sha1, out) && i < |out|
    ensures k <= i && forall m :: 0 <= m < |out| ==> (out[m] == TypeCompress(sha1[i]) <==> m == k)
  {
    if out[i].TypeCompress? {
      k := i;
    } else {
      var j :| 0 <= j < i && sha1[j] == sha1[i];
      k := DataOnce(sha1, out, j);
    }
  }

  predicate Past(l: Loc) { !l.Todo? && !l.DeduplicateQue? && !l.Deduplicating? }

  /** Past the compression stage. */
  predicate Ready(l: Loc) { l.Compressed? || l.ReorderQue? || l.Cached? || l.Written? }

  /** What the table says about a chunk past the lookup. */
  ghost predicate InTable(c: Config, s: State, i: nat)
    requires Sized(c, s) && i < |s.loc|
  {
    && c.sha1[i] in s.table
    && (if s.isDuplicate[i] then s.ref[i] == s.table[c.sha1[i]] else s.table[c.sha1[i]] == i)
  }

  /** The table knows exactly the first-come chunk of every SHA1 sum, and duplicates refer to it. */
  ghost predicate TableOk(c: Config, s: State)
    requires Sized(c, s)
  {
    && (forall k :: k in s.table ==> s.table[k] < |s.loc| && c.sha1[s.table[k]] == k && Past(s.loc[s.table[k]]) && !s.isDuplicate[s.table[k]])
    && (forall i :: 0 <= i < |s.loc| && Past(s.loc[i]) ==> InTable(c, s, i))
  }

  /** A chunk has compressed data, now or formerly, exactly when it is an original past the compression stage. */
  predicate ChunkOk(l: Loc, isDuplicate: bool, state: ChunkState)
  {
    && (state != UNCOMPRESSED <==> Past(l) && !isDuplicate && Ready(l))
    && (Past(l) && isDuplicate ==> l.Routing? || (Ready(l) && !l.Compressed?))
  }

  ghost predicate DataOk(s: State)
    requires |s.loc| == |s.isDuplicate| == |s.state|
  {
    forall i :: 0 <= i < |s.loc| ==> ChunkOk(s.loc[i], s.isDuplicate[i], s.state[i])
  }

  /** Data is gone exactly when a chunk with the same SHA1 sum has been written, be it the original or a duplicate. */
  ghost predicate FlushOk(c: Config, s: State)
    requires Sized(c, s) && s.next <= |c.sha1|
  {
    forall i :: 0 <= i < |s.loc| && Past(s.loc[i]) && !s.isDuplicate[i] ==> (s.state[i] == FLUSHED <==> c.sha1[i] in c.sha1[..s.next])
  }

  ghost predicate ReorderOk(c: Config, s: State)
  {
    && s.next <= |s.loc| == |c.sha1|
    && (forall i :: 0 <= i < |s.loc| ==> (s.loc[i].Written? <==> i < s.next))
    && (s.writing <==> s.next < |s.loc| && s.loc[s.next].Cached?)
    && s.out == SerialStream(c.sha1, s.next)
  }

  /** Chunks in hand are in the hands of a running thread of their lane. */
  ghost predicate HandsOk(c: Config, s: State)
    requires ConfigOk(c) && Sized(c, s)
  {
    && (forall i :: 0 <= i < |s.loc| && (s.loc[i].Deduplicating? || s.loc[i].Routing?) ==>
          s.loc[i].t < c.nthreads && QueueOf(s.loc[i].t) == Lane(c, i) && !s.dedupDone[s.loc[i].t])
    && (forall i :: 0 <= i < |s.loc| && (s.loc[i].Compressing? || s.loc[i].Compressed?) ==>
          s.loc[i].t < c.nthreads && QueueOf(s.loc[i].t) == Lane(c, i) && !s.compressDone[s.loc[i].t])
  }

  /** A thread stops only when its queue can never get another chunk. */
  ghost predicate StopsOk(c: Config, s: State)
    requires ConfigOk(c) && Sized(c, s)
  {
    && (forall i :: 0 <= i < |s.loc| && s.refineDone[c.emitter[i]] ==> s.loc[i] != Todo)
    && (forall t :: 0 <= t < c.nthreads && s.dedupDone[t] ==> Terminated(s.refineDone, QueueOf(t)) && QueueEmpty(c, s, DeduplicateQue, QueueOf(t)))
    && (forall t :: 0 <= t < c.nthreads && s.compressDone[t] ==> Terminated(s.dedupDone, QueueOf(t)) && QueueEmpty(c, s, CompressQue, QueueOf(t)))
  }

  /** Queue q reports termination: nobody can enqueue any more, and nothing is left in it. */
  ghost predicate LaneOver(c: Config, s: State, q: nat)
    requires ConfigOk(c) && Sized(c, s)
  {
    Terminated(s.compressDone, q) && QueueEmpty(c, s, ReorderQue, q)
  }

  /** How many queues ago Reorder turned to queue q (1 for the one just before qid). */
  function Ago(q: nat, qid: nat, nq: nat): int { if q < qid then qid - q else qid + nq - q }

  ghost predicate EndOk(c: Config, s: State)
    requires ConfigOk(c) && Sized(c, s)
  {
    && s.qid < NQueues(c) && s.misses <= NQueues(c) && (s.ended <==> s.misses == NQueues(c)) && (s.ended ==> !s.writing)
    && (forall q :: 0 <= q < NQueues(c) && Ago(q, s.qid, NQueues(c)) <= s.misses ==> LaneOver(c, s, q))
  }

  ghost predicate Inv(c: Config, s: State)
    requires ConfigOk(c)
  {
    && Sized(c, s) && ReorderOk(c, s) && TableOk(c, s) && DataOk(s) && FlushOk(c, s)
    && HandsOk(c, s) && StopsOk(c, s) && EndOk(c, s)
  }

  lemma LanesAreQueues(c: Config, q: nat)
    requires ConfigOk(c)
    ensures NQueues(c) > 0
    ensures forall i :: 0 <= i < |c.sha1| ==> Lane(c, i) < NQueues(c)
    ensures q < NQueues(c) ==> MAX_THREADS_PER_QUEUE * q < c.nthreads && QueueOf(MAX_THREADS_PER_QUEUE * q) == q
  {
  }

  lemma InvInitially(c: Config)
    requires ConfigOk(c)
    ensures Inv(c, Initial(c))
  {
    LanesAreQueues(c, 0);
  }

  // What moving one chunk does to each part of the invariant.

  lemma SamePast(c: Config, s: State, s': State)
    requires Sized(c, s) && Sized(c, s') && TableOk(c, s)
    requires s'.table == s.table && s'.isDuplicate == s.isDuplicate && s'.ref == s.ref
    requires forall i :: 0 <= i < |s.loc| ==> Past(s'.loc[i]) == Past(s.loc[i])
    ensures TableOk(c, s')
  {
    forall i | 0 <= i < |s.loc| && Past(s'.loc[i]) ensures InTable(c, s', i) { assert InTable(c, s, i); }
  }

  lemma MoveData(s: State, i: nat, to: Loc)
    requires |s.loc| == |s.isDuplicate| == |s.state| && DataOk(s) && i < |s.loc| && ChunkOk(to, s.isDuplicate[i], s.state[i])
    ensures DataOk(Move(s, i, to))
  {
  }

  /** May chunk i be in the hands of this thread? */
  ghost predicate HandOk(c: Config, s: State, i: nat, l: Loc)
    requires ConfigOk(c) && Sized(c, s) && i < |s.loc|
  {
    && (l.Deduplicating? || l.Routing? ==> l.t < c.nthreads && QueueOf(l.t) == Lane(c, i) && !s.dedupDone[l.t])
    && (l.Compressing? || l.Compressed? ==> l.t < c.nthreads && QueueOf(l.t) == Lane(c, i) && !s.compressDone[l.t])
  }

  lemma MoveHands(c: Config, s: State, i: nat, to: Loc)
    requires ConfigOk(c) && Sized(c, s) && HandsOk(c, s) && i < |s.loc| && HandOk(c, s, i, to)
    ensures HandsOk(c, Move(s, i, to))
  {
  }

  /** May chunk i be enqueued? The queue must not have been left by its consumers. */
  ghost predicate MayEnter(c: Config, s: State, i: nat, to: Loc)
    requires ConfigOk(c) && Sized(c, s) && i < |s.loc|
  {
    && to != Todo
    && (to == DeduplicateQue ==> forall t :: 0 <= t < c.nthreads && QueueOf(t) == Lane(c, i) ==> !s.dedupDone[t])
    && (to == CompressQue ==> forall t :: 0 <= t < c.nthreads && QueueOf(t) == Lane(c, i) ==> !s.compressDone[t])
    && (to == ReorderQue ==> !Terminated(s.compressDone, Lane(c, i)))
  }

  lemma MoveQueue(c: Config, s: State, i: nat, to: Loc, que: Loc, q: nat)
    requires ConfigOk(c) && Sized(c, s) && i < |s.loc| && QueueEmpty(c, s, que, q) && (to == que ==> Lane(c, i) != q)
    ensures QueueEmpty(c, Move(s, i, to), que, q)
  {
  }

  lemma MoveStops(c: Config, s: State, i: nat, to: Loc)
    requires ConfigOk(c) && Sized(c, s) && StopsOk(c, s) && i < |s.loc| && MayEnter(c, s, i, to)
    ensures StopsOk(c, Move(s, i, to))
  {
    hide QueueEmpty, Terminated;
    forall t | 0 <= t < c.nthreads && s.dedupDone[t] ensures QueueEmpty(c, Move(s, i, to), DeduplicateQue, QueueOf(t)) {
      MoveQueue(c, s, i, to, DeduplicateQue, QueueOf(t));
    }
    forall t | 0 <= t < c.nthreads && s.compressDone[t] ensures QueueEmpty(c, Move(s, i, to), CompressQue, QueueOf(t)) {
      MoveQueue(c, s, i, to, CompressQue, QueueOf(t));
    }
  }

  lemma MoveEnd(c: Config, s: State, i: nat, to: Loc)
    requires ConfigOk(c) && Sized(c, s) && EndOk(c, s) && i < |s.loc| && MayEnter(c, s, i, to)
    ensures EndOk(c, Move(s, i, to))
  {
    hide QueueEmpty, Terminated;
    var s' := Move(s, i, to);
    forall q | 0 <= q < NQueues(c) && Ago(q, s.qid, NQueues(c)) <= s.misses ensures LaneOver(c, s', q) {
      assert LaneOver(c, s, q);
      MoveQueue(c, s, i, to, ReorderQue, q);
    }
  }

  lemma MoveKeeps(c: Config, s: State, i: nat, to: Loc)
    requires ConfigOk(c) && Inv(c, s) && i < |s.loc| && HandOk(c, s, i, to) && MayEnter(c, s, i, to)
    requires Past(to) == Past(s.loc[i]) && ChunkOk(to, s.isDuplicate[i], s.state[i])
    requires !to.Cached? && !to.Written? && !s.loc[i].Cached? && !s.loc[i].Written?
    ensures Inv(c, Move(s, i, to))
  {
    hide TableOk, DataOk, HandsOk, StopsOk, EndOk, HandOk, MayEnter, SerialStream;
    SamePast(c, s, Move(s, i, to));
    MoveData(s, i, to);
    MoveHands(c, s, i, to);
    MoveStops(c, s, i, to);
    MoveEnd(c, s, i, to);
  }

  // The steps, one by one.

  lemma EmitKeeps(c: Config, s: State, i: nat)
    requires ConfigOk(c) && Inv(c, s) && Enabled(c, s, Emit(i))
    ensures Inv(c, Apply(c, s, Emit(i)))
  {
    hide QueueEmpty, TableOk, SerialStream, EndOk;
    assert ChunkOk(s.loc[i], s.isDuplicate[i], s.state[i]);
    assert !s.refineDone[c.emitter[i]];
    MoveKeeps(c, s, i, DeduplicateQue);
  }

  lemma DedupFetchKeeps(c: Config, s: State, i: nat, t: nat)
    requires ConfigOk(c) && Inv(c, s) && Enabled(c, s, DedupFetch(i, t))
    ensures Inv(c, Apply(c, s, DedupFetch(i, t)))
  {
    hide QueueEmpty, TableOk, SerialStream, EndOk, StopsOk;
    assert ChunkOk(s.loc[i], s.isDuplicate[i], s.state[i]);
    MoveKeeps(c, s, i, Deduplicating(t));
  }

  lemma RouteKeeps(c: Config, s: State, i: nat)
    requires ConfigOk(c) && Inv(c, s) && Enabled(c, s, Route(i))
    ensures Inv(c, Apply(c, s, Route(i)))
  {
    hide QueueEmpty, TableOk, SerialStream, EndOk;
    assert ChunkOk(s.loc[i], s.isDuplicate[i], s.state[i]);
    assert HandOk(c, s, i, s.loc[i]);
    LanesAreQueues(c, Lane(c, i));
    assert !Terminated(s.dedupDone, Lane(c, i));
    assert MayEnter(c, s, i, ReorderQue) by {
      assert QueueOf(MAX_THREADS_PER_QUEUE * Lane(c, i)) == Lane(c, i);
    }
    MoveKeeps(c, s, i, if s.isDuplicate[i] then ReorderQue else CompressQue);
  }

  lemma CompressFetchKeeps(c: Config, s: State, i: nat, t: nat)
    requires ConfigOk(c) && Inv(c, s) && Enabled(c, s, CompressFetch(i, t))
    ensures Inv(c, Apply(c, s, CompressFetch(i, t)))
  {
    hide QueueEmpty, TableOk, SerialStream, EndOk, StopsOk;
    assert ChunkOk(s.loc[i], s.isDuplicate[i], s.state[i]);
    MoveKeeps(c, s, i, Compressing(t));
  }

  lemma ForwardKeeps(c: Config, s: State, i: nat)
    requires ConfigOk(c) && Inv(c, s) && Enabled(c, s, Forward(i))
    ensures Inv(c, Apply(c, s, Forward(i)))
  {
    hide QueueEmpty, TableOk, SerialStream, EndOk, StopsOk;
    assert ChunkOk(s.loc[i], s.isDuplicate[i], s.state[i]);
    assert HandOk(c, s, i, s.loc[i]);
    MoveKeeps(c, s, i, ReorderQue);
  }

  lemma RefineStopKeeps(c: Config, s: State, t: nat)
    requires ConfigOk(c) && Inv(c, s) && Enabled(c, s, RefineStop(t))
    ensures Inv(c, Apply(c, s, RefineStop(t)))
  {
    hide QueueEmpty, TableOk, SerialStream, DataOk, FlushOk;
    var s' := Apply(c, s, RefineStop(t));
    SamePast(c, s, s');
    forall q | Terminated(s.refineDone, q) ensures Terminated(s'.refineDone, q) {}
    SameQueues(c, s, s');
    assert DataOk(s') && FlushOk(c, s') by { SameData(c, s, s'); }
    forall q | 0 <= q < NQueues(c) && LaneOver(c, s, q) ensures LaneOver(c, s', q) {}
    hide Terminated;
  }

  lemma SameQueues(c: Config, s: State, s': State)
    requires ConfigOk(c) && Sized(c, s) && Sized(c, s') && s'.loc == s.loc
    ensures forall que, q :: QueueEmpty(c, s', que, q) == QueueEmpty(c, s, que, q)
  {
  }

  lemma SameData(c: Config, s: State, s': State)
    requires Sized(c, s) && Sized(c, s') && s'.loc == s.loc && s'.isDuplicate == s.isDuplicate && s'.state == s.state && s'.next == s.next
    requires s.next <= |c.sha1| && DataOk(s) && FlushOk(c, s)
    ensures DataOk(s') && FlushOk(c, s')
  {
  }

  lemma DedupStopKeeps(c: Config, s: State, t: nat)
    requires ConfigOk(c) && Inv(c, s) && Enabled(c, s, DedupStop(t))
    ensures Inv(c, Apply(c, s, DedupStop(t)))
  {
    hide QueueEmpty, TableOk, SerialStream, DataOk, FlushOk;
    var s' := Apply(c, s, DedupStop(t));
    SamePast(c, s, s');
    forall q | Terminated(s.dedupDone, q) ensures Terminated(s'.dedupDone, q) {}
    SameQueues(c, s, s');
    assert DataOk(s') && FlushOk(c, s') by { SameData(c, s, s'); }
    forall q | 0 <= q < NQueues(c) && LaneOver(c, s, q) ensures LaneOver(c, s', q) {}
    hide Terminated;
  }

  lemma CompressStopKeeps(c: Config, s: State, t: nat)
    requires ConfigOk(c) && Inv(c, s) && Enabled(c, s, CompressStop(t))
    ensures Inv(c, Apply(c, s, CompressStop(t)))
  {
    hide QueueEmpty, TableOk, SerialStream, DataOk, FlushOk;
    var s' := Apply(c, s, CompressStop(t));
    SamePast(c, s, s');
    forall q | Terminated(s.compressDone, q) ensures Terminated(s'.compressDone, q) {}
    SameQueues(c, s, s');
    assert DataOk(s') && FlushOk(c, s') by { SameData(c, s, s'); }
    forall q | 0 <= q < NQueues(c) && LaneOver(c, s, q) ensures LaneOver(c, s', q) {}
    hide Terminated;
  }

  lemma CompressKeeps(c: Config, s: State, i: nat)
    requires ConfigOk(c) && Inv(c, s) && Enabled(c, s, Compress(i))
    ensures Inv(c, Apply(c, s, Compress(i)))
    ensures s.state[i] == UNCOMPRESSED
  {
    hide QueueEmpty, TableOk, SerialStream, HandsOk, StopsOk, EndOk, MayEnter, HandOk;
    var to := Compressed(s.loc[i].t);
    var s' := Apply(c, s, Compress(i));
    assert ChunkOk(s.loc[i], s.isDuplicate[i], s.state[i]);
    assert HandOk(c, s, i, to) by { StillInHand(c, s, i); }
    assert MayEnter(c, s, i, to) by { NotAQueue(c, s, i, to); }
    SamePast(c, s, s');
    MoveHands(c, s, i, to);
    MoveStops(c, s, i, to);
    MoveEnd(c, s, i, to);
    SameThreads(c, Move(s, i, to), s');
  }

  lemma StillInHand(c: Config, s: State, i: nat)
    requires ConfigOk(c) && Sized(c, s) && HandsOk(c, s) && i < |s.loc| && s.loc[i].Compressing?
    ensures HandOk(c, s, i, Compressed(s.loc[i].t))
  {
  }

  lemma NotAQueue(c: Config, s: State, i: nat, to: Loc)
    requires ConfigOk(c) && Sized(c, s) && i < |s.loc| && !to.Todo? && !to.DeduplicateQue? && !to.CompressQue? && !to.ReorderQue?
    ensures MayEnter(c, s, i, to)
  {
  }

  /** Threads and queues do not depend on the rest of the state. */
  lemma SameThreads(c: Config, s: State, s': State)
    requires ConfigOk(c) && Sized(c, s) && Sized(c, s') && s'.loc == s.loc
    requires s'.refineDone == s.refineDone && s'.dedupDone == s.dedupDone && s'.compressDone == s.compressDone
    ensures HandsOk(c, s) ==> HandsOk(c, s')
    ensures StopsOk(c, s) ==> StopsOk(c, s')
    ensures EndOk(c, s) && s'.qid == s.qid && s'.misses == s.misses && s'.ended == s.ended && (s'.writing == s.writing || !s.ended) ==> EndOk(c, s')
  {
    SameQueues(c, s, s');
    hide QueueEmpty, Terminated;
    if EndOk(c, s) && s'.qid == s.qid && s'.misses == s.misses {
      forall q | 0 <= q < NQueues(c) && LaneOver(c, s, q) ensures LaneOver(c, s', q) {}
    }
  }

  lemma DeduplicateKeeps(c: Config, s: State, i: nat)
    requires ConfigOk(c) && Inv(c, s) && Enabled(c, s, Step.Deduplicate(i))
    ensures Inv(c, Apply(c, s, Step.Deduplicate(i)))
  {
    hide QueueEmpty, SerialStream, HandsOk, StopsOk, EndOk, MayEnter, HandOk, TableOk, InTable, FlushOk, DataOk;
    var to, s' := Routing(s.loc[i].t), Apply(c, s, Step.Deduplicate(i));
    LookUp(c, s, i);
    LookUpData(c, s, i);
    NewOriginal(c, s, i);
    assert HandOk(c, s, i, to) by { StillInHandToo(c, s, i); }
    assert MayEnter(c, s, i, to) by { NotAQueue(c, s, i, to); }
    MoveHands(c, s, i, to);
    MoveStops(c, s, i, to);
    MoveEnd(c, s, i, to);
    SameThreads(c, Move(s, i, to), s');
  }

  lemma LookUpData(c: Config, s: State, i: nat)
    requires Sized(c, s) && DataOk(s) && i < |s.loc| && s.loc[i].Deduplicating?
    ensures Sized(c, AfterDeduplicate(c, s, i)) && DataOk(AfterDeduplicate(c, s, i))
  {
    var s' := AfterDeduplicate(c, s, i);
    forall j | 0 <= j < |s.loc| ensures ChunkOk(s'.loc[j], s'.isDuplicate[j], s'.state[j]) {
      assert ChunkOk(s.loc[j], s.isDuplicate[j], s.state[j]);
    }
  }

  lemma StillInHandToo(c: Config, s: State, i: nat)
    requires ConfigOk(c) && Sized(c, s) && HandsOk(c, s) && i < |s.loc| && s.loc[i].Deduplicating?
    ensures HandOk(c, s, i, Routing(s.loc[i].t))
  {
  }

  lemma LookUp(c: Config, s: State, i: nat)
    requires Sized(c, s) && TableOk(c, s) && i < |s.loc| && s.loc[i].Deduplicating?
    ensures Sized(c, AfterDeduplicate(c, s, i)) && TableOk(c, AfterDeduplicate(c, s, i))
  {
    if c.sha1[i] in s.table { Hit(c, s, i); } else { Miss(c, s, i); }
  }

  lemma Hit(c: Config, s: State, i: nat)
    requires Sized(c, s) && TableOk(c, s) && i < |s.loc| && s.loc[i].Deduplicating? && c.sha1[i] in s.table
    ensures Sized(c, AfterDeduplicate(c, s, i)) && TableOk(c, AfterDeduplicate(c, s, i))
  {
    var s' := AfterDeduplicate(c, s, i);
    forall j | 0 <= j < |s.loc| && Past(s'.loc[j]) ensures InTable(c, s', j) {
      if j != i { assert InTable(c, s, j); }
    }
  }

  lemma Miss(c: Config, s: State, i: nat)
    requires Sized(c, s) && TableOk(c, s) && i < |s.loc| && s.loc[i].Deduplicating? && c.sha1[i] !in s.table
    ensures Sized(c, AfterDeduplicate(c, s, i)) && TableOk(c, AfterDeduplicate(c, s, i))
  {
    var s' := AfterDeduplicate(c, s, i);
    forall j | 0 <= j < |s.loc| && Past(s'.loc[j]) ensures InTable(c, s', j) {
      if j != i { assert InTable(c, s, j); }
    }
  }

  /** A miss means that no chunk with this SHA1 sum has been written. */
  lemma MissMeansUnwritten(c: Config, s: State, k: nat)
    requires Sized(c, s) && TableOk(c, s) && ReorderOk(c, s) && k !in s.table
    ensures k !in c.sha1[..s.next]
  {
    forall j | 0 <= j < s.next ensures c.sha1[j] in s.table { assert InTable(c, s, j); }
  }

  lemma NewOriginal(c: Config, s: State, i: nat)
    requires Sized(c, s) && TableOk(c, s) && ReorderOk(c, s) && DataOk(s) && FlushOk(c, s) && i < |s.loc| && s.loc[i].Deduplicating?
    ensures Sized(c, AfterDeduplicate(c, s, i)) && FlushOk(c, AfterDeduplicate(c, s, i))
  {
    assert ChunkOk(s.loc[i], s.isDuplicate[i], s.state[i]);
    if c.sha1[i] !in s.table { MissMeansUnwritten(c, s, c.sha1[i]); }
    hide TableOk, DataOk, SerialStream;
  }

  lemma ReorderFetchKeeps(c: Config, s: State, i: nat)
    requires ConfigOk(c) && Inv(c, s) && Enabled(c, s, ReorderFetch(i))
    ensures Inv(c, Apply(c, s, ReorderFetch(i)))
  {
    hide QueueEmpty, TableOk, SerialStream, HandsOk, StopsOk, MayEnter, HandOk;
    var s' := Apply(c, s, ReorderFetch(i));
    assert ChunkOk(s.loc[i], s.isDuplicate[i], s.state[i]);
    assert HandOk(c, s, i, Cached) by { hide *; NotInHand(c, s, i); }
    assert MayEnter(c, s, i, Cached) by { NotAQueue(c, s, i, Cached); }
    SamePast(c, s, s');
    MoveData(s, i, Cached);
    MoveHands(c, s, i, Cached);
    MoveStops(c, s, i, Cached);
    SameThreads(c, Move(s, i, Cached), s');
    LanesAreQueues(c, 0);
  }

  lemma NotInHand(c: Config, s: State, i: nat)
    requires ConfigOk(c) && Sized(c, s) && i < |s.loc|
    ensures HandOk(c, s, i, Cached) && HandOk(c, s, i, Written)
  {
  }

  lemma ReorderSkipKeeps(c: Config, s: State)
    requires ConfigOk(c) && Inv(c, s) && Enabled(c, s, ReorderSkip)
    ensures Inv(c, Apply(c, s, ReorderSkip))
  {
    hide QueueEmpty, TableOk, SerialStream, HandsOk, StopsOk, DataOk, FlushOk, Terminated, EndOk, NQueues;
    var s' := Apply(c, s, ReorderSkip);
    SamePast(c, s, s');
    SameThreads(c, s, s');
    assert DataOk(s') && FlushOk(c, s') by { SameData(c, s, s'); }
    SkipEnd(c, s);
  }

  lemma SkipEnd(c: Config, s: State)
    requires ConfigOk(c) && Sized(c, s) && EndOk(c, s) && Enabled(c, s, ReorderSkip)
    ensures Sized(c, Apply(c, s, ReorderSkip)) && EndOk(c, Apply(c, s, ReorderSkip))
  {
    hide QueueEmpty, Terminated, NQueues;
    var s', nq := Apply(c, s, ReorderSkip), NQueues(c);
    SameQueues(c, s, s');
    forall q | 0 <= q < nq && Ago(q, s'.qid, nq) <= s'.misses ensures LaneOver(c, s', q) {
      if q != s.qid {
        AgoNext(q, s.qid, nq);
        assert LaneOver(c, s, q);
      }
    }
  }

  lemma AgoNext(q: nat, qid: nat, nq: nat)
    requires q < nq && qid < nq && q != qid
    ensures (qid + 1) % nq < nq && Ago(q, (qid + 1) % nq, nq) == Ago(q, qid, nq) + 1
  {
    if qid + 1 == nq { assert (qid + 1) % nq == 0; } else { assert (qid + 1) % nq == qid + 1; }
  }

  /** What else writing does not change. */
  lemma WriteFrame(c: Config, s: State)
    requires ConfigOk(c) && Sized(c, s) && ReorderOk(c, s) && Enabled(c, s, WriteChunk)
    ensures s.next < |s.loc| && Sized(c, AfterWrite(c, s))
    ensures var s' := AfterWrite(c, s);
      && s'.loc == Move(s, s.next, Written).loc && s'.table == s.table && s'.isDuplicate == s.isDuplicate && s'.ref == s.ref
      && s'.refineDone == s.refineDone && s'.dedupDone == s.dedupDone && s'.compressDone == s.compressDone
      && s'.qid == s.qid && s'.misses == s.misses && s'.ended == s.ended && s.loc[s.next] == Cached
  {
    hide SerialStream;
  }

  lemma WriteTable(c: Config, s: State)
    requires ConfigOk(c) && Sized(c, s) && ReorderOk(c, s) && TableOk(c, s) && Enabled(c, s, WriteChunk)
    ensures Sized(c, AfterWrite(c, s)) && TableOk(c, AfterWrite(c, s))
  {
    WriteFrame(c, s);
    hide AfterWrite, ReorderOk, TableOk, Enabled;
    SamePast(c, s, AfterWrite(c, s));
  }

  lemma WriteThreads(c: Config, s: State)
    requires ConfigOk(c) && Sized(c, s) && ReorderOk(c, s) && HandsOk(c, s) && StopsOk(c, s) && EndOk(c, s) && Enabled(c, s, WriteChunk)
    ensures Sized(c, AfterWrite(c, s)) && HandsOk(c, AfterWrite(c, s)) && StopsOk(c, AfterWrite(c, s)) && EndOk(c, AfterWrite(c, s))
  {
    WriteFrame(c, s);
    assert !s.ended && Sized(c, Move(s, s.next, Written));
    NotInHand(c, s, s.next);
    NotAQueue(c, s, s.next, Written);
    hide AfterWrite, ReorderOk, HandsOk, StopsOk, EndOk, HandOk, MayEnter, Enabled;
    MoveHands(c, s, s.next, Written);
    MoveStops(c, s, s.next, Written);
    MoveEnd(c, s, s.next, Written);
    SameThreads(c, Move(s, s.next, Written), AfterWrite(c, s));
  }

  /** Writing the chunk whose turn it is appends the serial writer's record. */
  lemma WriteKeeps(c: Config, s: State)
    requires ConfigOk(c) && Inv(c, s) && Enabled(c, s, WriteChunk)
    ensures Inv(c, Apply(c, s, WriteChunk)) && Deduplicated(c.sha1, Apply(c, s, WriteChunk).out)
  {
    assert Apply(c, s, WriteChunk) == AfterWrite(c, s);
    hide Apply, AfterWrite, ReorderOk, HandsOk, StopsOk, EndOk, DataOk, FlushOk, TableOk;
    WriteTable(c, s);
    WriteThreads(c, s);
    WriteData(c, s);
    WriteRecord(c, s);
    WritesDeduplicated(c, AfterWrite(c, s));
  }

  lemma WritesDeduplicated(c: Config, s: State)
    requires ReorderOk(c, s)
    ensures Deduplicated(c.sha1, s.out) && |s.out| == s.next
  {
    SerialIsDeduplicated(c.sha1, s.next);
  }

  lemma WriteFinds(c: Config, s: State)
    requires Sized(c, s) && TableOk(c, s) && ReorderOk(c, s) && s.writing
    ensures s.next < |s.loc| && Original(s, s.next) < |s.loc| && Past(s.loc[Original(s, s.next)]) && !s.isDuplicate[Original(s, s.next)]
    ensures c.sha1[Original(s, s.next)] == c.sha1[s.next]
  {
    assert InTable(c, s, s.next);
  }

  lemma WriteData(c: Config, s: State)
    requires Sized(c, s) && TableOk(c, s) && ReorderOk(c, s) && DataOk(s) && FlushOk(c, s) && s.writing
    requires Original(s, s.next) < |s.state| && s.state[Original(s, s.next)] != UNCOMPRESSED
    ensures Sized(c, AfterWrite(c, s)) && DataOk(AfterWrite(c, s)) && FlushOk(c, AfterWrite(c, s))
  {
    WriteFinds(c, s);
    hide SerialStream;
    var o, s' := Original(s, s.next), AfterWrite(c, s);
    forall i | 0 <= i < |s.loc| ensures ChunkOk(s'.loc[i], s'.isDuplicate[i], s'.state[i]) {
      assert ChunkOk(s.loc[i], s.isDuplicate[i], s.state[i]);
    }
    assert c.sha1[..s'.next] == c.sha1[..s.next] + [c.sha1[s.next]];
    forall i | 0 <= i < |s.loc| && Past(s'.loc[i]) && !s'.isDuplicate[i]
      ensures s'.state[i] == FLUSHED <==> c.sha1[i] in c.sha1[..s'.next]
    {
      assert InTable(c, s, i) && InTable(c, s, o);
    }
  }

  lemma WriteRecord(c: Config, s: State)
    requires Sized(c, s) && TableOk(c, s) && ReorderOk(c, s) && DataOk(s) && FlushOk(c, s) && s.writing
    requires Original(s, s.next) < |s.state| && s.state[Original(s, s.next)] != UNCOMPRESSED
    ensures Sized(c, AfterWrite(c, s)) && ReorderOk(c, AfterWrite(c, s))
  {
    WriteFinds(c, s);
  }

  lemma StepKeeps(c: Config, s: State, step: Step)
    requires ConfigOk(c) && Inv(c, s) && Enabled(c, s, step)
    ensures Inv(c, Apply(c, s, step))
  {
    hide *;
    match step
    case Emit(i) => EmitKeeps(c, s, i);
    case RefineStop(t) => RefineStopKeeps(c, s, t);
    case DedupFetch(i, t) => DedupFetchKeeps(c, s, i, t);
    case Deduplicate(i) => DeduplicateKeeps(c, s, i);
    case Route(i) => RouteKeeps(c, s, i);
    case DedupStop(t) => DedupStopKeeps(c, s, t);
    case CompressFetch(i, t) => CompressFetchKeeps(c, s, i, t);
    case Compress(i) => CompressKeeps(c, s, i);
    case Forward(i) => ForwardKeeps(c, s, i);
    case CompressStop(t) => CompressStopKeeps(c, s, t);
    case ReorderFetch(i) => ReorderFetchKeeps(c, s, i);
    case WriteChunk => WriteKeeps(c, s);
    case ReorderSkip => ReorderSkipKeeps(c, s);
  }
}
