/** From the input bytes to the output file and back. The file is decoded by decompressing data records and looking
  * fingerprints up among the data already read. Compression, SHA1 and the rolling fingerprint are parameters.
  */
module RoundTrip {
  import opened Common
  import opened Chunking
  import opened Sums
  import opened Reorder
  import opened DedupProtocol
  import opened DedupRuns

  type Bytes = seq<byte>

  /** A record as it stands in the file. */
  datatype FileRecord = Data(content: Bytes) | Fingerprint(sha1: nat)

  /** The fine chunks of a list of coarse chunks, in order. */
  ghost function CutAll(seg: Segmenter, coarse: seq<Bytes>): seq<Bytes>
    requires PrefixStable(seg)
  {
    if coarse == [] then [] else Cut(seg, 0, coarse[0]) + CutAll(seg, coarse[1..])
  }

  lemma {:induction false} CutAllConcat(seg: Segmenter, coarse: seq<Bytes>)
    requires PrefixStable(seg)
    ensures Concat(CutAll(seg, coarse)) == Concat(coarse)
  {
    if coarse != [] {
      CutIsConsecutive(seg, 0, coarse[0]);
      ConcatAppend(Cut(seg, 0, coarse[0]), CutAll(seg, coarse[1..]));
      CutAllConcat(seg, coarse[1..]);
    }
  }

  /** What Fragment and FragmentRefine together make of the input. */
  ghost function ChunksOf(seg: Segmenter, jump: nat, input: Bytes): seq<Bytes>
    requires PrefixStable(seg)
  {
    CutAll(seg, Cut(seg, jump, input))
  }

  lemma ChunksAreTheInput(seg: Segmenter, jump: nat, input: Bytes)
    requires PrefixStable(seg)
    ensures Concat(ChunksOf(seg, jump, input)) == input
  {
    CutAllConcat(seg, Cut(seg, jump, input));
    CutIsConsecutive(seg, jump, input);
  }

  /** How many fine chunks every coarse chunk has: the numbers Reorder finds out from isLastL2Chunk. */
  ghost function CountsOf(seg: Segmenter, coarse: seq<Bytes>): seq<int>
    requires PrefixStable(seg)
  {
    seq(|coarse|, a requires 0 <= a < |coarse| => |Cut(seg, 0, coarse[a])|)
  }

  lemma {:induction false} CutAllAppend(seg: Segmenter, a: seq<Bytes>, b: seq<Bytes>)
    requires PrefixStable(seg)
    ensures CutAll(seg, a + b) == CutAll(seg, a) + CutAll(seg, b)
  {
    hide Cut, PrefixStable;
    if a == [] { assert a + b == b; } else {
      assert (a + b)[1..] == a[1..] + b && (a + b)[0] == a[0];
      assert CutAll(seg, a + b) == Cut(seg, 0, a[0]) + CutAll(seg, a[1..] + b);
      assert CutAll(seg, a) == Cut(seg, 0, a[0]) + CutAll(seg, a[1..]);
      CutAllAppend(seg, a[1..], b);
      hide CutAll;
      PiecesAssociate(Cut(seg, 0, a[0]), CutAll(seg, a[1..]), CutAll(seg, b));
    }
  }

  lemma PiecesAssociate(x: seq<Bytes>, y: seq<Bytes>, z: seq<Bytes>)
    ensures x + (y + z) == x + y + z
  {
  }

  lemma {:induction false} CutAllLength(seg: Segmenter, coarse: seq<Bytes>)
    requires PrefixStable(seg)
    ensures |CutAll(seg, coarse)| == Sum(CountsOf(seg, coarse))
  {
    if coarse != [] {
      var n := |coarse| - 1;
      CutAllLength(seg, coarse[..n]);
      assert coarse == coarse[..n] + [coarse[n]];
      CutAllAppend(seg, coarse[..n], [coarse[n]]);
      assert CutAll(seg, [coarse[n]]) == Cut(seg, 0, coarse[n]) + CutAll(seg, []);
      assert CountsOf(seg, coarse) == CountsOf(seg, coarse[..n]) + [|Cut(seg, 0, coarse[n])|];
      SumAppend(CountsOf(seg, coarse[..n]), |Cut(seg, 0, coarse[n])|);
    }
  }

  /** The sequence numbers given out by the two fragmentation stages put a chunk at its place in the input: the order in
    * which Reorder writes is the order of the data. */
  lemma SequenceIsPlace(seg: Segmenter, coarse: seq<Bytes>, a: nat, b: nat)
    requires PrefixStable(seg) && (forall i :: 0 <= i < |coarse| ==> coarse[i] != []) && a < |coarse| && b < |Cut(seg, 0, coarse[a])|
    ensures Counts(CountsOf(seg, coarse))
    ensures 0 <= Place(CountsOf(seg, coarse), a, b) < |CutAll(seg, coarse)|
    ensures CutAll(seg, coarse)[Place(CountsOf(seg, coarse), a, b)] == Cut(seg, 0, coarse[a])[b]
  {
    hide Cut, PrefixStable;
    var cs := CountsOf(seg, coarse);
    forall i | 0 <= i < |coarse| ensures cs[i] >= 1 { SomePiece(seg, coarse[i]); }
    var before, here := CutAll(seg, coarse[..a]), Cut(seg, 0, coarse[a]);
    CutAllLength(seg, coarse[..a]);
    assert cs[..a] == CountsOf(seg, coarse[..a]);
    CutAllSplit(seg, coarse, a);
    hide CutAll, CountsOf;
    PieceAt(before, here, CutAll(seg, coarse[a + 1..]), b);
  }

  lemma SomePiece(seg: Segmenter, data: Bytes)
    requires PrefixStable(seg) && data != []
    ensures |Cut(seg, 0, data)| >= 1
  {
  }

  lemma CutAllSplit(seg: Segmenter, coarse: seq<Bytes>, a: nat)
    requires PrefixStable(seg) && a < |coarse|
    ensures CutAll(seg, coarse) == CutAll(seg, coarse[..a]) + (Cut(seg, 0, coarse[a]) + CutAll(seg, coarse[a + 1..]))
  {
    hide Cut, PrefixStable;
    assert coarse == coarse[..a] + coarse[a..];
    CutAllAppend(seg, coarse[..a], coarse[a..]);
    assert coarse[a..][0] == coarse[a] && coarse[a..][1..] == coarse[a + 1..];
  }

  lemma PieceAt(before: seq<Bytes>, here: seq<Bytes>, after: seq<Bytes>, b: nat)
    requires b < |here|
    ensures (before + (here + after))[|before| + b] == here[b]
  {
  }

  /** No two different chunks of the input share a SHA1 sum. */
  ghost predicate NoCollision(sha: Bytes -> nat, chunks: seq<Bytes>)
  {
    forall i, j :: 0 <= i < |chunks| && 0 <= j < |chunks| && sha(chunks[i]) == sha(chunks[j]) ==> chunks[i] == chunks[j]
  }

  function ShaSums(sha: Bytes -> nat, chunks: seq<Bytes>): (r: seq<nat>)
    ensures |r| == |chunks| && forall i :: 0 <= i < |chunks| ==> r[i] == sha(chunks[i])
  {
    seq(|chunks|, i requires 0 <= i < |chunks| => sha(chunks[i]))
  }

  /** The data behind a SHA1 sum. */
  function ContentOf(sha: Bytes -> nat, chunks: seq<Bytes>, k: nat): Bytes
  {
    if chunks == [] then [] else if sha(chunks[0]) == k then chunks[0] else ContentOf(sha, chunks[1..], k)
  }

  lemma {:induction false} ContentFound(sha: Bytes -> nat, chunks: seq<Bytes>, i: nat)
    requires NoCollision(sha, chunks) && i < |chunks|
    ensures ContentOf(sha, chunks, sha(chunks[i])) == chunks[i]
  {
    if sha(chunks[0]) != sha(chunks[i]) {
      assert forall j :: 0 <= j < |chunks| - 1 ==> chunks[1..][j] == chunks[j + 1];
      ContentFound(sha, chunks[1..], i - 1);
    }
  }

  /** write_file: the bytes that stand for a record. */
  function OnFile(sha: Bytes -> nat, compress: Bytes -> Bytes, chunks: seq<Bytes>, r: Record): FileRecord
  {
    match r
    case TypeCompress(k) => Data(compress(ContentOf(sha, chunks, k)))
    case TypeFingerprint(k) => Fingerprint(k)
  }

  function File(sha: Bytes -> nat, compress: Bytes -> Bytes, chunks: seq<Bytes>, out: seq<Record>): (r: seq<FileRecord>)
    ensures |r| == |out| && forall i :: 0 <= i < |out| ==> r[i] == OnFile(sha, compress, chunks, out[i])
  {
    seq(|out|, i requires 0 <= i < |out| => OnFile(sha, compress, chunks, out[i]))
  }

  /** Expanding a file; `known` holds the data read so far by SHA1 sum. */
  function Decode(sha: Bytes -> nat, decompress: Bytes -> Bytes, file: seq<FileRecord>, known: map<nat, Bytes>): Option<Bytes>
  {
    if file == [] then Some([])
    else match file[0]
      case Data(z) =>
        var d := decompress(z);
        (match Decode(sha, decompress, file[1..], known[sha(d) := d])
         case None => None
         case Some(rest) => Some(d + rest))
      case Fingerprint(k) =>
        if k !in known then None
        else match Decode(sha, decompress, file[1..], known)
          case None => None
          case Some(rest) => Some(known[k] + rest)
  }

  /** `known` after the first n chunks. */
  ghost predicate Knows(sha: Bytes -> nat, chunks: seq<Bytes>, n: nat, known: map<nat, Bytes>)
    requires n <= |chunks|
  {
    && (forall k :: k in known <==> k in ShaSums(sha, chunks)[..n])
    && (forall i :: 0 <= i < n ==> sha(chunks[i]) in known && known[sha(chunks[i])] == chunks[i])
  }

  lemma {:induction false} DecodeSerial(sha: Bytes -> nat, compress: Bytes -> Bytes, decompress: Bytes -> Bytes,
                                        chunks: seq<Bytes>, n: nat, known: map<nat, Bytes>)
    requires NoCollision(sha, chunks) && (forall x: Bytes :: decompress(compress(x)) == x)
    requires n <= |chunks| && Knows(sha, chunks, n, known)
    ensures Decode(sha, decompress, File(sha, compress, chunks, SerialStream(ShaSums(sha, chunks), |chunks|))[n..], known)
         == Some(Concat(chunks[n..]))
    decreases |chunks| - n
  {
    hide Knows, NoCollision, SerialStream;
    var sums := ShaSums(sha, chunks);
    var file := File(sha, compress, chunks, SerialStream(sums, |chunks|));
    if n == |chunks| {
      assert file[n..] == [] && chunks[n..] == [];
    } else {
      assert file[n..][0] == OnFile(sha, compress, chunks, SerialRecord(sums, n)) && file[n..][1..] == file[n + 1..];
      assert chunks[n..] == [chunks[n]] + chunks[n + 1..];
      ContentFound(sha, chunks, n);
      if sums[n] in sums[..n] {
        KnownContent(sha, chunks, n, known);
        DecodeSerial(sha, compress, decompress, chunks, n + 1, known);
      } else {
        NewContent(sha, chunks, n, known);
        DecodeSerial(sha, compress, decompress, chunks, n + 1, known[sums[n] := chunks[n]]);
      }
    }
  }

  lemma KnownContent(sha: Bytes -> nat, chunks: seq<Bytes>, n: nat, known: map<nat, Bytes>)
    requires NoCollision(sha, chunks) && n < |chunks| && Knows(sha, chunks, n, known)
    requires ShaSums(sha, chunks)[n] in ShaSums(sha, chunks)[..n]
    ensures sha(chunks[n]) in known && known[sha(chunks[n])] == chunks[n] && Knows(sha, chunks, n + 1, known)
  {
    var sums := ShaSums(sha, chunks);
    var i :| 0 <= i < n && sums[..n][i] == sums[n];
    assert sums[..n + 1] == sums[..n] + [sums[n]];
  }

  lemma NewContent(sha: Bytes -> nat, chunks: seq<Bytes>, n: nat, known: map<nat, Bytes>)
    requires n < |chunks| && Knows(sha, chunks, n, known)
    requires ShaSums(sha, chunks)[n] !in ShaSums(sha, chunks)[..n]
    ensures Knows(sha, chunks, n + 1, known[sha(chunks[n]) := chunks[n]])
  {
    var sums := ShaSums(sha, chunks);
    assert sums[..n + 1] == sums[..n] + [sums[n]];
    forall i | 0 <= i < n ensures sha(chunks[i]) != sums[n] { assert sums[..n][i] == sha(chunks[i]); }
  }

  /** No earlier chunk has the same content. */
  ghost predicate NewChunk(chunks: seq<Bytes>, i: nat)
    requires i < |chunks|
  {
    forall j :: 0 <= j < i ==> chunks[j] != chunks[i]
  }

  /** The file has the compressed data of every new chunk and the SHA1 sum of every other one. */
  lemma FileIsDeduplicated(sha: Bytes -> nat, compress: Bytes -> Bytes, chunks: seq<Bytes>, out: seq<Record>, i: nat)
    requires NoCollision(sha, chunks) && Deduplicated(ShaSums(sha, chunks), out) && |out| == |chunks| && i < |chunks|
    ensures File(sha, compress, chunks, out)[i] == if NewChunk(chunks, i) then Data(compress(chunks[i])) else Fingerprint(sha(chunks[i]))
  {
    ContentFound(sha, chunks, i);
    var sums := ShaSums(sha, chunks);
    if NewChunk(chunks, i) {
      forall j | 0 <= j < i ensures sums[j] != sums[i] { assert chunks[j] != chunks[i]; }
    } else {
      var j :| 0 <= j < i && chunks[j] == chunks[i];
      assert sums[j] == sums[i];
    }
  }

  /** The round trip: in every complete run of the pipeline, on any number of threads and any schedule, the file written
    * decodes to the input. */
  lemma EncodeThenDecode(seg: Segmenter, jump: nat, input: Bytes, sha: Bytes -> nat, compress: Bytes -> Bytes,
                         decompress: Bytes -> Bytes, c: Config, steps: seq<Step>, s: State)
    requires PrefixStable(seg) && NoCollision(sha, ChunksOf(seg, jump, input))
    requires forall x: Bytes :: decompress(compress(x)) == x
    requires ConfigOk(c) && c.sha1 == ShaSums(sha, ChunksOf(seg, jump, input))
    requires Run(c, Initial(c), steps, s) && s.ended
    ensures Decode(sha, decompress, File(sha, compress, ChunksOf(seg, jump, input), s.out), map[]) == Some(input)
    ensures var chunks := ChunksOf(seg, jump, input); var file := File(sha, compress, chunks, s.out);
      && |file| == |chunks|
      && (forall i :: 0 <= i < |file| ==> file[i] == if NewChunk(chunks, i) then Data(compress(chunks[i])) else Fingerprint(sha(chunks[i])))
  {
    var chunks := ChunksOf(seg, jump, input);
    InvInitially(c);
    RunKeeps(c, Initial(c), steps, s);
    EndedMeansDone(c, s);
    hide Run, Inv, PrefixStable, ChunksOf, NoCollision, Decode, Deduplicated, SerialStream, NewChunk;
    forall i | 0 <= i < |chunks|
      ensures File(sha, compress, chunks, s.out)[i] == if NewChunk(chunks, i) then Data(compress(chunks[i])) else Fingerprint(sha(chunks[i]))
    {
      FileIsDeduplicated(sha, compress, chunks, s.out, i);
    }
    assert Knows(sha, chunks, 0, map[]) by { NothingKnown(sha, chunks); }
    DecodeSerial(sha, compress, decompress, chunks, 0, map[]);
    assert chunks[0..] == chunks;
    var file := File(sha, compress, chunks, s.out);
    assert file[0..] == file;
    ChunksAreTheInput(seg, jump, input);
  }

  lemma NothingKnown(sha: Bytes -> nat, chunks: seq<Bytes>)
    ensures Knows(sha, chunks, 0, map[])
  {
  }
}
