/** Cutting the input into chunks: Fragment (coarse), FragmentRefine (fine) and the loop of SerialIntegratedPipeline. The
  * rolling fingerprint is a parameter with one law: whether a position is an anchor only depends on the bytes before it.
  */
module Chunking {
  import opened Common

  type Segmenter = seq<byte> -> nat

  /** rabinseg returns the first anchor at 1 .. n, or n. So on a prefix it returns the same, cut off at the prefix's length. */
  ghost predicate PrefixStable(seg: Segmenter)
  {
    && (forall s: seq<byte> :: s != [] ==> 1 <= seg(s) <= |s|)
    && (forall s: seq<byte>, t: seq<byte> :: s != [] ==> seg(s) == if seg(s + t) < |s| then seg(s + t) else |s|)
  }

  /** Where `data` is cut when an anchor is looked for from position `jump` on; |data| for nowhere. */
  function CutAt(seg: Segmenter, jump: nat, data: seq<byte>): nat
  {
    if jump < |data| then jump + seg(data[jump..]) else |data|
  }

  /** One-shot chunking of the whole data. */
  ghost function Cut(seg: Segmenter, jump: nat, data: seq<byte>): seq<seq<byte>>
    requires PrefixStable(seg)
    decreases |data|
  {
    var k := CutAt(seg, jump, data);
    if data == [] then []
    else if k < |data| then [data[..k]] + Cut(seg, jump, data[k..])
    else [data]
  }

  function Concat(chunks: seq<seq<byte>>): seq<byte>
  {
    if chunks == [] then [] else chunks[0] + Concat(chunks[1..])
  }

  lemma {:induction false} ConcatAppend(a: seq<seq<byte>>, b: seq<seq<byte>>)
    ensures Concat(a + b) == Concat(a) + Concat(b)
  {
    if a == [] { assert a + b == b; } else {
      assert (a + b)[1..] == a[1..] + b;
      ConcatAppend(a[1..], b);
    }
  }

  /** The chunks are consecutive pieces of the data, none of them empty. */
  lemma {:induction false} CutIsConsecutive(seg: Segmenter, jump: nat, data: seq<byte>)
    requires PrefixStable(seg)
    ensures Concat(Cut(seg, jump, data)) == data
    ensures forall i :: 0 <= i < |Cut(seg, jump, data)| ==> Cut(seg, jump, data)[i] != []
    decreases |data|
  {
    var k := CutAt(seg, jump, data);
    if data != [] {
      if k < |data| {
        CutIsConsecutive(seg, jump, data[k..]);
        assert Cut(seg, jump, data)[1..] == Cut(seg, jump, data[k..]);
      } else {
        assert Concat([data]) == data + Concat([]);
      }
    }
  }

  /** Where piece i begins. */
  function StartOf(pieces: seq<seq<byte>>, i: nat): nat
    requires i <= |pieces|
  {
    if i == 0 then 0 else StartOf(pieces, i - 1) + |pieces[i - 1]|
  }

  /** Piece i lies where the pieces before it end. If another one follows, it ends at the first anchor more than `jump` bytes behind its
    * start; if it is the last one, there is no such anchor.
    */
  ghost predicate PieceOk(seg: Segmenter, jump: nat, data: seq<byte>, pieces: seq<seq<byte>>, i: nat)
    requires i < |pieces|
  {
    var start, n := StartOf(pieces, i), |pieces[i]|;
    && n > 0 && start + n <= |data| && pieces[i] == data[start..start + n]
    && (i < |pieces| - 1 ==> n > jump && n - jump == seg(data[start + jump..]))
    && (i == |pieces| - 1 ==> start + n == |data| && (n <= jump || seg(data[start + jump..]) == n - jump))
  }

  ghost predicate CutAtAnchors(seg: Segmenter, jump: nat, data: seq<byte>, pieces: seq<seq<byte>>)
  {
    (pieces == [] <==> data == []) && forall i :: 0 <= i < |pieces| ==> PieceOk(seg, jump, data, pieces, i)
  }

  lemma {:induction false} StartBehind(a: seq<byte>, b: seq<seq<byte>>, i: nat)
    requires i <= |b|
    ensures StartOf([a] + b, i + 1) == |a| + StartOf(b, i)
  {
    if i > 0 { StartBehind(a, b, i - 1); }
  }

  lemma PieceBehind(seg: Segmenter, jump: nat, data: seq<byte>, k: nat, b: seq<seq<byte>>, i: nat)
    requires k <= |data| && i < |b| && PieceOk(seg, jump, data[k..], b, i)
    ensures PieceOk(seg, jump, data, [data[..k]] + b, i + 1)
  {
    StartBehind(data[..k], b, i);
    var start, n := StartOf(b, i), |b[i]|;
    assert data[k..][start..start + n] == data[k + start..k + start + n];
    if n > jump { assert data[k..][start + jump..] == data[k + start + jump..]; }
  }

  /** One-shot chunking cuts at exactly the anchors that are far enough behind the cut before. */
  lemma {:induction false} CutsAtAnchors(seg: Segmenter, jump: nat, data: seq<byte>)
    requires PrefixStable(seg)
    ensures CutAtAnchors(seg, jump, data, Cut(seg, jump, data))
    decreases |data|
  {
    if data != [] {
      var k := CutAt(seg, jump, data);
      AnchorIsNear(seg, jump, data);
      if k < |data| {
        assert Cut(seg, jump, data) == [data[..k]] + Cut(seg, jump, data[k..]);
        hide Cut, PrefixStable, CutAt, CutAtAnchors, PieceOk;
        CutsAtAnchors(seg, jump, data[k..]);
        FirstPiece(seg, jump, data, k, Cut(seg, jump, data[k..]));
      } else {
        assert data[0..|data|] == data;
      }
    }
  }

  lemma AnchorIsNear(seg: Segmenter, jump: nat, data: seq<byte>)
    requires PrefixStable(seg) && data != []
    ensures jump < |data| ==> jump < CutAt(seg, jump, data) <= |data| && CutAt(seg, jump, data) - jump == seg(data[jump..])
    ensures jump >= |data| ==> CutAt(seg, jump, data) == |data|
  {
    if jump < |data| { assert 1 <= seg(data[jump..]) <= |data[jump..]|; }
  }

  lemma FirstPiece(seg: Segmenter, jump: nat, data: seq<byte>, k: nat, b: seq<seq<byte>>)
    requires jump < k < |data| && k - jump == seg(data[jump..]) && CutAtAnchors(seg, jump, data[k..], b)
    ensures CutAtAnchors(seg, jump, data, [data[..k]] + b)
  {
    var pieces := [data[..k]] + b;
    assert b != [] && data[0..k] == data[..k];
    forall i | 0 <= i < |pieces| ensures PieceOk(seg, jump, data, pieces, i) {
      if i > 0 {
        assert PieceOk(seg, jump, data[k..], b, i - 1);
        hide *;
        PieceBehind(seg, jump, data, k, b, i - 1);
      }
    }
  }

  /** More data behind a buffer does not change where the buffer is cut. */
  lemma CutStable(seg: Segmenter, jump: nat, buf: seq<byte>, more: seq<byte>)
    requires PrefixStable(seg) && CutAt(seg, jump, buf) < |buf|
    ensures CutAt(seg, jump, buf) > 0
    ensures Cut(seg, jump, buf + more)
         == [buf[..CutAt(seg, jump, buf)]] + Cut(seg, jump, buf[CutAt(seg, jump, buf)..] + more)
  {
    var k := CutAt(seg, jump, buf);
    var data := buf + more;
    assert data[jump..] == buf[jump..] + more;
    assert seg(buf[jump..] + more) == seg(buf[jump..]);
    assert CutAt(seg, jump, data) == k;
    assert data[..k] == buf[..k] && data[k..] == buf[k..] + more;
  }

  /** A chunk on its way to the refinement stage, with its level-1 sequence number. */
  datatype Coarse = Coarse(data: seq<byte>, l1num: nat)

  function DataOf(chunks: seq<Coarse>): (r: seq<seq<byte>>)
    ensures |r| == |chunks| && forall i :: 0 <= i < |chunks| ==> r[i] == chunks[i].data
  {
    seq(|chunks|, i requires 0 <= i < |chunks| => chunks[i].data)
  }

  /** The chunks carry the numbers k, k + 1, ... */
  ghost predicate NumberedFrom(chunks: seq<Coarse>, k: nat)
  {
    forall i :: 0 <= i < |chunks| ==> chunks[i].l1num == k + i
  }

  lemma NothingNumbered()
    ensures NumberedFrom([], 0)
  {
  }

  lemma NumberedLast(out: seq<Coarse>, data: seq<byte>, l1num: nat)
    requires NumberedFrom(out, 0) && l1num == |out|
    ensures NumberedFrom(out + [Coarse(data, l1num)], 0)
  {
  }

  lemma NumberedConcat(a: seq<Coarse>, b: seq<Coarse>, k: nat)
    requires NumberedFrom(a, k) && NumberedFrom(b, k + |a|)
    ensures NumberedFrom(a + b, k)
  {
  }

  lemma MoreData(out: seq<Coarse>, c: Coarse, rest: seq<seq<byte>>)
    ensures DataOf(out + [c]) + rest == DataOf(out) + ([c.data] + rest)
  {
  }

  lemma AllData(a: seq<Coarse>, b: seq<Coarse>, rest: seq<seq<byte>>)
    ensures DataOf(a + b) + rest == DataOf(a) + (DataOf(b) + rest)
  {
  }

  /** `while(bytes_read < MAXBUF) { r = read(...); if(r==0) break; ... }`: `shorts` decides how short every read falls. */
  method FillBuffer(input: seq<byte>, pos: nat, MAXBUF: nat, shorts: nat -> nat) returns (bytes: seq<byte>)
    requires pos <= |input|
    ensures bytes == if MAXBUF < |input| - pos then input[pos..pos + MAXBUF] else input[pos..]
  {
    bytes := [];
    while |bytes| < MAXBUF
      invariant pos + |bytes| <= |input| && |bytes| <= MAXBUF && bytes == input[pos..pos + |bytes|]
      decreases MAXBUF - |bytes|
    {
      var wanted := MAXBUF - |bytes|;
      var there := |input| - pos - |bytes|;
      var most := if wanted < there then wanted else there;
      // read returns 0 only at the end of the file
      var r := if most == 0 then 0 else 1 + shorts(pos + |bytes|) % most;
      if r == 0 { break; }
      bytes := bytes + input[pos + |bytes|..pos + |bytes| + r];
    }
  }

  /** The splitting loop inside: everything up to the last cut goes out, the rest stays for the next buffer. */
  method SplitBuffer(seg: Segmenter, jump: nat, buf0: seq<byte>, l1num0: nat, anchorcount0: nat, ghost more: seq<byte>)
      returns (out: seq<Coarse>, temp: Coarse, anchorcount: nat)
    requires PrefixStable(seg) && buf0 != [] && anchorcount0 == l1num0 + 1
    ensures Cut(seg, jump, buf0 + more) == DataOf(out) + Cut(seg, jump, temp.data + more)
    ensures temp.data != [] && |temp.data| <= |buf0| && CutAt(seg, jump, temp.data) >= |temp.data|
    ensures NumberedFrom(out, l1num0)
    ensures temp.l1num == l1num0 + |out| && anchorcount == temp.l1num + 1
  {
    hide Cut, PrefixStable;
    out, temp, anchorcount := [], Coarse(buf0, l1num0), anchorcount0;
    while jump < |temp.data| && CutAt(seg, jump, temp.data) < |temp.data|
      invariant Cut(seg, jump, buf0 + more) == DataOf(out) + Cut(seg, jump, temp.data + more)
      invariant temp.data != [] && |temp.data| <= |buf0|
      invariant NumberedFrom(out, l1num0)
      invariant temp.l1num == l1num0 + |out| && anchorcount == temp.l1num + 1
      decreases |temp.data|
    {
      var k := CutAt(seg, jump, temp.data);
      CutStable(seg, jump, temp.data, more);
      MoreData(out, Coarse(temp.data[..k], temp.l1num), Cut(seg, jump, temp.data[k..] + more));
      out := out + [Coarse(temp.data[..k], temp.l1num)];
      temp := Coarse(temp.data[k..], anchorcount);
      anchorcount := anchorcount + 1;
    }
  }

  /** Fragment. Whatever the buffer size and the short reads, the coarse chunks are those of the whole input, numbered
    * 0, 1, 2, ... in order. */
  method Fragment(input: seq<byte>, seg: Segmenter, jump: nat, MAXBUF: nat, shorts: nat -> nat) returns (out: seq<Coarse>)
    requires PrefixStable(seg) && MAXBUF > 0
    ensures DataOf(out) == Cut(seg, jump, input)
    ensures CutAtAnchors(seg, jump, input, DataOf(out))
    ensures NumberedFrom(out, 0)
  {
    hide *;
    out := [];
    NothingNumbered();
    var temp, anchorcount, pos := Coarse([], 0), 0, 0;
    assert [] + input[0..] == input && DataOf([]) == [] && [] + Cut(seg, jump, input) == Cut(seg, jump, input);
    while true
      invariant pos <= |input|
      invariant Cut(seg, jump, input) == DataOf(out) + Cut(seg, jump, temp.data + input[pos..])
      invariant NumberedFrom(out, 0)
      invariant if temp.data == [] then out == [] && pos == 0 && anchorcount == 0
                else temp.l1num == |out| && anchorcount == |out| + 1 && CutAt(seg, jump, temp.data) >= |temp.data|
      decreases |input| - pos
    {
      // brand new mbuffers take the next sequence number, extensions of a stub keep the stub's
      var l1num := temp.l1num;
      if temp.data == [] { l1num := anchorcount; anchorcount := anchorcount + 1; }
      var bytes := FillBuffer(input, pos, MAXBUF, shorts);
      var buf := temp.data + bytes;
      if buf == [] {
        AtEnd(seg, jump, input, pos, out, temp.data, l1num);
        break;
      }
      if bytes == [] {
        AtEnd(seg, jump, input, pos, out, temp.data, l1num);
        assert buf == temp.data;
        NumberedLast(out, buf, l1num);
        out := out + [Coarse(buf, l1num)];
        break;
      }
      Shift(temp.data, bytes, input, pos);
      pos := pos + |bytes|;
      var some;
      some, temp, anchorcount := SplitBuffer(seg, jump, buf, l1num, anchorcount, input[pos..]);
      AllData(out, some, Cut(seg, jump, temp.data + input[pos..]));
      NumberedConcat(out, some, 0);
      out := out + some;
    }
    CutsAtAnchors(seg, jump, input);
  }

  /** At the end of the file the stub is a chunk of its own. */
  lemma AtEnd(seg: Segmenter, jump: nat, input: seq<byte>, pos: nat, out: seq<Coarse>, stub: seq<byte>, l1num: nat)
    requires PrefixStable(seg) && pos == |input| && (stub != [] ==> CutAt(seg, jump, stub) >= |stub|)
    requires Cut(seg, jump, input) == DataOf(out) + Cut(seg, jump, stub + input[pos..])
    ensures Cut(seg, jump, input) == DataOf(if stub == [] then out else out + [Coarse(stub, l1num)])
  {
    assert stub + input[pos..] == stub;
    assert DataOf(out) + [] == DataOf(out);
    assert DataOf(out + [Coarse(stub, l1num)]) == DataOf(out) + [stub];
  }

  lemma Shift(stub: seq<byte>, bytes: seq<byte>, input: seq<byte>, pos: nat)
    requires pos + |bytes| <= |input| && bytes == input[pos..pos + |bytes|]
    ensures stub + input[pos..] == (stub + bytes) + input[pos + |bytes|..]
  {
    assert input[pos..] == bytes + input[pos + |bytes|..];
  }

  /** A chunk on its way to deduplication, with both sequence numbers. */
  datatype Fine = Fine(data: seq<byte>, l1num: nat, l2num: nat, isLastL2Chunk: bool)

  function FineOf(pieces: seq<seq<byte>>, l1num: nat, from: nat, last: bool): (r: seq<Fine>)
    ensures |r| == |pieces|
    ensures forall i :: 0 <= i < |pieces| ==> r[i] == Fine(pieces[i], l1num, from + i, last && i == |pieces| - 1)
  {
    seq(|pieces|, i requires 0 <= i < |pieces| => Fine(pieces[i], l1num, from + i, last && i == |pieces| - 1))
  }

  /** FragmentRefine on one coarse chunk: cut without a jump; only the last piece is marked as last. */
  method FragmentRefine(chunk: Coarse, seg: Segmenter) returns (out: seq<Fine>)
    requires PrefixStable(seg) && chunk.data != []
    ensures out == FineOf(Cut(seg, 0, chunk.data), chunk.l1num, 0, true) && out != []
    ensures CutAtAnchors(seg, 0, chunk.data, PiecesOf(out))
    ensures forall i :: 0 <= i < |out| ==> out[i].l1num == chunk.l1num && out[i].l2num == i && (out[i].isLastL2Chunk <==> i == |out| - 1)
  {
    hide Cut, PrefixStable, CutAtAnchors, PiecesOf;
    out := [];
    var rest := chunk.data;
    var chcount := 0;
    var split := true;
    assert Cut(seg, 0, chunk.data)[0..] == Cut(seg, 0, chunk.data);
    while split
      invariant chcount <= |Cut(seg, 0, chunk.data)|
      invariant split ==> rest != [] && Cut(seg, 0, chunk.data)[chcount..] == Cut(seg, 0, rest)
      invariant split ==> out == FineOf(Cut(seg, 0, chunk.data)[..chcount], chunk.l1num, 0, false)
      invariant !split ==> out == FineOf(Cut(seg, 0, chunk.data), chunk.l1num, 0, true) && out != []
      decreases if split then 1 + |rest| else 0
    {
      NextPiece(seg, rest);
      ghost var all := Cut(seg, 0, chunk.data);
      assert all[chcount] == all[chcount..][0] && all[chcount + 1..] == all[chcount..][1..];
      var offset := seg(rest);
      if offset < |rest| {
        out := out + [Fine(rest[..offset], chunk.l1num, chcount, false)];
        rest := rest[offset..];
        chcount := chcount + 1;
      } else {
        out := out + [Fine(rest, chunk.l1num, chcount, true)];
        chcount := chcount + 1;
        split := false;
      }
    }
    CutsAtAnchors(seg, 0, chunk.data);
    RefinedPieces(Cut(seg, 0, chunk.data), chunk.l1num);
  }

  lemma RefinedPieces(pieces: seq<seq<byte>>, l1num: nat)
    ensures PiecesOf(FineOf(pieces, l1num, 0, true)) == pieces
  {
  }

  function PiecesOf(fine: seq<Fine>): seq<seq<byte>> { seq(|fine|, i requires 0 <= i < |fine| => fine[i].data) }

  lemma NextPiece(seg: Segmenter, rest: seq<byte>)
    requires PrefixStable(seg) && rest != []
    ensures 1 <= seg(rest) <= |rest|
    ensures Cut(seg, 0, rest) == if seg(rest) < |rest| then [rest[..seg(rest)]] + Cut(seg, 0, rest[seg(rest)..]) else [rest]
  {
    assert rest[0..] == rest;
  }
}
