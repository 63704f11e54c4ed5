/**
 Uploads that break off: what both aws-chunked decoders make of every prefix of an encoded payload.
 */
module AwsCuts {
  import opened Wrappers
  import opened AwsChunked
  import opened AwsReader
  import opened AwsHeaders
  import opened AwsAgreement

  // ---------------------------------------------------------------- where a cut falls

  datatype Place =
    | BetweenChunks        // in front of a header line, or of the zero header
    | InHeader(text: string)  // some of a header line is there
    | InData               // the data of a chunk is incomplete
    | BehindData           // the data is complete and its line end is missing
    | BehindCr             // the cut is inside that line end
    | BehindLast           // the zero header is complete

  /** A cut, and the payload in front of it. */
  datatype Cut = Cut(place: Place, payload: string)

  function FrameLength(f: Frame): nat {
    |f.header| + 2 + |f.data| + 2
  }

  /** A cut after `n` bytes of a chunk that is not complete. */
  function CutChunk(f: Frame, n: nat): Cut
    requires n < FrameLength(f)
  {
    var h, d := |f.header|, |f.data|;
    if n == 0 then Cut(BetweenChunks, "")
    else if n < h + 2 then Cut(InHeader(f.header[..Min(n, h)]), "")
    else if n < h + 2 + d then Cut(InData, f.data[..n - h - 2])
    else Cut(if n == h + 2 + d then BehindData else BehindCr, f.data)
  }

  /** A cut behind the last chunk. */
  function LastPlace(last: string, n: nat): Place {
    if n == 0 then BetweenChunks else if n <= |last| then InHeader(last[..n]) else BehindLast
  }

  /** A cut after `n` bytes of an encoded payload. */
  function CutAt(frames: seq<Frame>, last: string, n: nat): Cut
    decreases |frames|
  {
    if |frames| == 0 then Cut(LastPlace(last, n), "")
    else if n < FrameLength(frames[0]) then CutChunk(frames[0], n)
    else
      var c := CutAt(frames[1..], last, n - FrameLength(frames[0]));
      Cut(c.place, frames[0].data + c.payload)
  }

  /** The places where the pull decoder takes the end of the input for the end of the upload. */
  predicate CleanEnd(place: Place) {
    match place
    case BetweenChunks => true
    case InHeader(text) => HeaderSize(text) == Some(0)
    case InData => false
    case BehindData => true
    case BehindCr => true
    case BehindLast => true
  }

  // ---------------------------------------------------------------- header lines that are not complete

  /** Text in front of a semicolon that is blank or hex digits. */
  predicate SizeText(s: string) {
    forall c :: c in s ==> IsSpace(c) || HexDigit(c).Some?
  }

  lemma {:induction false} BeforePrefix(s: string, t: string, c: char)
    requires s <= t
    ensures Before(s, c) <= Before(t, c)
  {
    if |s| > 0 && s[0] != c {
      assert s[1..] <= t[1..];
      BeforePrefix(s[1..], t[1..], c);
    }
  }

  /** In front of a semicolon, a header that has a size holds nothing but blanks and digits. */
  lemma HeaderText(line: string)
    requires HeaderSize(line).Some?
    ensures SizeText(Before(line, ';'))
  {
    var b := Before(line, ';');
    HexText(Trim(b));
    TrimRightLoses(b);
    TrimLeftLoses(TrimRight(b));
  }

  /** The pull decoder reads a piece of a header as zero exactly when the push decoder does. */
  lemma PieceReads(text: string)
    requires SizeText(Before(text, ';'))
    ensures GoHeaderSize(text) == Some(0) <==> HeaderSize(text) == Some(0)
  {
    var b := Before(text, ';');
    TrimRightLoses(b);
    TrimLeftLoses(TrimRight(b));
    var size := Trim(b);
    if size != "" { assert size[0] in b; }
  }

  /** A piece of a header, with or without the CR of its line end, and nothing behind it. */
  lemma DrainPiece(text: string, cr: string)
    requires (cr == "" || cr == "\r") && text + cr != "" && '\n' !in text && SizeText(Before(text, ';'))
    ensures DrainFrom(0, text + cr).payload == ""
    ensures DrainFrom(0, text + cr).error == Eof <==> HeaderSize(text) == Some(0)
  {
    var s := text + cr;
    WholeLine(s);
    SizeOfPiece(text, cr);
    PieceReads(text);
  }

  /** The end of the line does not change how its size reads. */
  lemma SizeOfPiece(text: string, cr: string)
    requires cr == "" || cr == "\r"
    ensures GoHeaderSize(TrimLineEnd(text + cr)) == GoHeaderSize(text)
  {
    assert text + "" == text;
    TrimsAgree(text + cr);
    if cr == "\r" { SizeTextShorter(text, '\r'); }
  }

  // ---------------------------------------------------------------- one chunk

  lemma TakeSum(a: string, b: string, n: nat)
    requires n <= |a| + |b|
    ensures (a + b)[..n] == if n <= |a| then a[..n] else a + b[..n - |a|]
  {
  }

  lemma FrameText(f: Frame, rest: string)
    ensures f.header + CRLF + (f.data + (CRLF + rest)) == (f.header + CRLF + f.data + CRLF) + rest
  {
  }

  /** What the pull decoder makes of some bytes and their place. */
  predicate Verdict(text: string, c: Cut) {
    var d := DrainFrom(0, text);
    d.payload == c.payload && (d.error == Eof <==> CleanEnd(c.place))
  }

  lemma ChunkCutInHeader(f: Frame, n: nat)
    requires GoFrameOk(f) && n < |f.header| + 2
    ensures Verdict((f.header + CRLF)[..n], CutChunk(f, n))
  {
    var h := f.header;
    TakeSum(h, CRLF, n);
    if n > 0 {
      HeaderText(h);
      var text, cr := h[..Min(n, |h|)], if n <= |h| then "" else "\r";
      BeforePrefix(text, h, ';');
      assert (h + CRLF)[..n] == text + cr;
      DrainPiece(text, cr);
    }
  }

  /** Some bytes of the data of a chunk, and perhaps the CR behind it. */
  lemma DrainSome(f: Frame, bytes: string)
    requires GoFrameOk(f) && bytes <= f.data + "\r"
    ensures var d := DrainFrom(0, f.header + CRLF + bytes);
      && d.payload == bytes[..Min(|bytes|, |f.data|)]
      && (d.error == Eof <==> |bytes| >= |f.data|)
  {
    LineText(f.header, bytes);
    HeaderLine(f.header + CRLF + bytes, |f.header|);
    var n := |f.data|;
    if |bytes| >= n {
      DrainChunk(n, bytes);
      assert CrlfError(bytes[n..]) == Some(Eof);
    } else {
      assert bytes[..|bytes|] == bytes;
    }
  }

  lemma ChunkCutBehindHeader(f: Frame, n: nat)
    requires GoFrameOk(f) && |f.header| + 2 <= n < FrameLength(f)
    ensures Verdict((f.header + CRLF + (f.data + CRLF))[..n], CutChunk(f, n))
  {
    var h, k := f.header + CRLF, n - |f.header| - 2;
    TakeSum(h, f.data + CRLF, n);
    var bytes := (f.data + CRLF)[..k];
    assert (h + (f.data + CRLF))[..n] == h + bytes;
    TakeSum(f.data, CRLF, k);
    assert CRLF[..1] == "\r";
    DrainSome(f, bytes);
  }

  lemma ChunkCut(f: Frame, text: string, rest: string, p: string)
    requires GoFrameOk(f) && text == f.header + CRLF + (f.data + (CRLF + rest))
    requires p <= text && |p| < FrameLength(f)
    ensures Verdict(p, CutChunk(f, |p|))
  {
    ChunkFront(f, text, rest, p);
    if |p| < |f.header| + 2 { ChunkCutInHeader(f, |p|); } else { ChunkCutBehindHeader(f, |p|); }
  }

  /** A cut inside a chunk does not depend on what follows the chunk. */
  lemma ChunkFront(f: Frame, text: string, rest: string, p: string)
    requires text == f.header + CRLF + (f.data + (CRLF + rest))
    requires p <= text && |p| < FrameLength(f)
    ensures p == if |p| < |f.header| + 2 then (f.header + CRLF)[..|p|] else (f.header + CRLF + (f.data + CRLF))[..|p|]
  {
    var whole := f.header + CRLF + (f.data + CRLF);
    assert text == whole + rest;
    TakeSum(whole, rest, |p|);
    TakeSum(f.header + CRLF, f.data + CRLF, |p|);
  }

  // ---------------------------------------------------------------- a whole upload

  /** What a prefix of the end of an upload consists of. */
  lemma LastParts(last: string, trailers: string, p: string)
    requires p <= last + CRLF + trailers
    ensures |p| <= |last| ==> p == last[..|p|]
    ensures |p| == |last| + 1 ==> p == last + "\r"
    ensures |p| >= |last| + 2 ==> p == last + CRLF + p[|last| + 2..]
  {
  }

  lemma LastPiece(last: string, n: nat)
    requires '\n' !in last && HeaderSize(last) == Some(0) && 0 < n <= |last|
    ensures DrainFrom(0, last[..n]).payload == ""
    ensures DrainFrom(0, last[..n]).error == Eof <==> HeaderSize(last[..n]) == Some(0)
  {
    HeaderText(last);
    BeforePrefix(last[..n], last, ';');
    assert last[..n] + "" == last[..n];
    DrainPiece(last[..n], "");
  }

  lemma LastAndCr(last: string)
    requires '\n' !in last && HeaderSize(last) == Some(0)
    ensures DrainFrom(0, last + "\r") == Drained("", Eof)
  {
    HeaderText(last);
    DrainPiece(last, "\r");
  }

  lemma LastCut(last: string, trailers: string, p: string)
    requires '\n' !in last && HeaderSize(last) == Some(0) && p <= last + CRLF + trailers
    ensures Verdict(p, Cut(LastPlace(last, |p|), ""))
  {
    LastParts(last, trailers, p);
    if |p| >= |last| + 2 {
      BeforeWhole(last, '\n');
      DrainEnd(last, p[|last| + 2..]);
    } else if |p| == |last| + 1 {
      LastAndCr(last);
    } else if |p| > 0 {
      LastPiece(last, |p|);
    }
  }

  /** A cut behind a chunk is a cut of what follows it. */
  lemma BehindChunk(f: Frame, text: string, rest: string, p: string) returns (q: string)
    requires text == f.header + CRLF + (f.data + (CRLF + rest))
    requires p <= text && FrameLength(f) <= |p|
    ensures q <= rest && |q| == |p| - FrameLength(f) && p == f.header + CRLF + (f.data + (CRLF + q))
  {
    q := p[FrameLength(f)..];
    FrameText(f, rest);
    FrameText(f, q);
    TakeSum(f.header + CRLF + f.data + CRLF, rest, |p|);
  }

  lemma FirstChunkCut(frames: seq<Frame>, end: string, p: string)
    requires |frames| > 0 && GoFrameOk(frames[0])
    requires p <= FramesText(frames) + end && |p| < FrameLength(frames[0])
    ensures forall last :: CutAt(frames, last, |p|) == CutChunk(frames[0], |p|)
    ensures Verdict(p, CutChunk(frames[0], |p|))
  {
    FramesFront(frames, end);
    ChunkCut(frames[0], FramesText(frames) + end, FramesText(frames[1..]) + end, p);
  }

  lemma LaterChunk(frames: seq<Frame>, end: string, p: string) returns (q: string)
    requires |frames| > 0 && GoFrameOk(frames[0])
    requires p <= FramesText(frames) + end && FrameLength(frames[0]) <= |p|
    ensures q <= FramesText(frames[1..]) + end && |q| == |p| - FrameLength(frames[0])
    ensures DrainFrom(0, p) == After(frames[0].data, DrainFrom(0, q))
  {
    FramesFront(frames, end);
    q := BehindChunk(frames[0], FramesText(frames) + end, FramesText(frames[1..]) + end, p);
    DrainFrame(frames[0], q);
  }

  lemma NoFrames(frames: seq<Frame>, end: string)
    requires |frames| == 0
    ensures FramesText(frames) + end == end && frames == []
  {
  }

  lemma {:induction false} FramesCut(frames: seq<Frame>, last: string, trailers: string, p: string)
    requires forall k :: 0 <= k < |frames| ==> GoFrameOk(frames[k])
    requires '\n' !in last && HeaderSize(last) == Some(0)
    requires p <= FramesText(frames) + (last + CRLF + trailers)
    ensures Verdict(p, CutAt(frames, last, |p|))
    decreases |frames|
  {
    if |frames| == 0 {
      NoFrames(frames, last + CRLF + trailers);
      LastCut(last, trailers, p);
    } else if |p| < FrameLength(frames[0]) {
      FirstChunkCut(frames, last + CRLF + trailers, p);
    } else {
      var q := LaterChunk(frames, last + CRLF + trailers, p);
      FramesCut(frames[1..], last, trailers, q);
      LaterVerdict(frames, last, p, q);
    }
  }

  lemma LaterVerdict(frames: seq<Frame>, last: string, p: string, q: string)
    requires |frames| > 0 && FrameLength(frames[0]) <= |p| && |q| == |p| - FrameLength(frames[0])
    requires DrainFrom(0, p) == After(frames[0].data, DrainFrom(0, q))
    requires Verdict(q, CutAt(frames[1..], last, |q|))
    ensures Verdict(p, CutAt(frames, last, |p|))
  {
  }

  /**
   The pull decoder on every prefix of an encoded payload: it returns the data in front of the cut,
   and it ends cleanly if and only if the cut is between two chunks, right behind the data of a
   chunk or behind the CR that follows it, behind the zero header, or inside a header of which so
   much is there that reads as zero.
   */
  lemma PullVerdictOnCuts(frames: seq<Frame>, last: string, trailers: seq<string>, n: nat)
    requires forall k :: 0 <= k < |frames| ==> GoFrameOk(frames[k])
    requires '\n' !in last && HeaderSize(last) == Some(0)
    requires n <= |Wire(frames, last, trailers)|
    ensures var d, c := DrainFrom(0, Wire(frames, last, trailers)[..n]), CutAt(frames, last, n);
      d.payload == c.payload && (d.error == Eof <==> CleanEnd(c.place))
  {
    WireParts(frames, last, trailers);
    FramesCut(frames, last, TrailersText(trailers), Wire(frames, last, trailers)[..n]);
  }

  /** The push decoder refuses every prefix but the whole. */
  lemma PushVerdictOnCuts(frames: seq<Frame>, last: string, trailers: seq<string>, n: nat)
    requires forall k :: 0 <= k < |frames| ==> FrameOk(frames[k])
    requires forall k :: 0 <= k < |trailers| ==> TrailerOk(trailers[k])
    requires IndexOfCrlf(last) < 0 && HeaderSize(last) == Some(0)
    requires n <= |Wire(frames, last, trailers)|
    ensures Accepted(Process(START.(buffer := Wire(frames, last, trailers)[..n])))
      <==> n == |Wire(frames, last, trailers)|
  {
    var wire := Wire(frames, last, trailers);
    var front, rest := START.(buffer := wire[..n]), wire[n..];
    assert wire == wire[..n] + rest && wire == wire + "";
    DecodesEncoding(START.(buffer := wire), frames, last, trailers, "");
    ProcessInParts(front, rest);
    if Accepted(Process(front)) {
      DoneStays(Process(front), rest);
    }
    if n == |wire| { assert wire[..n] == wire; }
  }

  /** Bytes behind the end of a stream stay in the buffer. */
  lemma DoneStays(d: Decoder, more: string)
    requires d.phase.Done?
    ensures Feed(d, more).buffer == d.buffer + more
  {
  }

  lemma PlainHasNoCrlf(line: string)
    requires '\n' !in line
    ensures IndexOfCrlf(line) < 0
  {
  }

  /** So an upload that broke off passes the pull decoder alone exactly at those places. */
  lemma BrokenUploadPasses(frames: seq<Frame>, last: string, trailers: seq<string>, n: nat)
    requires forall k :: 0 <= k < |frames| ==> GoFrameOk(frames[k])
    requires forall k :: 0 <= k < |trailers| ==> TrailerOk(trailers[k])
    requires '\n' !in last && HeaderSize(last) == Some(0)
    requires n < |Wire(frames, last, trailers)|
    ensures !Accepted(Process(START.(buffer := Wire(frames, last, trailers)[..n])))
    ensures DrainFrom(0, Wire(frames, last, trailers)[..n]).error == Eof <==> CleanEnd(CutAt(frames, last, n).place)
  {
    PlainHasNoCrlf(last);
    PushVerdictOnCuts(frames, last, trailers, n);
    PullVerdictOnCuts(frames, last, trailers, n);
  }
}
