/** Header lines with a line feed in them: where the two aws-chunked decoders part, exactly. */
module AwsLineFeeds {
  // The push decoder ends a header at the CRLF, the pull decoder at the line feed.  What it takes for
  // the chunk then begins behind the line feed.

  import opened Wrappers
  import opened AwsChunked
  import opened AwsReader
  import opened AwsHeaders
  import opened AwsAgreement

  // ---------------------------------------------------------------- what the pull decoder does

  predicate Broken(f: Frame) {
    FrameOk(f) && '\n' in f.header && |f.data| < INT64_LIMIT
  }

  /** The digits of the size are in front of the line feed. */
  predicate DigitsFirst(line: string) {
    HeaderSize(Before(line, '\n')).Some?
  }

  /** What is behind the line feed, up to the end of the data. */
  function Behind(f: Frame): string
    requires '\n' in f.header
  {
    f.header[|Before(f.header, '\n')| + 1..] + CRLF + f.data
  }

  /** What the pull decoder reads from a chunk with a line feed in its header on. */
  function FromBroken(f: Frame, rest: string): Drained
    requires '\n' in f.header
  {
    if !DigitsFirst(f.header) then Drained("", BadSizeLine)
    else DrainFrom(|f.data|, Behind(f) + (CRLF + rest))
  }

  lemma BrokenText(f: Frame, rest: string)
    requires '\n' in f.header
    ensures var s, i := f.header + CRLF + (f.data + (CRLF + rest)), |Before(f.header, '\n')|;
      i < |f.header| <= |s| && s[..|f.header|] == f.header && s[i + 1..] == Behind(f) + (CRLF + rest)
  {
    FirstLineFeed(f.header);
    var i := |Before(f.header, '\n')|;
    var head, tail := f.header[..i + 1], f.header[i + 1..];
    assert f.header == head + tail;
    Regrouped(head, tail, f.data, rest);
  }

  lemma Regrouped(head: string, tail: string, data: string, rest: string)
    ensures var s := (head + tail) + CRLF + (data + (CRLF + rest));
      s[..|head + tail|] == head + tail && s[|head|..] == tail + CRLF + data + (CRLF + rest)
  {
  }

  lemma BrokenFrame(f: Frame, rest: string)
    requires Broken(f)
    ensures DrainFrom(0, f.header + CRLF + (f.data + (CRLF + rest))) == FromBroken(f, rest)
  {
    var s := f.header + CRLF + (f.data + (CRLF + rest));
    BrokenText(f, rest);
    HeaderBroken(s, |f.header|);
  }

  /**
   A framed upload whose first data header with a line feed is that of frame `k`: the pull decoder
   returns the data in front of it, and then fails or goes on behind the line feed.
   */
  lemma {:induction false} LineFeedDrain(frames: seq<Frame>, end: string, k: nat)
    requires k < |frames| && Broken(frames[k])
    requires forall j :: 0 <= j < k ==> GoFrameOk(frames[j])
    ensures DrainFrom(0, FramesText(frames) + end)
      == After(Payload(frames[..k]), FromBroken(frames[k], FramesText(frames[k + 1..]) + end))
    decreases k
  {
    FramesFront(frames, end);
    var rest := FramesText(frames[1..]) + end;
    if k == 0 {
      BrokenFrame(frames[0], rest);
    } else {
      DrainFrame(frames[0], rest);
      LineFeedDrain(frames[1..], end, k - 1);
      LaterFrames(frames, k);
      var d := FromBroken(frames[k], FramesText(frames[k + 1..]) + end);
      AfterAfter(frames[0].data, Payload(frames[1..][..k - 1]), d);
    }
  }

  lemma LaterFrames(frames: seq<Frame>, k: nat)
    requires 0 < k < |frames|
    ensures frames[1..][k - 1] == frames[k] && frames[1..][k..] == frames[k + 1..]
    ensures Payload(frames[..k]) == frames[0].data + Payload(frames[1..][..k - 1])
  {
    assert frames[..k][1..] == frames[1..][..k - 1];
  }

  // ---------------------------------------------------------------- when it agrees all the same

  /** Behind the line feed the data comes once more, and a CRLF. */
  predicate Repeats(f: Frame)
    requires '\n' in f.header
  {
    f.data <= Behind(f) && CrlfNext(f)
  }

  predicate CrlfNext(f: Frame)
    requires '\n' in f.header
  {
    Behind(f)[|f.data|..][..2] == CRLF
  }

  /** What the pull decoder then takes for the next header, up to the real end of the data. */
  function Leftover(f: Frame): string
    requires '\n' in f.header
  {
    Behind(f)[|f.data| + 2..]
  }

  lemma BehindLength(f: Frame)
    requires '\n' in f.header
    ensures |Behind(f)| >= |f.data| + 2
  {
    FirstLineFeed(f.header);
  }

  /** The chunk behind the line feed, and what follows it. */
  lemma DrainBehind(f: Frame, rest: string)
    requires '\n' in f.header && f.data != ""
    ensures |Behind(f)| >= |f.data| + 2
    ensures DrainFrom(|f.data|, Behind(f) + (CRLF + rest))
      == After(Behind(f)[..|f.data|],
               if CrlfNext(f) then DrainFrom(0, Leftover(f) + (CRLF + rest)) else Drained("", BadCrlf))
  {
    BehindLength(f);
    var n, b, s := |f.data|, Behind(f), Behind(f) + (CRLF + rest);
    DrainChunk(n, s);
    TakenApart(b, CRLF + rest, n);
    assert CrlfError(s[n..]) == if b[n..][..2] == CRLF then None else Some(BadCrlf);
  }

  lemma TakenApart(b: string, rest: string, n: nat)
    requires n + 2 <= |b|
    ensures var s := b + rest;
      s[..n] == b[..n] && s[n..][0] == b[n] && s[n..][1] == b[n + 1] && s[n..][2..] == b[n + 2..] + rest
    ensures b[n..][..2] == CRLF <==> b[n] == '\r' && b[n + 1] == '\n'
  {
    assert b[n..][..2] == [b[n], b[n + 1]];
  }

  /** Two fronts of one length. */
  lemma FrontsSplit(a: string, b: string, x: string, y: string)
    requires |a| == |b|
    ensures a + x == b + y <==> a == b && x == y
  {
    if a + x == b + y {
      assert a == (a + x)[..|a|] == b;
      assert x == (a + x)[|a|..] == y;
    }
  }

  /**
   The pull decoder ends cleanly behind a line feed if and only if the digits are in front of it, a
   CRLF stands where it then looks for the end of the chunk, and it ends cleanly behind that.
   */
  lemma LineFeedEndsClean(f: Frame, rest: string)
    requires Broken(f)
    ensures FromBroken(f, rest).error == Eof <==>
      DigitsFirst(f.header) && CrlfNext(f) && DrainFrom(0, Leftover(f) + (CRLF + rest)).error == Eof
  {
    DrainBehind(f, rest);
  }

  /** And it returns the same payload if and only if, besides, it finds the same data there. */
  lemma LineFeedSamePayload(f: Frame, rest: string, more: string)
    requires Broken(f)
    ensures FromBroken(f, rest) == Drained(f.data + more, Eof) <==>
      DigitsFirst(f.header) && Repeats(f) && DrainFrom(0, Leftover(f) + (CRLF + rest)) == Drained(more, Eof)
  {
    DrainBehind(f, rest);
    var d := DrainFrom(0, Leftover(f) + (CRLF + rest));
    FrontsSplit(Behind(f)[..|f.data|], f.data, d.payload, more);
    assert Behind(f)[..|f.data|] == f.data <==> f.data <= Behind(f);
  }

  /**
   For a framed upload with a line feed in a data header, the two decoders agree if and only if the
   digits of the first such header are in front of the line feed, the chunk's data and a CRLF come
   once more behind it, and what the pull decoder reads from there on is the rest of the payload.
   */
  lemma LineFeedAgreesIff(frames: seq<Frame>, end: string, k: nat)
    requires k < |frames| && Broken(frames[k])
    requires forall j :: 0 <= j < k ==> GoFrameOk(frames[j])
    ensures var f, rest := frames[k], FramesText(frames[k + 1..]) + end;
      DrainFrom(0, FramesText(frames) + end) == Drained(Payload(frames), Eof) <==>
        && DigitsFirst(f.header) && Repeats(f)
        && DrainFrom(0, Leftover(f) + (CRLF + rest)) == Drained(Payload(frames[k + 1..]), Eof)
  {
    var f, rest, more := frames[k], FramesText(frames[k + 1..]) + end, Payload(frames[k + 1..]);
    LineFeedDrain(frames, end, k);
    PayloadParts(frames, k);
    LineFeedSamePayload(f, rest, more);
    FrontsSplit(Payload(frames[..k]), Payload(frames[..k]), FromBroken(f, rest).payload, f.data + more);
  }

  lemma {:induction false} PayloadParts(frames: seq<Frame>, k: nat)
    requires k < |frames|
    ensures Payload(frames) == Payload(frames[..k]) + (frames[k].data + Payload(frames[k + 1..]))
    decreases k
  {
    if k == 0 {
      assert frames[..0] == [];
    } else {
      PayloadParts(frames[1..], k - 1);
      LaterFrames(frames, k);
      Associates(frames[0].data, Payload(frames[1..][..k - 1]), frames[k].data + Payload(frames[k + 1..]));
    }
  }

  lemma Associates(a: string, b: string, c: string)
    ensures a + (b + c) == a + b + c
  {
  }

  // ---------------------------------------------------------------- the last frame

  lemma {:induction false} FirstLineStays(s: string, rest: string)
    requires '\n' in s
    ensures FirstLine(s + rest) == FirstLine(s)
  {
    if s[0] != '\n' {
      assert (s + rest)[1..] == s[1..] + rest;
      FirstLineStays(s[1..], rest);
    }
  }

  /** Nothing more is read, and without an error, exactly when the next line is a zero header. */
  lemma DrainsNothingIff(s: string)
    requires s != ""
    ensures DrainFrom(0, s) == Drained("", Eof) <==> GoHeaderSize(TrimLineEnd(FirstLine(s))) == Some(0)
  {
    match NextChunk(s)
    case NextData(size, rest) => if size <= |rest| { DrainChunk(size, rest); }
    case _ =>
  }

  /**
   If the header with the line feed is the last one in front of the zero header, the bytes behind the
   line feed decide: the data and a CRLF come once more, and then a line that reads as zero.
   */
  lemma LastFrameAgreesIff(frames: seq<Frame>, end: string)
    requires |frames| > 0 && Broken(frames[|frames| - 1])
    requires forall j :: 0 <= j < |frames| - 1 ==> GoFrameOk(frames[j])
    ensures var f := frames[|frames| - 1];
      DrainFrom(0, FramesText(frames) + end) == Drained(Payload(frames), Eof) <==>
        && DigitsFirst(f.header) && Repeats(f)
        && GoHeaderSize(TrimLineEnd(FirstLine(Leftover(f) + CRLF))) == Some(0)
  {
    var k: nat := |frames| - 1;
    var f := frames[k];
    LineFeedAgreesIff(frames, end, k);
    assert frames[k + 1..] == [];
    var left, rest := Leftover(f) + CRLF, FramesText(frames[k + 1..]) + end;
    assert left + rest == Leftover(f) + (CRLF + rest);
    assert left[|left| - 1] == '\n';
    FirstLineStays(left, rest);
    DrainsNothingIff(left + rest);
  }

  // ---------------------------------------------------------------- the zero header

  /** With plain data headers, the decoders agree exactly when the zero header's digits come first. */
  lemma ZeroHeaderAgreesIff(frames: seq<Frame>, last: string, more: string)
    requires forall k :: 0 <= k < |frames| ==> GoFrameOk(frames[k])
    requires HeaderSize(last) == Some(0)
    ensures DrainFrom(0, FramesText(frames) + (last + CRLF + more)) == Drained(Payload(frames), Eof)
      <==> DigitsFirst(last)
  {
    var end := last + CRLF + more;
    LineText(last, more);
    ZeroHeaderIff(end, |last|);
    DrainFrames(frames, end, DrainFrom(0, end));
    assert Payload(frames) + "" == Payload(frames);
  }

  // ---------------------------------------------------------------- every accepted upload

  function FirstBroken(frames: seq<Frame>): (k: nat)
    ensures k <= |frames| && forall j :: 0 <= j < k ==> '\n' !in frames[j].header
    ensures k < |frames| ==> '\n' in frames[k].header
  {
    if |frames| == 0 || '\n' in frames[0].header then 0 else 1 + FirstBroken(frames[1..])
  }

  /** The condition under which the pull decoder reads a framed upload as the push decoder does. */
  predicate ReadAlike(frames: seq<Frame>, last: string, more: string) {
    var k := FirstBroken(frames);
    if k == |frames| then DigitsFirst(last)
    else
      var f, rest := frames[k], FramesText(frames[k + 1..]) + (last + CRLF + more);
      && DigitsFirst(f.header) && Repeats(f)
      && DrainFrom(0, Leftover(f) + (CRLF + rest)) == Drained(Payload(frames[k + 1..]), Eof)
  }

  /** Every framed upload: the pull decoder ends cleanly with its payload if and only if `ReadAlike`. */
  lemma FramedAgreesIff(frames: seq<Frame>, last: string, more: string)
    requires forall k :: 0 <= k < |frames| ==> FrameOk(frames[k]) && |frames[k].data| < INT64_LIMIT
    requires HeaderSize(last) == Some(0)
    ensures DrainFrom(0, FramesText(frames) + (last + CRLF + more)) == Drained(Payload(frames), Eof)
      <==> ReadAlike(frames, last, more)
  {
    var k := FirstBroken(frames);
    if k == |frames| {
      ZeroHeaderAgreesIff(frames, last, more);
    } else {
      LineFeedAgreesIff(frames, last + CRLF + more, k);
    }
  }

  /** The first header of an accepted upload: the zero header, or that of a complete chunk. */
  lemma AcceptedHeader(d: Decoder) returns (line: string, rest: string)
    requires d.phase.Header? && Accepted(Process(d))
    ensures d.buffer == line + CRLF + rest && IndexOfCrlf(line) < 0 && HeaderSize(line).Some?
    ensures var n := HeaderSize(line).value;
      if n == 0 then Process(d).output == d.output
      else
        && n + 2 <= |rest| && CrlfError(rest[n..]) == None
        && Process(d) == Process(d.(buffer := rest[n..][2..], output := d.output + rest[..n]))
  {
    AcceptedSteps(d);
    var i := IndexOfCrlf(d.buffer);
    FirstCrlf(d.buffer);
    line, rest := d.buffer[..i], d.buffer[i + 2..];
    var e := AfterHeader(d, line, rest);
    assert Step(d) == Some(e);
    if e.phase.Trailers? { TrailersKeepOutput(e); } else { DataComplete(e); }
  }

  /** A text that is framed, and what its payload adds to an output. */
  predicate Framing(s: string, output: string, total: string, frames: seq<Frame>, last: string, more: string) {
    && (forall k :: 0 <= k < |frames| ==> FrameOk(frames[k]) && |frames[k].data| <= |s|)
    && IndexOfCrlf(last) < 0 && HeaderSize(last) == Some(0)
    && s == FramesText(frames) + (last + CRLF + more) && total == output + Payload(frames)
  }

  lemma FramingFront(
    s: string, output: string, total: string, line: string, rest: string, frames: seq<Frame>, last: string,
    more: string)
    requires s == line + CRLF + rest && IndexOfCrlf(line) < 0 && HeaderSize(line).Some?
    requires var n := HeaderSize(line).value;
      && 0 < n && n + 2 <= |rest| && CrlfError(rest[n..]) == None
      && Framing(rest[n..][2..], output + rest[..n], total, frames, last, more)
    ensures Framing(s, output, total, [Frame(line, rest[..HeaderSize(line).value])] + frames, last, more)
  {
    var n := HeaderSize(line).value;
    var f := Frame(line, rest[..n]);
    CrlfTaken(rest, n);
    FrameInFront(f, frames, last + CRLF + more, output);
  }

  /** An upload the push decoder accepts is a framed one, and its output is the payload. */
  lemma {:induction false} AcceptedIsFramed(d: Decoder) returns (frames: seq<Frame>, last: string, more: string)
    requires d.phase.Header? && Accepted(Process(d))
    ensures Framing(d.buffer, d.output, Process(d).output, frames, last, more)
    decreases |d.buffer|
  {
    var line, rest := AcceptedHeader(d);
    var n := HeaderSize(line).value;
    if n == 0 {
      frames, last, more := [], line, rest;
      NothingInFront(d.buffer, d.output);
    } else {
      var next := d.(buffer := rest[n..][2..], output := d.output + rest[..n]);
      var total := Process(d).output;
      frames, last, more := AcceptedIsFramed(next);
      FramingFront(d.buffer, d.output, total, line, rest, frames, last, more);
      frames := [Frame(line, rest[..n])] + frames;
    }
  }

  lemma NothingInFront(s: string, output: string)
    ensures FramesText([]) + s == s && output + Payload([]) == output
  {
  }

  lemma CrlfTaken(s: string, n: nat)
    requires n + 2 <= |s| && CrlfError(s[n..]) == None
    ensures s == s[..n] + (CRLF + s[n..][2..])
  {
    assert s[n..] == CRLF + s[n..][2..];
  }

  lemma FrameInFront(f: Frame, frames: seq<Frame>, end: string, output: string)
    ensures FramesText([f] + frames) + end == f.header + CRLF + (f.data + (CRLF + (FramesText(frames) + end)))
    ensures output + Payload([f] + frames) == output + f.data + Payload(frames)
  {
    var all := [f] + frames;
    assert all[1..] == frames;
    FramesFront(all, end);
    Associates(output, f.data, Payload(frames));
  }

  /**
   Whatever upload the push decoder accepts: it is framed in some way, and the pull decoder reads the
   same payload without an error if and only if that framing is read alike.
   */
  lemma AcceptedAgreesIff(d: Decoder) returns (frames: seq<Frame>, last: string, more: string)
    requires d == START.(buffer := d.buffer) && Accepted(Process(d)) && |d.buffer| < INT64_LIMIT
    ensures d.buffer == FramesText(frames) + (last + CRLF + more) && Process(d).output == Payload(frames)
    ensures DrainFrom(0, d.buffer) == Drained(Process(d).output, Eof) <==> ReadAlike(frames, last, more)
  {
    frames, last, more := AcceptedIsFramed(d);
    assert "" + Payload(frames) == Payload(frames);
    FramedAgreesIff(frames, last, more);
  }

  // ---------------------------------------------------------------- inputs on which they part

  lemma OneFrame(f: Frame)
    ensures Payload([f]) == f.data && [f][..0] == [] && [f][1..] == []
  {
  }

  /** One chunk with a line feed in its header, and the end of the upload. */
  lemma PullsOneFrame(f: Frame, end: string)
    requires Broken(f) && DigitsFirst(f.header)
    ensures |Behind(f)| >= |f.data| + 2
    ensures DrainFrom(0, FramesText([f]) + end)
      == After(Behind(f)[..|f.data|],
               if CrlfNext(f) then DrainFrom(0, Leftover(f) + (CRLF + end)) else Drained("", BadCrlf))
  {
    OneFrame(f);
    LineFeedDrain([f], end, 0);
    DrainBehind(f, end);
    NothingInFront(end, "");
    NoPayload(FromBroken(f, end));
  }

  lemma NoPayload(d: Drained)
    ensures After(Payload([]), d) == d
  {
    assert "" + d.payload == d.payload;
  }

  /** One byte of data in a chunk, and `tail` behind the line feed in its header. */
  function OneByte(tail: string, data: char): Frame {
    Frame("1;\n" + tail, [data])
  }

  lemma {:induction false} NoCrlf(s: string)
    requires forall i :: 0 <= i < |s| - 1 ==> !(s[i] == '\r' && s[i + 1] == '\n')
    ensures IndexOfCrlf(s) < 0
  {
    if |s| > 0 { NoCrlf(s[1..]); }
  }

  lemma OneByteHeader(tail: string)
    requires |tail| <= 1
    ensures IndexOfCrlf("1;\n" + tail) < 0
    ensures Before("1;\n" + tail, ';') == "1" && Before("1;\n" + tail, '\n') == "1;"
  {
    OneByteNoCrlf(tail);
    OneByteText(tail);
    BeforeStops("1", "\n" + tail, ';');
    BeforeStops("1;", tail, '\n');
  }

  lemma OneByteNoCrlf(tail: string)
    requires |tail| <= 1
    ensures IndexOfCrlf("1;\n" + tail) < 0
  {
    var h := "1;\n" + tail;
    assert h[0] == '1' && h[1] == ';' && h[2] == '\n';
    NoCrlf(h);
  }

  lemma OneByteText(tail: string)
    ensures "1;\n" + tail == "1" + ([';'] + ("\n" + tail)) && "1;\n" + tail == "1;" + (['\n'] + tail)
  {
  }

  lemma BeforeStops(u: string, w: string, c: char)
    requires c !in u
    ensures Before(u + ([c] + w), c) == u
  {
    BeforeBehind(u, [c] + w, c);
    assert u + "" == u;
  }

  lemma OneByteOk(tail: string, data: char)
    requires |tail| <= 1
    ensures var f := OneByte(tail, data);
      Broken(f) && DigitsFirst(f.header) && Behind(f) == tail + CRLF + [data]
  {
    OneByteHeader(tail);
    var f := OneByte(tail, data);
    OneIsOne();
    assert f.header[2] == '\n' && f.header[3..] == tail;
  }

  lemma OneIsOne()
    ensures Trim("1") == "1" && HeaderSize("1;") == Some(1) && Trim("0") == "0" && HeaderSize("0") == Some(0)
    ensures IndexOfCrlf("0") < 0 && Before("0", '\n') == "0"
  {
    assert Before("1;", ';') == "1" && Before("0", ';') == "0";
  }

  /** What the push decoder makes of such an upload. */
  lemma PushesOneByte(tail: string, data: char)
    requires |tail| <= 1
    ensures var d := Process(START.(buffer := Wire([OneByte(tail, data)], "0", [])));
      Accepted(d) && d.output == [data]
  {
    var f := OneByte(tail, data);
    var wire := Wire([f], "0", []);
    OneByteOk(tail, data);
    OneIsOne();
    OneFrame(f);
    assert wire + "" == wire;
    DecodesEncoding(START.(buffer := wire), [f], "0", [], "");
    assert "" + [data] == [data];
  }

  /** With nothing behind the line feed, the pull decoder fails on what the push decoder accepts. */
  lemma LineFeedRefused(data: char, wire: string)
    requires wire == Wire([OneByte("", data)], "0", [])
    ensures Accepted(Process(START.(buffer := wire))) && DrainFrom(0, wire) == Drained("\r", BadCrlf)
  {
    var f := OneByte("", data);
    PushesOneByte("", data);
    OneByteOk("", data);
    WireParts([f], "0", []);
    PullsOneFrame(f, "0" + CRLF + TrailersText([]));
    CrTaken(data);
  }

  lemma CrTaken(data: char)
    ensures var b := "" + CRLF + [data]; b[..1] == "\r" && b[1..][..2] != CRLF && "\r" + "" == "\r"
  {
    assert ("" + CRLF + [data])[1..][0] == '\n';
  }

  /**
   With one byte behind it, both decoders accept: the push decoder returns "0", and the pull decoder
   returns that byte, so the payloads differ without an error unless the byte happens to be the same.
   */
  lemma PayloadsDiffer(x: char, wire: string)
    requires wire == Wire([OneByte([x], '0')], "0", [])
    ensures Accepted(Process(START.(buffer := wire))) && Process(START.(buffer := wire)).output == "0"
    ensures DrainFrom(0, wire) == Drained([x], Eof)
  {
    var f := OneByte([x], '0');
    PushesOneByte([x], '0');
    OneByteOk([x], '0');
    WireParts([f], "0", []);
    PullsOneFrame(f, "0" + CRLF + TrailersText([]));
    ByteTaken(x);
    DrainsZero("0" + CRLF + TrailersText([]));
  }

  lemma ByteTaken(x: char)
    ensures var b := [x] + CRLF + "0";
      b[..1] == [x] && b[1..][..2] == CRLF && b[1 + 2..] == "0" && [x] + "" == [x]
  {
  }

  lemma DrainsZero(rest: string)
    ensures DrainFrom(0, "0" + (CRLF + rest)) == Drained("", Eof)
  {
    OneIsOne();
    DrainEnd("0", rest);
    assert "0" + (CRLF + rest) == "0" + CRLF + rest;
  }

  /** The rest of the payload can come out right although chunks of the upload follow. */
  function Across(): seq<Frame> {
    [OneByte("2", '2'), Frame("01", "0"), Frame("1", "1")]
  }

  lemma AgreesAcrossChunks(end: string)
    ensures Payload(Across()) == "201" && DrainFrom(0, FramesText(Across()) + end) == Drained("201", Eof)
  {
    OneByteOk("2", '2');
    LineFeedAgreesIff(Across(), end, 0);
    AcrossPayload();
    AcrossBehind();
    AcrossText(end);
    AcrossDrain("1" + CRLF + "1" + CRLF + end);
  }

  lemma AcrossPayload()
    ensures Payload(Across()) == "201" && Payload(Across()[1..]) == "01"
  {
    assert Across()[1..] == [Frame("01", "0"), Frame("1", "1")] && Across()[1..][1..] == [Frame("1", "1")];
    OneFrame(Frame("1", "1"));
    assert "0" + "1" == "01" && "2" + "01" == "201";
  }

  lemma AcrossBehind()
    ensures var b := "2" + CRLF + "2"; "2" <= b && b[1..][..2] == CRLF && b[1 + 2..] == "2"
  {
  }

  lemma AcrossText(end: string)
    ensures "2" + (CRLF + (FramesText(Across()[1..]) + end))
      == "2" + CRLF + ("01" + (CRLF + ("0" + CRLF + ("1" + CRLF + "1" + CRLF + end))))
  {
    assert Across()[1..] == [Frame("01", "0"), Frame("1", "1")] && Across()[1..][1..] == [Frame("1", "1")];
    assert [Frame("1", "1")][1..] == [];
    assert FramesText([Frame("1", "1")]) == "1" + CRLF + "1" + CRLF + "";
  }

  lemma AcrossDrain(more: string)
    ensures DrainFrom(0, "2" + CRLF + ("01" + (CRLF + ("0" + CRLF + more)))) == Drained("01", Eof)
  {
    TwoIsTwo();
    DrainFrame(Frame("2", "01"), "0" + CRLF + more);
    OneIsOne();
    DrainEnd("0", more);
    assert "01" + "" == "01";
  }

  lemma TwoIsTwo()
    ensures GoFrameOk(Frame("2", "01"))
  {
    assert Before("2", ';') == "2" && Trim("2") == "2";
    NoCrlf("2");
  }

  /** A line feed behind the digits of the zero header does no harm; one in front of them does. */
  lemma LeadingLineFeedRefused(last: string, wire: string)
    requires last == "\n0" && wire == Wire([], last, [])
    ensures Accepted(Process(START.(buffer := wire))) && Process(START.(buffer := wire)).output == ""
    ensures DrainFrom(0, wire) == Drained("", BadSizeLine)
  {
    LeadingLineFeed();
    assert wire + "" == wire;
    DecodesEncoding(START.(buffer := wire), [], last, [], "");
    LeadingLineFeedDrain(last, TrailersText([]));
    NothingInFront(last + CRLF + TrailersText([]), "");
    WireParts([], last, []);
  }

  lemma LeadingLineFeedDrain(last: string, rest: string)
    requires HeaderSize(last) == Some(0) && HeaderSize(Before(last, '\n')) == None
    ensures DrainFrom(0, last + CRLF + rest) == Drained("", BadSizeLine)
  {
    LineText(last, rest);
    ZeroHeaderIff(last + CRLF + rest, |last|);
  }

  lemma LeadingLineFeed()
    ensures HeaderSize("\n0") == Some(0) && Before("\n0", '\n') == "" && HeaderSize("") == None
    ensures IndexOfCrlf("\n0") < 0
  {
    BeforeWhole("\n0", ';');
    assert TrimRight("\n0") == "\n0" && "\n0"[1..] == "0";
  }
}
