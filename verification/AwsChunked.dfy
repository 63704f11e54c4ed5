/**
 The aws-chunked transfer encoding and its push decoder
 (backend/src/s3/aws-chunked-decode.stream.ts).  Bytes are characters.
 */
module AwsChunked {
  import opened Wrappers

  // ---------------------------------------------------------------- text

  predicate IsSpace(c: char) {
    c in {' ', '\t', '\n', '\r', 11 as char, 12 as char}
  }

  function TrimRight(s: string): (t: string)
    ensures t <= s
  {
    if |s| > 0 && IsSpace(s[|s| - 1]) then TrimRight(s[..|s| - 1]) else s
  }

  function TrimLeft(s: string): string {
    if |s| > 0 && IsSpace(s[0]) then TrimLeft(s[1..]) else s
  }

  function Trim(s: string): string {
    TrimLeft(TrimRight(s))
  }

  /** The text before the first `c`, or all of it. */
  function Before(s: string, c: char): (t: string)
    ensures |t| <= |s| && (c in s <==> |t| < |s|)
  {
    if |s| == 0 || s[0] == c then "" else [s[0]] + Before(s[1..], c)
  }

  function Lower(s: string): string {
    seq(|s|, i requires 0 <= i < |s| => if 'A' <= s[i] <= 'Z' then (s[i] as int + 32) as char else s[i])
  }

  function HexDigit(c: char): Option<nat> {
    if '0' <= c <= '9' then Some(c as int - '0' as int)
    else if 'a' <= c <= 'f' then Some(c as int - 'a' as int + 10)
    else if 'A' <= c <= 'F' then Some(c as int - 'A' as int + 10)
    else None
  }

  /** The value of a non-empty string of hex digits. */
  function HexValue(s: string): Option<nat> {
    if |s| == 0 then None
    else
      var last := HexDigit(s[|s| - 1]);
      if last.None? then None
      else if |s| == 1 then last
      else
        var front := HexValue(s[..|s| - 1]);
        if front.None? then None else Some(16 * front.value + last.value)
  }

  /** The chunk size of a header line, without its extensions. */
  function HeaderSize(line: string): Option<nat> {
    HexValue(Trim(Before(line, ';')))
  }

  /** Position of the first CRLF, or -1. */
  function IndexOfCrlf(s: string): (i: int)
    ensures -1 <= i && (i >= 0 ==> i + 2 <= |s| && s[i] == '\r' && s[i + 1] == '\n')
  {
    if |s| < 2 then -1
    else if s[0] == '\r' && s[1] == '\n' then 0
    else
      var i := IndexOfCrlf(s[1..]);
      if i < 0 then -1 else i + 1
  }

  // ---------------------------------------------------------------- the decoder as a value

  datatype Error = BadSize | BadTerminator | BadTrailer

  datatype Phase = Header | Data(expected: nat) | DataCrlf | Trailers | Done | Failed(error: Error)

  /** A failed stream is destroyed and has no buffer any more. */
  datatype Decoder = Decoder(phase: Phase, buffer: string, output: string, trailers: map<string, string>)

  const START := Decoder(Header, "", "", map[])

  /** A complete header line: its size opens a data chunk or, if zero, the trailers. */
  function AfterHeader(d: Decoder, line: string, rest: string): Decoder {
    var size := HeaderSize(line);
    if size.None? then d.(phase := Failed(BadSize), buffer := "")
    else d.(phase := if size.value == 0 then Trailers else Data(size.value), buffer := rest)
  }

  /** A complete trailer line; the empty one ends the stream. */
  function AfterTrailer(d: Decoder, line: string, rest: string): Decoder {
    if line == "" then d.(phase := Done, buffer := rest)
    else if ':' !in line then d.(phase := Failed(BadTrailer), buffer := "")
    else
      var name := Before(line, ':');
      d.(buffer := rest, trailers := d.trailers[Lower(Trim(name)) := Trim(line[|name| + 1..])])
  }

  /** One round of the loop in `processBuffer`; None is the `return` that waits for input. */
  function Step(d: Decoder): (next: Option<Decoder>)
    ensures next.Some? ==> Rank(next.value) < Rank(d)
  {
    match d.phase
    case Header =>
      var i := IndexOfCrlf(d.buffer);
      if i < 0 then None else Some(AfterHeader(d, d.buffer[..i], d.buffer[i + 2..]))
    case Data(n) =>
      if |d.buffer| < n then None
      else Some(d.(phase := DataCrlf, buffer := d.buffer[n..], output := d.output + d.buffer[..n]))
    case DataCrlf =>
      if |d.buffer| < 2 then None
      else if d.buffer[0] != '\r' || d.buffer[1] != '\n' then Some(d.(phase := Failed(BadTerminator), buffer := ""))
      else Some(d.(phase := Header, buffer := d.buffer[2..]))
    case Trailers =>
      var i := IndexOfCrlf(d.buffer);
      if i < 0 then None else Some(AfterTrailer(d, d.buffer[..i], d.buffer[i + 2..]))
    case Done => None
    case Failed(_) => None
  }

  /** How far a decoder is from its end: a zero-length data chunk would not consume anything. */
  function Rank(d: Decoder): nat {
    2 * |d.buffer| + if d.phase.Data? then 1 else 0
  }

  /** `processBuffer`: rounds until input is missing. */
  function Process(d: Decoder): Decoder
    decreases Rank(d)
  {
    var next := Step(d);
    if next.None? then d else Process(next.value)
  }

  /** `_transform`; nothing reaches a destroyed stream. */
  function Feed(d: Decoder, piece: string): Decoder {
    if d.phase.Failed? then d else Process(d.(buffer := d.buffer + piece))
  }

  function FeedAll(d: Decoder, pieces: seq<string>): Decoder
    decreases |pieces|
  {
    if |pieces| == 0 then d else FeedAll(Feed(d, pieces[0]), pieces[1..])
  }

  function Join(pieces: seq<string>): string {
    if |pieces| == 0 then "" else pieces[0] + Join(pieces[1..])
  }

  /** `_flush` accepts the stream exactly when the final blank line has been seen. */
  predicate Accepted(d: Decoder) {
    d.phase.Done?
  }

  // ---------------------------------------------------------------- fragmentation independence

  lemma {:induction false} CrlfStable(s: string, more: string)
    requires IndexOfCrlf(s) >= 0
    ensures IndexOfCrlf(s + more) == IndexOfCrlf(s)
  {
    if !(s[0] == '\r' && s[1] == '\n') {
      CrlfStable(s[1..], more);
      assert (s + more)[1..] == s[1..] + more;
    }
  }

  /** Input still to come does not change a round that is possible already. */
  lemma StepStable(d: Decoder, more: string)
    requires Step(d).Some?
    ensures var e := Step(d).value;
      Step(d.(buffer := d.buffer + more)) == Some(if e.phase.Failed? then e else e.(buffer := e.buffer + more))
  {
    if d.phase.Data? {
      TakeStable(d.buffer, more, d.phase.expected);
    } else if d.phase.DataCrlf? {
      TakeStable(d.buffer, more, 2);
    } else {
      LineStable(d.buffer, more);
    }
  }

  lemma LineStable(s: string, more: string)
    requires IndexOfCrlf(s) >= 0
    ensures var i := IndexOfCrlf(s);
      IndexOfCrlf(s + more) == i && (s + more)[..i] == s[..i] && (s + more)[i + 2..] == s[i + 2..] + more
  {
    CrlfStable(s, more);
  }

  lemma TakeStable(s: string, more: string, n: nat)
    requires n <= |s|
    ensures (s + more)[..n] == s[..n] && (s + more)[n..] == s[n..] + more
  {
  }

  /** Processing a buffer in one go is processing a front part and then the rest. */
  lemma {:induction false} ProcessInParts(d: Decoder, more: string)
    requires !d.phase.Failed?
    ensures Process(d.(buffer := d.buffer + more)) == Feed(Process(d), more)
    decreases Rank(d)
  {
    if Step(d).Some? {
      StepStable(d, more);
      var e := Step(d).value;
      if !e.phase.Failed? { ProcessInParts(e, more); }
    }
  }

  lemma {:induction false} ProcessIdempotent(d: Decoder)
    ensures Process(Process(d)) == Process(d)
    decreases Rank(d)
  {
    if Step(d).Some? { ProcessIdempotent(Step(d).value); }
  }

  /**
   However the input is cut into pieces, the decoder ends with the same output, the same
   trailers and the same verdict as if it were fed the whole input at once.
   */
  lemma {:induction false} FragmentationIndependent(d: Decoder, pieces: seq<string>)
    ensures FeedAll(Process(d), pieces) == Feed(Process(d), Join(pieces))
    decreases |pieces|
  {
    var e := Process(d);
    ProcessIdempotent(d);
    if |pieces| == 0 {
      assert e.buffer + "" == e.buffer;
    } else if e.phase.Failed? {
      FragmentationIndependent(e, pieces[1..]);
    } else {
      var first, rest := pieces[0], Join(pieces[1..]);
      FragmentationIndependent(e.(buffer := e.buffer + first), pieces[1..]);
      var f := e.(buffer := e.buffer + first);
      assert e.buffer + (first + rest) == f.buffer + rest;
      ProcessInParts(f, rest);
    }
  }

  // ---------------------------------------------------------------- the stream object

  /** `AwsChunkedDecodeStream`. */
  class AwsChunkedDecodeStream {
    var phase: Phase
    var buffer: string
    var output: string
    var trailers: map<string, string>

    function Value(): Decoder
      reads this
    {
      Decoder(phase, buffer, output, trailers)
    }

    constructor ()
      ensures Value() == START
    {
      phase, buffer, output, trailers := Header, "", "", map[];
    }

    method Transform(chunk: string) returns (ok: bool)
      requires !phase.Failed?
      modifies this
      ensures Value() == Feed(old(Value()), chunk)
      ensures ok <==> !phase.Failed?
    {
      buffer := buffer + chunk;
      ok := ProcessBuffer(false);
    }

    /** `_flush`: what is left must not be a piece of a line, and the end must have been seen. */
    method Flush() returns (ok: bool)
      requires !phase.Failed? && Process(Value()) == Value()
      modifies this
      ensures ok <==> Accepted(old(Value()))
      ensures output == old(output)
    {
      ok := ProcessBuffer(true);
      if phase != Done {
        ok := false;
      }
    }

    /** `readLine`: the text before the first CRLF; the buffer continues behind it. */
    method ReadLine() returns (line: Option<string>)
      modifies this`buffer
      ensures line.None? <==> IndexOfCrlf(old(buffer)) < 0
      ensures line.None? ==> buffer == old(buffer)
      ensures line.Some? ==>
        var i := IndexOfCrlf(old(buffer)); line.value == old(buffer)[..i] && buffer == old(buffer)[i + 2..]
    {
      var i := IndexOfCrlf(buffer);
      if i < 0 {
        return None;
      }
      line := Some(buffer[..i]);
      buffer := buffer[i + 2..];
    }

    /** `processBuffer`: without `flush` it never objects to a missing line end. */
    method ProcessBuffer(flush: bool) returns (ok: bool)
      requires !phase.Failed?
      modifies this
      ensures !flush ==> Value() == Process(old(Value())) && (ok <==> !phase.Failed?)
      ensures flush && Process(old(Value())) == old(Value()) ==>
        output == old(output) && (phase.Done? <==> old(phase).Done?) && (old(phase).Done? ==> ok)
    {
      ghost var start := Value();
      while true
        invariant !phase.Failed? && Process(Value()) == Process(start)
        invariant Process(start) == start ==> Value() == start
        decreases Rank(Value())
      {
        ghost var before := Value();
        var outcome := Round(flush);
        if outcome != Continue {
          return outcome == Return;
        }
        StepChanges(before);
      }
    }

    /** The body of the loop: go on, return for more input, or throw. */
    method Round(flush: bool) returns (outcome: Outcome)
      requires !phase.Failed?
      modifies this
      ensures outcome == Continue ==> Step(old(Value())) == Some(Value()) && !phase.Failed?
      ensures outcome == Return ==> Step(old(Value())) == None && Value() == old(Value())
      ensures outcome == Throw ==> phase.Failed?
      ensures outcome == Throw ==>
        || Step(old(Value())) == Some(Value())
        || (flush && Step(old(Value())) == None && !old(phase).Done? && output == old(output))
    {
      match phase {
        case Header =>
          var line := ReadLine();
          if line.None? {
            if flush && |buffer| > 0 {
              phase := Failed(BadSize);
              return Throw;
            }
            return Return;
          }
          var size := HeaderSize(line.value);
          if size.None? {
            phase, buffer := Failed(BadSize), "";
            return Throw;
          }
          phase := if size.value == 0 then Trailers else Data(size.value);
        case Data(expected) =>
          if |buffer| < expected {
            return Return;
          }
          output := output + buffer[..expected];
          buffer := buffer[expected..];
          phase := DataCrlf;
        case DataCrlf =>
          if |buffer| < 2 {
            return Return;
          }
          if buffer[0] != '\r' || buffer[1] != '\n' {
            phase, buffer := Failed(BadTerminator), "";
            return Throw;
          }
          buffer := buffer[2..];
          phase := Header;
        case Trailers =>
          var line := ReadLine();
          if line.None? {
            if flush && |buffer| > 0 {
              phase := Failed(BadTrailer);
              return Throw;
            }
            return Return;
          }
          if line.value == "" {
            phase := Done;
          } else if ':' !in line.value {
            phase, buffer := Failed(BadTrailer), "";
            return Throw;
          } else {
            var name := Before(line.value, ':');
            trailers := trailers[Lower(Trim(name)) := Trim(line.value[|name| + 1..])];
          }
        case Done => return Return;
        case Failed(_) => assert false;
      }
      return Continue;
    }
  }

  datatype Outcome = Continue | Return | Throw

  /** A round that is possible changes the decoder, so a finished one is not touched again. */
  lemma StepChanges(d: Decoder)
    requires Step(d).Some?
    ensures Process(d) != d
  {
    ProcessShrinks(Step(d).value);
  }

  lemma {:induction false} ProcessShrinks(d: Decoder)
    ensures Rank(Process(d)) <= Rank(d)
    decreases Rank(d)
  {
    if Step(d).Some? { ProcessShrinks(Step(d).value); }
  }

  // ---------------------------------------------------------------- the encoding

  /** A data chunk on the wire: its header line, extensions included, and its bytes. */
  datatype Frame = Frame(header: string, data: string)

  const CRLF := "\r\n"

  /** The header announces the length of the data, in any hex spelling; no line contains a CRLF. */
  predicate FrameOk(f: Frame) {
    IndexOfCrlf(f.header) < 0 && f.data != "" && HeaderSize(f.header) == Some(|f.data|)
  }

  predicate TrailerOk(line: string) {
    IndexOfCrlf(line) < 0 && ':' in line
  }

  function FramesText(frames: seq<Frame>): string {
    if |frames| == 0 then ""
    else frames[0].header + CRLF + frames[0].data + CRLF + FramesText(frames[1..])
  }

  function Payload(frames: seq<Frame>): string {
    if |frames| == 0 then "" else frames[0].data + Payload(frames[1..])
  }

  function TrailersText(lines: seq<string>): string {
    if |lines| == 0 then CRLF else lines[0] + CRLF + TrailersText(lines[1..])
  }

  function TrailerMap(m: map<string, string>, lines: seq<string>): map<string, string>
    decreases |lines|
  {
    if |lines| == 0 then m
    else
      var name := Before(lines[0], ':');
      TrailerMap(m[Lower(Trim(name)) := if ':' in lines[0] then Trim(lines[0][|name| + 1..]) else ""], lines[1..])
  }

  function Wire(frames: seq<Frame>, last: string, trailers: seq<string>): string {
    FramesText(frames) + last + CRLF + TrailersText(trailers)
  }

  lemma {:induction false} LineEnds(line: string, rest: string)
    requires IndexOfCrlf(line) < 0
    ensures IndexOfCrlf(line + CRLF + rest) == |line|
    ensures (line + CRLF + rest)[..|line|] == line && (line + CRLF + rest)[|line| + 2..] == rest
  {
    if |line| > 0 {
      LineEnds(line[1..], rest);
      assert (line + CRLF + rest)[1..] == line[1..] + CRLF + rest;
      assert |line| == 1 || (line + CRLF + rest)[1] == line[1];
    }
  }

  lemma HeaderRound(d: Decoder, line: string, rest: string)
    requires d.phase.Header? && IndexOfCrlf(line) < 0 && d.buffer == line + CRLF + rest
    ensures Step(d) == Some(AfterHeader(d, line, rest))
  {
    LineEnds(line, rest);
  }

  lemma DataRounds(d: Decoder, data: string, rest: string)
    requires d.phase == Data(|data|) && d.buffer == data + (CRLF + rest)
    ensures Process(d) == Process(d.(phase := Header, buffer := rest, output := d.output + data))
  {
    var e := d.(phase := DataCrlf, buffer := CRLF + rest, output := d.output + data);
    assert d.buffer[|data|..] == CRLF + rest && d.buffer[..|data|] == data;
    assert Step(d) == Some(e);
    assert (CRLF + rest)[2..] == rest;
  }

  /** One frame is consumed by three rounds. */
  lemma ProcessFrame(d: Decoder, f: Frame, rest: string)
    requires d.phase.Header? && FrameOk(f) && d.buffer == f.header + CRLF + (f.data + (CRLF + rest))
    ensures Process(d) == Process(d.(buffer := rest, output := d.output + f.data))
  {
    var body := f.data + (CRLF + rest);
    HeaderRound(d, f.header, body);
    DataRounds(d.(phase := Data(|f.data|), buffer := body), f.data, rest);
  }

  lemma WireFront(frames: seq<Frame>, last: string, trailers: seq<string>, extra: string)
    requires |frames| > 0
    ensures Wire(frames, last, trailers) + extra ==
      frames[0].header + CRLF + (frames[0].data + (CRLF + (Wire(frames[1..], last, trailers) + extra)))
  {
    var h, b, r := frames[0].header, frames[0].data, FramesText(frames[1..]);
    assert FramesText(frames) == h + CRLF + b + CRLF + r;
  }

  lemma DecodesEnd(d: Decoder, last: string, trailers: seq<string>, extra: string)
    requires d.phase.Header? && d.buffer == Wire([], last, trailers) + extra
    requires forall k :: 0 <= k < |trailers| ==> TrailerOk(trailers[k])
    requires IndexOfCrlf(last) < 0 && HeaderSize(last) == Some(0)
    ensures Process(d) == Decoder(Done, extra, d.output, TrailerMap(d.trailers, trailers))
  {
    var rest := TrailersText(trailers) + extra;
    WireEnd(last, trailers, extra);
    OpenTrailers(d, last, rest);
    ProcessTrailers(d.(phase := Trailers, buffer := rest), trailers, extra);
  }

  lemma WireEnd(last: string, trailers: seq<string>, extra: string)
    ensures Wire([], last, trailers) + extra == last + CRLF + (TrailersText(trailers) + extra)
  {
  }

  lemma OpenTrailers(d: Decoder, last: string, rest: string)
    requires d.phase.Header? && d.buffer == last + CRLF + rest
    requires IndexOfCrlf(last) < 0 && HeaderSize(last) == Some(0)
    ensures Process(d) == Process(d.(phase := Trailers, buffer := rest))
  {
    HeaderRound(d, last, rest);
  }

  lemma PayloadFront(output: string, frames: seq<Frame>)
    requires |frames| > 0
    ensures output + Payload(frames) == output + frames[0].data + Payload(frames[1..])
  {
  }

  lemma TrailersFront(lines: seq<string>, extra: string)
    requires |lines| > 0
    ensures TrailersText(lines) + extra == lines[0] + CRLF + (TrailersText(lines[1..]) + extra)
  {
  }

  /** A trailer line is one round of the decoder. */
  lemma TrailerRound(d: Decoder, line: string, rest: string)
    requires d.phase.Trailers? && TrailerOk(line) && d.buffer == line + CRLF + rest
    ensures Step(d).Some? && Step(d).value.buffer == rest && Step(d).value.phase.Trailers?
    ensures Step(d).value.output == d.output
    ensures forall more :: TrailerMap(Step(d).value.trailers, more) == TrailerMap(d.trailers, [line] + more)
    ensures Process(d) == Process(Step(d).value)
  {
    LineEnds(line, rest);
    forall more: seq<string> ensures TrailerMap(Step(d).value.trailers, more) == TrailerMap(d.trailers, [line] + more) {
      assert ([line] + more)[1..] == more;
    }
  }

  lemma {:induction false} ProcessTrailers(d: Decoder, lines: seq<string>, extra: string)
    requires d.phase.Trailers? && d.buffer == TrailersText(lines) + extra
    requires forall k :: 0 <= k < |lines| ==> TrailerOk(lines[k])
    ensures Process(d) == d.(phase := Done, buffer := extra, trailers := TrailerMap(d.trailers, lines))
    decreases |lines|
  {
    if |lines| == 0 {
      LineEnds("", extra);
      assert d.buffer == "" + CRLF + extra;
    } else {
      TrailersFront(lines, extra);
      TrailerRound(d, lines[0], TrailersText(lines[1..]) + extra);
      ProcessTrailers(Step(d).value, lines[1..], extra);
      assert [lines[0]] + lines[1..] == lines;
    }
  }

  /** Decoding undoes encoding: every framing of a payload, with any extensions and trailers. */
  lemma {:induction false} DecodesEncoding(
    d: Decoder, frames: seq<Frame>, last: string, trailers: seq<string>, extra: string)
    requires d.phase.Header? && d.buffer == Wire(frames, last, trailers) + extra
    requires forall k :: 0 <= k < |frames| ==> FrameOk(frames[k])
    requires forall k :: 0 <= k < |trailers| ==> TrailerOk(trailers[k])
    requires IndexOfCrlf(last) < 0 && HeaderSize(last) == Some(0)
    ensures Process(d) == Decoder(Done, extra, d.output + Payload(frames), TrailerMap(d.trailers, trailers))
    decreases |frames|
  {
    if |frames| == 0 {
      DecodesEnd(d, last, trailers, extra);
      assert Payload([]) == "" && d.output + "" == d.output && frames == [];
    } else {
      WireFront(frames, last, trailers, extra);
      var next := d.(buffer := Wire(frames[1..], last, trailers) + extra, output := d.output + frames[0].data);
      ProcessFrame(d, frames[0], next.buffer);
      DecodesEncoding(next, frames[1..], last, trailers, extra);
      PayloadFront(d.output, frames);
    }
  }

  /** The two laws together: the encoded payload comes out however its bytes arrive. */
  lemma StreamDecodesEncoding(pieces: seq<string>, frames: seq<Frame>, last: string, trailers: seq<string>)
    requires Join(pieces) == Wire(frames, last, trailers)
    requires forall k :: 0 <= k < |frames| ==> FrameOk(frames[k])
    requires forall k :: 0 <= k < |trailers| ==> TrailerOk(trailers[k])
    requires IndexOfCrlf(last) < 0 && HeaderSize(last) == Some(0)
    ensures FeedAll(START, pieces) == Decoder(Done, "", Payload(frames), TrailerMap(map[], trailers))
    ensures Accepted(FeedAll(START, pieces))
  {
    assert Process(START) == START;
    FragmentationIndependent(START, pieces);
    var whole := START.(buffer := Wire(frames, last, trailers));
    assert "" + Join(pieces) == Join(pieces);
    assert whole.buffer == Wire(frames, last, trailers) + "";
    DecodesEncoding(whole, frames, last, trailers, "");
  }
}
