/** What the two decoders of the aws-chunked encoding agree on. */
module AwsAgreement {
  import opened Wrappers
  import opened AwsChunked
  import opened AwsReader
  import opened AwsHeaders

  // ---------------------------------------------------------------- acceptance carries over

  /** A data header holds no line feed, and the digits of the zero header are not behind one. */
  predicate PlainLine(line: string) {
    var size := HeaderSize(line);
    size.Some? ==> if size.value == 0 then HeaderSize(Before(line, '\n')).Some? else '\n' !in line
  }

  /** Every header line the push decoder gets to is plain. */
  predicate PlainHeaders(s: string)
    decreases |s|
  {
    var i := IndexOfCrlf(s);
    i >= 0 ==> PlainLine(s[..i]) && PlainAfter(HeaderSize(s[..i]), s[i + 2..])
  }

  predicate PlainAfter(size: Option<nat>, rest: string)
    decreases |rest|
  {
    size.Some? && size.value > 0 && |rest| >= size.value + 2 ==> PlainHeaders(rest[size.value..][2..])
  }

  lemma {:induction false} TrailersKeepOutput(d: Decoder)
    requires d.phase.Trailers?
    ensures Process(d).output == d.output
    decreases Rank(d)
  {
    var next := Step(d);
    if next.Some? && next.value.phase.Trailers? { TrailersKeepOutput(next.value); }
  }

  /** A stream that will be accepted has its next round at hand, and that round does not fail. */
  lemma AcceptedSteps(d: Decoder)
    requires Accepted(Process(d)) && !d.phase.Done?
    ensures Step(d).Some? && Process(d) == Process(Step(d).value) && !Step(d).value.phase.Failed?
  {
  }

  /** A data chunk in a stream that is accepted is complete. */
  lemma DataComplete(d: Decoder)
    requires d.phase.Data? && Accepted(Process(d))
    ensures var n := d.phase.expected;
      && n + 2 <= |d.buffer| && CrlfError(d.buffer[n..]) == None
      && Process(d) == Process(d.(phase := Header, buffer := d.buffer[n..][2..], output := d.output + d.buffer[..n]))
  {
    AcceptedSteps(d);
    AcceptedSteps(Step(d).value);
  }

  /** The pull decoder gets, without an error, the payload the push decoder adds to `output`. */
  predicate SamePayload(d: Decoder, output: string, drained: Drained) {
    drained.error == Eof && d.output == output + drained.payload
  }

  lemma SamePayloadBefore(d: Decoder, output: string, data: string, drained: Drained)
    requires SamePayload(d, output + data, drained)
    ensures SamePayload(d, output, After(data, drained))
  {
    assert output + data + drained.payload == output + (data + drained.payload);
  }

  /** A stream the push decoder accepts is read without error, to the same payload, by the pull decoder. */
  lemma {:induction false} AcceptedByBoth(d: Decoder)
    requires d.phase.Header? && Accepted(Process(d)) && PlainHeaders(d.buffer) && |d.buffer| < INT64_LIMIT
    ensures SamePayload(Process(d), d.output, DrainFrom(0, d.buffer))
    decreases |d.buffer|
  {
    AcceptedSteps(d);
    var e := Step(d).value;
    HeaderLineOf(d);
    if e.phase.Trailers? {
      TrailersKeepOutput(e);
    } else {
      var n := e.phase.expected;
      DataComplete(e);
      var next := e.(phase := Header, buffer := e.buffer[n..][2..], output := e.output + e.buffer[..n]);
      AcceptedByBoth(next);
      DrainChunk(n, e.buffer);
      SamePayloadBefore(Process(d), d.output, e.buffer[..n], DrainFrom(0, next.buffer));
    }
  }

  lemma HeaderLineOf(d: Decoder)
    requires d.phase.Header? && PlainHeaders(d.buffer) && |d.buffer| < INT64_LIMIT
    requires Accepted(Process(d)) && Step(d).Some?
    ensures var e := Step(d).value;
      && |e.buffer| < |d.buffer| && e.output == d.output
      && (e.phase.Trailers? || (e.phase.Data? && e.phase.expected > 0 && PlainAfter(Some(e.phase.expected), e.buffer)))
      && (e.phase.Trailers? ==> NextChunk(d.buffer).NextEnd?)
      && (e.phase.Data? ==> NextChunk(d.buffer) == NextData(e.phase.expected, e.buffer))
  {
    AcceptedSteps(d);
    var s, i := d.buffer, IndexOfCrlf(d.buffer);
    var e := AfterHeader(d, s[..i], s[i + 2..]);
    var size := HeaderSize(s[..i]);
    assert Step(d) == Some(e) && size.Some?;
    if e.phase.Data? { DataComplete(e); }
    if size.value == 0 {
      ZeroHeaderIff(s, i);
    } else {
      assert size.value < INT64_LIMIT;
      DataHeaderIff(s, i);
    }
  }

  // ---------------------------------------------------------------- decoding undoes encoding

  predicate GoFrameOk(f: Frame) {
    FrameOk(f) && '\n' !in f.header && |f.data| < INT64_LIMIT
  }

  lemma LineText(line: string, rest: string)
    ensures var s, i := line + CRLF + rest, |line|;
      i + 2 <= |s| && s[i] == '\r' && s[i + 1] == '\n' && s[..i] == line && s[i + 2..] == rest
  {
  }

  lemma DataText(data: string, rest: string)
    ensures var s, n := data + (CRLF + rest), |data|;
      s[..n] == data && s[n..] == CRLF + rest && (CRLF + rest)[2..] == rest
  {
  }

  lemma DrainFrame(f: Frame, rest: string)
    requires GoFrameOk(f)
    ensures DrainFrom(0, f.header + CRLF + (f.data + (CRLF + rest))) == After(f.data, DrainFrom(0, rest))
  {
    var body := f.data + (CRLF + rest);
    LineText(f.header, body);
    HeaderLine(f.header + CRLF + body, |f.header|);
    DataText(f.data, rest);
    DrainChunk(|f.data|, body);
    assert CrlfError(CRLF + rest) == None;
  }

  lemma FramesFront(frames: seq<Frame>, rest: string)
    requires |frames| > 0
    ensures FramesText(frames) + rest ==
      frames[0].header + CRLF + (frames[0].data + (CRLF + (FramesText(frames[1..]) + rest)))
  {
    Regroup(frames[0].header, frames[0].data, FramesText(frames[1..]), rest);
  }

  lemma Regroup(header: string, data: string, more: string, rest: string)
    ensures header + CRLF + data + CRLF + more + rest == header + CRLF + (data + (CRLF + (more + rest)))
  {
  }

  lemma {:induction false} DrainFrames(frames: seq<Frame>, rest: string, end: Drained)
    requires forall k :: 0 <= k < |frames| ==> GoFrameOk(frames[k])
    requires end == DrainFrom(0, rest)
    ensures DrainFrom(0, FramesText(frames) + rest) == After(Payload(frames), end)
    decreases |frames|
  {
    if |frames| == 0 {
      assert "" + rest == rest && "" + end.payload == end.payload;
    } else {
      var tail := FramesText(frames[1..]) + rest;
      FramesFront(frames, rest);
      DrainFrame(frames[0], tail);
      DrainFrames(frames[1..], rest, end);
      AfterAfter(frames[0].data, Payload(frames[1..]), end);
    }
  }

  lemma DrainEnd(last: string, rest: string)
    requires PlainLine(last) && HeaderSize(last) == Some(0)
    ensures DrainFrom(0, last + CRLF + rest) == Drained("", Eof)
  {
    LineText(last, rest);
    ZeroHeaderIff(last + CRLF + rest, |last|);
  }

  /** Whatever the trailers are, the pull decoder returns the encoded payload and ends cleanly. */
  lemma PullDecodesEncoding(frames: seq<Frame>, last: string, trailers: seq<string>)
    requires forall k :: 0 <= k < |frames| ==> GoFrameOk(frames[k])
    requires PlainLine(last) && HeaderSize(last) == Some(0)
    ensures DrainFrom(0, Wire(frames, last, trailers)) == Drained(Payload(frames), Eof)
  {
    WireParts(frames, last, trailers);
    DrainEnd(last, TrailersText(trailers));
    DrainFrames(frames, last + CRLF + TrailersText(trailers), Drained("", Eof));
    assert Payload(frames) + "" == Payload(frames);
  }

  lemma WireParts(frames: seq<Frame>, last: string, trailers: seq<string>)
    ensures Wire(frames, last, trailers) == FramesText(frames) + (last + CRLF + TrailersText(trailers))
  {
  }
}
