/**
 The pull decoder of the same encoding (backend-transfer-go/internal/handler/s3_aws_chunked_reader.go),
 and how its verdicts relate to those of the push decoder.  `DrainFrom` says what is left to be read,
 on values; the methods of the reader object are proved to hand out its front, whatever the sizes
 of the caller's buffers.
 */
module AwsReader {
  import opened Wrappers
  import opened AwsChunked

  /** What ends a reader: `Eof` is the clean end an `io.Reader` reports. */
  datatype GoError = Eof | UnexpectedEof | BadSizeLine | BadCrlf

  const INT64_LIMIT := 0x8000_0000_0000_0000

  // ---------------------------------------------------------------- lines and sizes

  /** `strings.TrimRight(line, "\r\n")`. */
  function TrimLineEnd(s: string): (t: string)
    ensures t <= s
  {
    if |s| > 0 && (s[|s| - 1] == '\r' || s[|s| - 1] == '\n') then TrimLineEnd(s[..|s| - 1]) else s
  }

  /** The text up to and including the first line feed, or all of it. */
  function FirstLine(s: string): (line: string)
    ensures line <= s && (s != "" ==> line != "")
  {
    if |s| == 0 then "" else if s[0] == '\n' then [s[0]] else [s[0]] + FirstLine(s[1..])
  }

  /** `strconv.ParseInt(s, 16, 64)` followed by the check for a negative size. */
  function ParseSize(s: string): Option<nat> {
    if |s| == 0 then None
    else
      var digits := if s[0] == '+' || s[0] == '-' then s[1..] else s;
      var v := HexValue(digits);
      if v.None? || v.value >= INT64_LIMIT || (s[0] == '-' && v.value > 0) then None else v
  }

  function GoHeaderSize(line: string): Option<nat> {
    ParseSize(Trim(Before(line, ';')))
  }

  // ---------------------------------------------------------------- what draining yields

  datatype Next = NextData(size: nat, rest: string) | NextEnd(rest: string) | NextError(error: GoError)

  /** `consumeTrailers`: lines up to a blank one; the end of the input will do. */
  function SkipTrailers(s: string): string
    decreases |s|
  {
    if s == "" then ""
    else
      var line := FirstLine(s);
      if TrimLineEnd(line) == "" then s[|line|..] else SkipTrailers(s[|line|..])
  }

  function NextChunk(s: string): (next: Next)
    ensures next.NextData? ==> next.size > 0 && |next.rest| < |s|
  {
    if s == "" then NextError(Eof)
    else
      var line := FirstLine(s);
      var size := GoHeaderSize(TrimLineEnd(line));
      if size.None? then NextError(BadSizeLine)
      else if size.value == 0 then NextEnd(SkipTrailers(s[|line|..]))
      else NextData(size.value, s[|line|..])
  }

  /** The error of `consumeCRLF`, if any. */
  function CrlfError(s: string): Option<GoError> {
    if |s| < 2 then Some(Eof) else if s[0] != '\r' || s[1] != '\n' then Some(BadCrlf) else None
  }

  datatype Drained = Drained(payload: string, error: GoError)

  /** Everything a reader with `remain` bytes left in its chunk will still return, and how it ends. */
  function DrainFrom(remain: nat, s: string): Drained
    decreases |s|
  {
    if remain == 0 then
      match NextChunk(s)
      case NextData(size, rest) => DrainFrom(size, rest)
      case NextEnd(_) => Drained("", Eof)
      case NextError(e) => Drained("", e)
    else if |s| < remain then Drained(s, UnexpectedEof)
    else
      var e := CrlfError(s[remain..]);
      if e.Some? then Drained(s[..remain], e.value)
      else
        var more := DrainFrom(0, s[remain + 2..]);
        Drained(s[..remain] + more.payload, more.error)
  }

  function Min(m: nat, n: nat): nat {
    if m < n then m else n
  }

  function After(front: string, d: Drained): Drained {
    Drained(front + d.payload, d.error)
  }

  lemma AfterAfter(front: string, more: string, d: Drained)
    ensures After(front, After(more, d)) == After(front + more, d)
  {
    assert front + (more + d.payload) == (front + more) + d.payload;
  }

  /** What follows the bytes of a chunk. */
  function AtCrlf(s: string): Drained {
    var e := CrlfError(s);
    if e.Some? then Drained("", e.value) else DrainFrom(0, s[2..])
  }

  /** Taking the last bytes of a chunk. */
  lemma DrainChunk(n: nat, s: string)
    requires 0 < n <= |s|
    ensures DrainFrom(n, s) == After(s[..n], AtCrlf(s[n..]))
  {
    if CrlfError(s[n..]).None? {
      assert s[n..][2..] == s[n + 2..];
    } else {
      assert s[..n] + "" == s[..n];
    }
  }

  /** Taking `n` bytes of a chunk before the rest of it. */
  lemma DrainPart(remain: nat, s: string, n: nat)
    requires 0 < n < remain && n <= |s|
    ensures DrainFrom(remain, s) == After(s[..n], DrainFrom(remain - n, s[n..]))
  {
    if |s| < remain {
      assert s == s[..n] + s[n..];
    } else {
      DrainChunk(remain, s);
      DrainChunk(remain - n, s[n..]);
      InParts(s, n, remain);
      AfterAfter(s[..n], s[n..][..remain - n], AtCrlf(s[remain..]));
    }
  }

  lemma InParts(s: string, n: nat, m: nat)
    requires n <= m <= |s|
    ensures s[..m] == s[..n] + s[n..][..m - n] && s[n..][m - n..] == s[m..]
  {
  }

  // ---------------------------------------------------------------- the reader object

  class AwsChunkedReader {
    var input: string
    var remain: nat
    var done: bool
    var err: Option<GoError>

    function Left(): Drained
      reads this
    {
      if err.Some? then Drained("", err.value)
      else if done then Drained("", Eof)
      else DrainFrom(remain, input)
    }

    constructor (wire: string)
      ensures Left() == DrainFrom(0, wire) && input == wire && err == None && !done
    {
      input, remain, done, err := wire, 0, false, None;
    }

    /**
     `Read` into a buffer of `want` bytes; the buffered reader below may hand out any positive
     number of bytes, bounded by `got`.  What is returned is the front of what was left.
     */
    method Read(want: nat, got: nat) returns (data: string, e: Option<GoError>)
      requires want > 0 && got > 0
      modifies this
      ensures |data| <= want
      ensures old(Left()) == After(data, Left())
      ensures e.Some? ==> Left() == Drained("", e.value)
      ensures e.None? ==> data != ""
      ensures |input| + |data| <= |old(input)|
    {
      data := "";
      if err.Some? {
        return data, err;
      }
      if done {
        return data, Some(Eof);
      }
      if remain == 0 {
        e := NextHeader();
        if e.Some? {
          err := e;
          return data, e;
        }
        if done {
          return data, Some(Eof);
        }
      }
      data, e := ReadChunk(want, got);
    }

    /** The rest of `Read`, inside a chunk. */
    method ReadChunk(want: nat, got: nat) returns (data: string, e: Option<GoError>)
      requires want > 0 && got > 0 && remain > 0 && !done && err == None
      modifies this`input, this`remain, this`err
      ensures |data| <= want
      ensures old(Left()) == After(data, Left())
      ensures e == err && (e.None? ==> data != "")
      ensures |input| + |data| <= |old(input)|
    {
      if input == "" {
        err := Some(UnexpectedEof);
        return "", err;
      }
      var n := Min(Min(want, got), Min(remain, |input|));
      data := Advance(n);
      e := None;
      if remain == 0 {
        e := EndChunk();
      }
    }

    /** Take `n` bytes of the chunk; what is left is then behind them. */
    method Advance(n: nat) returns (data: string)
      requires 0 < n <= remain && n <= |input| && !done && err == None
      modifies this`input, this`remain
      ensures data == old(input)[..n] && input == old(input)[n..] && remain == old(remain) - n
      ensures old(Left()) == After(data, if remain == 0 then AtCrlf(input) else DrainFrom(remain, input))
    {
      if n == remain { DrainChunk(n, input); } else { DrainPart(remain, input, n); }
      data, input, remain := input[..n], input[n..], remain - n;
    }

    /** The line end behind the data of a chunk. */
    method EndChunk() returns (e: Option<GoError>)
      requires remain == 0 && !done && err == None
      modifies this`input, this`err
      ensures Left() == AtCrlf(old(input)) && e == err && |input| <= |old(input)|
    {
      e := ConsumeCrlf();
      err := e;
    }

    /** `nextChunk`. */
    method NextHeader() returns (e: Option<GoError>)
      requires remain == 0 && !done && err == None
      modifies this`input, this`remain, this`done
      ensures match NextChunk(old(input))
              case NextData(size, rest) => e == None && !done && remain == size && input == rest
              case NextEnd(rest) => e == None && done && remain == 0 && input == rest
              case NextError(x) => e == Some(x) && !done && remain == 0
      ensures |input| <= |old(input)|
    {
      if input == "" {
        return Some(Eof);
      }
      var line := FirstLine(input);
      input := input[|line|..];
      var size := GoHeaderSize(TrimLineEnd(line));
      if size.None? {
        return Some(BadSizeLine);
      }
      if size.value == 0 {
        ConsumeTrailers();
        done := true;
        return None;
      }
      remain := size.value;
      return None;
    }

    method ConsumeTrailers()
      modifies this`input
      ensures input == SkipTrailers(old(input)) && |input| <= |old(input)|
    {
      while input != ""
        invariant SkipTrailers(input) == SkipTrailers(old(input)) && |input| <= |old(input)|
        decreases |input|
      {
        var line := FirstLine(input);
        if TrimLineEnd(line) == "" {
          input := input[|line|..];
          return;
        }
        input := input[|line|..];
      }
    }

    method ConsumeCrlf() returns (e: Option<GoError>)
      modifies this`input
      ensures e == CrlfError(old(input))
      ensures e.None? ==> input == old(input)[2..]
      ensures |input| <= |old(input)|
    {
      e := CrlfError(input);
      if e.None? {
        input := input[2..];
      }
    }

    /** Draining with any buffer sizes terminates and returns exactly what was left. */
    method ReadAll(want: nat -> nat, got: nat -> nat) returns (payload: string, error: GoError)
      requires forall k :: want(k) > 0 && got(k) > 0
      modifies this
      ensures Drained(payload, error) == old(Left())
    {
      payload := "";
      var e: Option<GoError> := None;
      var k := 0;
      while e.None?
        invariant old(Left()) == After(payload, Left())
        invariant e.Some? ==> Left() == Drained("", e.value)
        decreases |input| + if e.None? then 1 else 0
      {
        var data: string;
        ghost var before := payload;
        data, e := Read(want(k), got(k));
        payload := payload + data;
        AfterAfter(before, data, Left());
        k := k + 1;
      }
      error := e.value;
    }
  }

  // ---------------------------------------------------------------- what skipping trailers leaves

  /** A trailer line that does not end the section. */
  predicate SkippedLine(line: string) {
    '\n' !in line && TrimLineEnd(line + CRLF) != ""
  }

  lemma {:induction false} LineFirst(line: string, rest: string)
    requires '\n' !in line
    ensures FirstLine(line + CRLF + rest) == line + CRLF
  {
    if |line| == 0 {
      assert "" + CRLF + rest == CRLF + rest;
      assert (CRLF + rest)[1..] == "\n" + rest && FirstLine("\n" + rest) == "\n";
    } else {
      assert (line + CRLF + rest)[1..] == line[1..] + CRLF + rest;
      LineFirst(line[1..], rest);
      assert [line[0]] + (line[1..] + CRLF) == line + CRLF;
    }
  }

  lemma SkipOne(line: string, rest: string)
    requires SkippedLine(line)
    ensures SkipTrailers(line + CRLF + rest) == SkipTrailers(rest)
  {
    LineFirst(line, rest);
    assert (line + CRLF + rest)[|line + CRLF|..] == rest;
  }

  /** The trailer section ends behind the first blank line, or with the input. */
  lemma {:induction false} TrailersSkipped(lines: seq<string>, extra: string)
    requires forall k :: 0 <= k < |lines| ==> SkippedLine(lines[k])
    ensures SkipTrailers(TrailersText(lines) + extra) == extra
  {
    if |lines| == 0 {
      assert CRLF + extra == "" + CRLF + extra;
      LineFirst("", extra);
      assert TrimLineEnd(CRLF) == "" by { assert CRLF[..1] == "\r" && "\r"[..0] == ""; }
      assert ("" + CRLF + extra)[2..] == extra;
    } else {
      TrailersSkipped(lines[1..], extra);
      SkipOne(lines[0], TrailersText(lines[1..]) + extra);
      TrailersFront(lines, extra);
    }
  }

  lemma {:induction false} WholeLine(s: string)
    requires '\n' !in s
    ensures FirstLine(s) == s
  {
    if |s| > 0 { WholeLine(s[1..]); }
  }

  function LinesText(lines: seq<string>): string {
    if |lines| == 0 then "" else lines[0] + CRLF + LinesText(lines[1..])
  }

  lemma {:induction false} TrailersToTheEnd(lines: seq<string>, last: string)
    requires forall k :: 0 <= k < |lines| ==> SkippedLine(lines[k])
    requires '\n' !in last
    ensures SkipTrailers(LinesText(lines) + last) == ""
  {
    if |lines| == 0 {
      assert "" + last == last;
      WholeLine(last);
      if last != "" {
        assert last[|last|..] == "" && SkipTrailers("") == "";
      }
    } else {
      TrailersToTheEnd(lines[1..], last);
      SkipOne(lines[0], LinesText(lines[1..]) + last);
      assert LinesText(lines) + last == lines[0] + CRLF + (LinesText(lines[1..]) + last);
    }
  }
}
