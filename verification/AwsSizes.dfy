/** Chunk sizes as they are written, and what the decoders read. */
module AwsSizes {
  // The writer is told without the readers: base-16 digits by division, in either case, behind any
  // number of zeros, and an extension that begins with a semicolon.

  import opened Wrappers
  import opened AwsChunked
  import opened AwsReader
  import opened AwsHeaders
  import opened AwsAgreement

  const LOWER := "0123456789abcdef"
  const UPPER := "0123456789ABCDEF"

  // ---------------------------------------------------------------- the writer

  /** A hex digit; `upper` says in which case. */
  function Digit(n: nat, upper: bool): char
    requires n < 16
  {
    if upper then UPPER[n] else LOWER[n]
  }

  /** The base-16 digits of `n`; the case of each is arbitrary. */
  function HexText(n: nat, upper: nat -> bool): (s: string)
    ensures s != ""
  {
    if n < 16 then [Digit(n, upper(n))] else HexText(n / 16, upper) + [Digit(n % 16, upper(n))]
  }

  function ZerosText(n: nat): string {
    if n == 0 then "" else "0" + ZerosText(n - 1)
  }

  /** A header line for a chunk of `n` bytes. */
  function HeaderText(n: nat, zeros: nat, upper: nat -> bool, extension: string): string {
    ZerosText(zeros) + HexText(n, upper) + extension
  }

  predicate ExtensionOk(extension: string) {
    (extension == "" || extension[0] == ';') && IndexOfCrlf(extension) < 0
  }

  // ---------------------------------------------------------------- single digits

  predicate IsHexChar(c: char) {
    c in LOWER || c in UPPER
  }

  lemma DigitReads(n: nat, upper: bool)
    requires n < 16
    ensures HexDigit(Digit(n, upper)) == Some(n) && IsHexChar(Digit(n, upper))
  {
  }

  lemma HexChars(c: char)
    ensures HexDigit(c).Some? <==> IsHexChar(c)
    ensures IsHexChar(c) ==> !IsSpace(c) && c != ';' && c != '\r' && c != '\n' && c != '+' && c != '-'
  {
    if HexDigit(c).Some? {
      var n := HexDigit(c).value;
      assert c == LOWER[n] || c == UPPER[n];
    }
  }

  // ---------------------------------------------------------------- reading a number

  /** A text is a number exactly when it is not empty and holds only hex digits, of either case. */
  lemma {:induction false} HexValueIff(s: string)
    ensures HexValue(s).Some? <==> s != "" && forall c :: c in s ==> IsHexChar(c)
  {
    if |s| > 0 {
      HexChars(s[|s| - 1]);
      var front := s[..|s| - 1];
      HexValueIff(front);
      assert s == front + [s[|s| - 1]];
    }
  }

  lemma AppendDigit(s: string, c: char)
    requires HexValue(s).Some? && HexDigit(c).Some?
    ensures HexValue(s + [c]) == Some(16 * HexValue(s).value + HexDigit(c).value)
  {
    assert (s + [c])[..|s|] == s;
  }

  lemma {:induction false} HexTextReads(n: nat, upper: nat -> bool)
    ensures HexValue(HexText(n, upper)) == Some(n)
  {
    if n < 16 {
      DigitReads(n, upper(n));
    } else {
      DigitReads(n % 16, upper(n));
      HexTextReads(n / 16, upper);
      AppendDigit(HexText(n / 16, upper), Digit(n % 16, upper(n)));
    }
  }

  lemma {:induction false} ZeroInFront(s: string)
    requires HexValue(s).Some?
    ensures HexValue("0" + s) == HexValue(s)
  {
    var t := "0" + s;
    assert t[|t| - 1] == s[|s| - 1];
    if |s| == 1 {
      assert t[..1] == "0";
      assert HexValue("0") == Some(0);
    } else {
      assert t[..|t| - 1] == "0" + s[..|s| - 1];
      ZeroInFront(s[..|s| - 1]);
    }
  }

  lemma {:induction false} ZerosRead(zeros: nat, s: string)
    requires HexValue(s).Some?
    ensures HexValue(ZerosText(zeros) + s) == HexValue(s)
  {
    if zeros == 0 {
      assert "" + s == s;
    } else {
      ZerosRead(zeros - 1, s);
      ZeroInFront(ZerosText(zeros - 1) + s);
      assert ZerosText(zeros) + s == "0" + (ZerosText(zeros - 1) + s);
    }
  }

  // ---------------------------------------------------------------- reading a header

  lemma NothingToTrim(s: string)
    requires s != "" && forall c :: c in s ==> IsHexChar(c)
    ensures Trim(s) == s
  {
    HexChars(s[0]);
    HexChars(s[|s| - 1]);
  }

  lemma NumberAlone(s: string, extension: string)
    requires s != "" && (forall c :: c in s ==> IsHexChar(c)) && (extension == "" || extension[0] == ';')
    ensures Before(s + extension, ';') == s && Trim(s) == s
  {
    if ';' in s { HexChars(';'); }
    NothingToTrim(s);
    BeforeBehind(s, extension, ';');
    assert Before(extension, ';') == "" && s + "" == s;
  }

  /**
   Both decoders read the size that was written, in any spelling and with any extension; the pull
   decoder as long as it fits into 63 bits.
   */
  lemma HeaderReads(n: nat, zeros: nat, upper: nat -> bool, extension: string)
    requires extension == "" || extension[0] == ';'
    ensures HeaderSize(HeaderText(n, zeros, upper, extension)) == Some(n)
    ensures n < 0x8000_0000_0000_0000 ==> GoHeaderSize(HeaderText(n, zeros, upper, extension)) == Some(n)
  {
    var s := ZerosText(zeros) + HexText(n, upper);
    HexTextReads(n, upper);
    ZerosRead(zeros, HexText(n, upper));
    HexValueIff(s);
    NumberAlone(s, extension);
    HexChars(s[0]);
  }

  /** A larger size is an error for the pull decoder. */
  lemma TooLargeFails(n: nat, zeros: nat, upper: nat -> bool, extension: string)
    requires (extension == "" || extension[0] == ';') && n >= 0x8000_0000_0000_0000
    ensures GoHeaderSize(HeaderText(n, zeros, upper, extension)) == None
  {
    var s := ZerosText(zeros) + HexText(n, upper);
    HexTextReads(n, upper);
    ZerosRead(zeros, HexText(n, upper));
    HexValueIff(s);
    NumberAlone(s, extension);
    HexChars(s[0]);
  }

  lemma SignInFront(s: string, n: nat)
    requires HexValue(s) == Some(n) && n < 0x8000_0000_0000_0000
    ensures ParseSize(['+'] + s) == Some(n) && ParseSize(['-'] + s) == if n == 0 then Some(0) else None
  {
    assert (['+'] + s)[1..] == s && (['-'] + s)[1..] == s;
  }

  lemma NoSign(s: string)
    ensures HexValue(['+'] + s) == None && HexValue(['-'] + s) == None
  {
    HexValueIff(['+'] + s);
    HexValueIff(['-'] + s);
    assert (['+'] + s)[0] == '+' && (['-'] + s)[0] == '-';
    HexChars('+');
    HexChars('-');
  }

  /** The pull decoder also takes a sign, and a minus only in front of zero; the push decoder takes none. */
  lemma SignsRead(n: nat, upper: nat -> bool)
    requires n < 0x8000_0000_0000_0000
    ensures var s := HexText(n, upper);
      && ParseSize(['+'] + s) == Some(n) && HexValue(['+'] + s) == None
      && ParseSize(['-'] + s) == (if n == 0 then Some(0) else None) && HexValue(['-'] + s) == None
  {
    HexTextReads(n, upper);
    SignInFront(HexText(n, upper), n);
    NoSign(HexText(n, upper));
  }

  // ---------------------------------------------------------------- what is not a size

  /** What trimming leaves is the text between its outer blanks. */
  lemma TrimIs(s: string) returns (a: string, b: string)
    ensures s == a + Trim(s) + b
    ensures forall c :: c in a || c in b ==> c in BLANKS
    ensures Trim(s) != "" ==> Trim(s)[0] !in BLANKS && Trim(s)[|Trim(s)| - 1] !in BLANKS
  {
    BlanksAreSpaces();
    b := TrimRightIs(s);
    a := TrimLeftIs(TrimRight(s));
  }

  const BLANKS := [' ', '\t', '\n', '\r', 11 as char, 12 as char]

  lemma BlanksAreSpaces()
    ensures forall c :: c in BLANKS <==> IsSpace(c)
  {
    assert BLANKS[0] == ' ' && BLANKS[1] == '\t' && BLANKS[2] == '\n' && BLANKS[3] == '\r';
    assert BLANKS[4] == 11 as char && BLANKS[5] == 12 as char;
  }

  lemma {:induction false} TrimRightIs(s: string) returns (b: string)
    ensures s == TrimRight(s) + b && forall c :: c in b ==> IsSpace(c)
    ensures TrimRight(s) != "" ==> !IsSpace(TrimRight(s)[|TrimRight(s)| - 1])
  {
    b := "";
    if |s| > 0 && IsSpace(s[|s| - 1]) {
      b := TrimRightIs(s[..|s| - 1]);
      b := b + [s[|s| - 1]];
    }
  }

  lemma {:induction false} TrimLeftIs(s: string) returns (a: string)
    ensures s == a + TrimLeft(s) && forall c :: c in a ==> IsSpace(c)
    ensures TrimLeft(s) != "" ==> !IsSpace(TrimLeft(s)[0]) && TrimLeft(s)[|TrimLeft(s)| - 1] == s[|s| - 1]
  {
    a := "";
    if |s| > 0 && IsSpace(s[0]) {
      a := TrimLeftIs(s[1..]);
      a := [s[0]] + a;
    }
  }

  /**
   A header has no size exactly when what is in front of its first semicolon, without outer blanks, is
   empty or holds something that is no hex digit.
   */
  lemma NoSizeIff(line: string)
    ensures HeaderSize(line) == None <==>
      Trim(Before(line, ';')) == "" || exists c :: c in Trim(Before(line, ';')) && c !in LOWER && c !in UPPER
  {
    HexValueIff(Trim(Before(line, ';')));
  }

  // ---------------------------------------------------------------- uploads as they are written

  /** How one chunk is written. */
  datatype Style = Style(zeros: nat, upper: nat -> bool, extension: string)

  function Written(data: string, style: Style): Frame {
    Frame(HeaderText(|data|, style.zeros, style.upper, style.extension), data)
  }

  predicate StyleOk(style: Style) {
    ExtensionOk(style.extension)
  }

  lemma {:induction false} HexTextChars(n: nat, upper: nat -> bool)
    ensures forall c :: c in HexText(n, upper) ==> IsHexChar(c)
  {
    DigitReads(n % 16, upper(n));
    if n >= 16 { HexTextChars(n / 16, upper); }
  }

  lemma {:induction false} ZerosChars(zeros: nat)
    ensures forall c :: c in ZerosText(zeros) ==> c == '0'
  {
    if zeros > 0 { ZerosChars(zeros - 1); }
  }

  lemma {:induction false} CrlfBehind(s: string, extension: string)
    requires (forall c :: c in s ==> IsHexChar(c)) && IndexOfCrlf(extension) < 0
    ensures IndexOfCrlf(s + extension) < 0
  {
    if |s| == 0 {
      assert s + extension == extension;
    } else {
      HexChars(s[0]);
      assert (s + extension)[1..] == s[1..] + extension;
      CrlfBehind(s[1..], extension);
    }
  }

  /** A chunk that is written like that is a frame. */
  lemma WrittenIsFrame(data: string, style: Style)
    requires data != "" && StyleOk(style)
    ensures FrameOk(Written(data, style))
    ensures '\n' !in style.extension && |data| < INT64_LIMIT ==> GoFrameOk(Written(data, style))
  {
    var n, s := |data|, ZerosText(style.zeros) + HexText(|data|, style.upper);
    HexTextChars(n, style.upper);
    ZerosChars(style.zeros);
    HeaderReads(n, style.zeros, style.upper, style.extension);
    CrlfBehind(s, style.extension);
    HexChars('\n');
  }

  function WrittenAll(datas: seq<string>, styles: seq<Style>): seq<Frame>
    requires |datas| == |styles|
  {
    seq(|datas|, k requires 0 <= k < |datas| => Written(datas[k], styles[k]))
  }

  lemma {:induction false} WrittenPayload(datas: seq<string>, styles: seq<Style>)
    requires |datas| == |styles|
    ensures Payload(WrittenAll(datas, styles)) == Join(datas)
  {
    if |datas| > 0 {
      WrittenPayload(datas[1..], styles[1..]);
      assert WrittenAll(datas, styles)[1..] == WrittenAll(datas[1..], styles[1..]);
    }
  }

  /**
   Whatever is written chunk by chunk, with the size of each in hex digits of any case, behind any
   zeros and with any extension, comes out of the push decoder, in whatever pieces it arrives.
   */
  lemma WrittenUploadsDecode(
    datas: seq<string>, styles: seq<Style>, last: Style, trailers: seq<string>, pieces: seq<string>)
    requires |datas| == |styles| && forall k :: 0 <= k < |datas| ==> datas[k] != "" && StyleOk(styles[k])
    requires StyleOk(last) && forall k :: 0 <= k < |trailers| ==> TrailerOk(trailers[k])
    requires Join(pieces)
      == Wire(WrittenAll(datas, styles), HeaderText(0, last.zeros, last.upper, last.extension), trailers)
    ensures Accepted(FeedAll(START, pieces)) && FeedAll(START, pieces).output == Join(datas)
  {
    var frames := WrittenAll(datas, styles);
    forall k | 0 <= k < |frames| ensures FrameOk(frames[k]) { WrittenIsFrame(datas[k], styles[k]); }
    WrittenLast(last);
    WrittenPayload(datas, styles);
    StreamDecodesEncoding(pieces, frames, HeaderText(0, last.zeros, last.upper, last.extension), trailers);
  }

  lemma WrittenLast(last: Style)
    requires StyleOk(last)
    ensures var line := HeaderText(0, last.zeros, last.upper, last.extension);
      HeaderSize(line) == Some(0) && IndexOfCrlf(line) < 0 && ('\n' !in last.extension ==> '\n' !in line)
  {
    HexTextChars(0, last.upper);
    ZerosChars(last.zeros);
    HeaderReads(0, last.zeros, last.upper, last.extension);
    CrlfBehind(ZerosText(last.zeros) + HexText(0, last.upper), last.extension);
    HexChars('\n');
  }

  /** And out of the pull decoder, if no extension holds a line feed. */
  lemma WrittenUploadsDrain(datas: seq<string>, styles: seq<Style>, last: Style, trailers: seq<string>)
    requires |datas| == |styles|
    requires forall k :: 0 <= k < |datas| ==>
      datas[k] != "" && |datas[k]| < INT64_LIMIT && StyleOk(styles[k]) && '\n' !in styles[k].extension
    requires StyleOk(last) && '\n' !in last.extension
    ensures var line := HeaderText(0, last.zeros, last.upper, last.extension);
      DrainFrom(0, Wire(WrittenAll(datas, styles), line, trailers))
      == Drained(Join(datas), Eof)
  {
    var frames, line := WrittenAll(datas, styles), HeaderText(0, last.zeros, last.upper, last.extension);
    forall k | 0 <= k < |frames| ensures GoFrameOk(frames[k]) { WrittenIsFrame(datas[k], styles[k]); }
    WrittenLast(last);
    BeforeWhole(line, '\n');
    WrittenPayload(datas, styles);
    PullDecodesEncoding(frames, line, trailers);
  }

  // ---------------------------------------------------------------- trailers

  const UPPER_LETTERS := "ABCDEFGHIJKLMNOPQRSTUVWXYZ"
  const LOWER_LETTERS := "abcdefghijklmnopqrstuvwxyz"

  lemma LowerLetters(s: string)
    ensures |Lower(s)| == |s|
    ensures forall i, k :: 0 <= i < |s| && 0 <= k < 26 && s[i] == UPPER_LETTERS[k] ==> Lower(s)[i] == LOWER_LETTERS[k]
    ensures forall i :: 0 <= i < |s| && !('A' <= s[i] <= 'Z') ==> Lower(s)[i] == s[i]
  {
    forall i, k | 0 <= i < |s| && 0 <= k < 26 && s[i] == UPPER_LETTERS[k] ensures Lower(s)[i] == LOWER_LETTERS[k] {
      LetterAt(k);
    }
  }

  lemma LetterAt(k: nat)
    requires k < 26
    ensures UPPER_LETTERS[k] == ('A' as int + k) as char && LOWER_LETTERS[k] == ('a' as int + k) as char
  {
  }

  /** A trailer is stored under its name in lower case, without the blanks around name and value. */
  lemma TrailerMeans(d: Decoder, name: string, value: string, rest: string)
    requires ':' !in name
    ensures AfterTrailer(d, name + ":" + value, rest)
      == d.(buffer := rest, trailers := d.trailers[Lower(Trim(name)) := Trim(value)])
  {
    var line := name + ":" + value;
    assert line == name + (":" + value);
    BeforeBehind(name, ":" + value, ':');
    assert Before(":" + value, ':') == "" && name + "" == name;
    assert line[|name|] == ':' && line[|name| + 1..] == value;
  }

  /** The next line of the trailer section of an accepted upload. */
  lemma AcceptedTrailerLine(d: Decoder) returns (line: string, rest: string)
    requires d.phase.Trailers? && Accepted(Process(d))
    ensures d.buffer == line + CRLF + rest && IndexOfCrlf(line) < 0 && (line == "" || ':' in line)
    ensures Process(d) == Process(AfterTrailer(d, line, rest))
  {
    AcceptedSteps(d);
    var i := IndexOfCrlf(d.buffer);
    FirstCrlf(d.buffer);
    line, rest := d.buffer[..i], d.buffer[i + 2..];
  }

  lemma TrailerInFront(line: string, lines: seq<string>, extra: string)
    ensures TrailersText([line] + lines) + extra == line + CRLF + (TrailersText(lines) + extra)
  {
    TrailersFront([line] + lines, extra);
    assert ([line] + lines)[1..] == lines;
  }

  lemma {:induction false} TrailerLines(d: Decoder) returns (lines: seq<string>, extra: string)
    requires d.phase.Trailers? && Accepted(Process(d))
    ensures d.buffer == TrailersText(lines) + extra && forall k :: 0 <= k < |lines| ==> TrailerOk(lines[k])
    decreases |d.buffer|
  {
    var line, rest := AcceptedTrailerLine(d);
    if line == "" {
      lines, extra := [], rest;
      assert "" + CRLF == CRLF;
    } else {
      var next := AfterTrailer(d, line, rest);
      assert next.buffer == rest && next.phase.Trailers?;
      lines, extra := TrailerLines(next);
      TrailerInFront(line, lines, extra);
      lines := [line] + lines;
    }
  }

  /** The trailer section of an accepted upload: lines with a colon, and a blank one. */
  lemma AcceptedTrailers(d: Decoder) returns (lines: seq<string>, extra: string)
    requires d.phase.Trailers? && Accepted(Process(d))
    ensures d.buffer == TrailersText(lines) + extra && forall k :: 0 <= k < |lines| ==> TrailerOk(lines[k])
    ensures Process(d) == d.(phase := Done, buffer := extra, trailers := TrailerMap(d.trailers, lines))
  {
    lines, extra := TrailerLines(d);
    ProcessTrailers(d, lines, extra);
  }
}
