/** Percent coding and the canonical path. */
module Canonical {
  // The canonical forms of request paths and queries (backend-transfer-go/internal/s3auth/encode.go,
  // backend-transfer-go/internal/s3auth/canonical.go).

  import opened Wrappers

  type Byte = x: int | 0 <= x < 256
  type Text = seq<Byte>

  const PERCENT: Byte := '%' as int
  const SLASH: Byte := '/' as int
  const AMPERSAND: Byte := '&' as int
  const EQUALS: Byte := '=' as int

  // ---------------------------------------------------------------- percent coding

  predicate IsUnreserved(c: Byte) {
    || 'A' as int <= c <= 'Z' as int
    || 'a' as int <= c <= 'z' as int
    || '0' as int <= c <= '9' as int
    || c in {'-' as int, '_' as int, '.' as int, '~' as int}
  }

  function HexUpper(n: int): Byte
    requires 0 <= n < 16
  {
    if n < 10 then '0' as int + n else 'A' as int + n - 10
  }

  function Unhex(c: Byte): Option<int> {
    if '0' as int <= c <= '9' as int then Some(c - '0' as int)
    else if 'a' as int <= c <= 'f' as int then Some(c - 'a' as int + 10)
    else if 'A' as int <= c <= 'F' as int then Some(c - 'A' as int + 10)
    else None
  }

  function EncodeByte(c: Byte): Text {
    if IsUnreserved(c) then [c] else [PERCENT, HexUpper(c / 16), HexUpper(c % 16)]
  }

  function Encode(s: Text): Text {
    if |s| == 0 then [] else EncodeByte(s[0]) + Encode(s[1..])
  }

  /** `percentDecode`; None is the malformed-input error. */
  function Decode(s: Text): Option<Text>
    decreases |s|
  {
    if |s| == 0 then Some([])
    else if s[0] != PERCENT then
      var rest := Decode(s[1..]);
      if rest.None? then None else Some([s[0]] + rest.value)
    else if |s| < 3 then None
    else
      var hi, lo := Unhex(s[1]), Unhex(s[2]);
      if hi.None? || lo.None? then None
      else
        var rest := Decode(s[3..]);
        if rest.None? then None else Some([16 * hi.value + lo.value] + rest.value)
  }

  function Joined(done: Text, rest: Option<Text>): Option<Text> {
    if rest.None? then None else Some(done + rest.value)
  }

  /** The builder loop of `percentDecode`. */
  method PercentDecode(s: Text) returns (r: Option<Text>)
    ensures r == Decode(s)
  {
    var out: Text := [];
    var i := 0;
    assert s[0..] == s;
    JoinedNothing(Decode(s));
    while i < |s|
      invariant 0 <= i <= |s|
      invariant Decode(s) == Joined(out, Decode(s[i..]))
    {
      ghost var before, rest := out, s[i..];
      if s[i] != PERCENT {
        out := out + [s[i]];
        i := i + 1;
        assert rest[1..] == s[i..];
      } else {
        if i + 2 >= |s| {
          return None;
        }
        assert rest[1] == s[i + 1] && rest[2] == s[i + 2];
        var hi, lo := Unhex(s[i + 1]), Unhex(s[i + 2]);
        if hi.None? || lo.None? {
          return None;
        }
        out := out + [16 * hi.value + lo.value];
        i := i + 3;
        assert rest[3..] == s[i..];
      }
      JoinedStep(before, out[|before|], Decode(s[i..]));
    }
    assert s[i..] == [] && out + [] == out;
    r := Some(out);
  }

  lemma JoinedNothing(r: Option<Text>)
    ensures Joined([], r) == r
  {
    if r.Some? { assert [] + r.value == r.value; }
  }

  lemma JoinedStep(done: Text, c: Byte, rest: Option<Text>)
    ensures Joined(done, Prepend(c, rest)) == Joined(done + [c], rest)
  {
    if rest.Some? { assert done + ([c] + rest.value) == done + [c] + rest.value; }
  }

  function Prepend(c: Byte, rest: Option<Text>): Option<Text> {
    if rest.None? then None else Some([c] + rest.value)
  }

  /** The builder loop of `awsURIEncode`. */
  method AwsUriEncode(s: Text) returns (out: Text)
    ensures out == Encode(s)
  {
    out := [];
    for i := 0 to |s|
      invariant out + Encode(s[i..]) == Encode(s)
    {
      assert s[i..][1..] == s[i + 1..];
      assert out + (EncodeByte(s[i]) + Encode(s[i + 1..])) == out + EncodeByte(s[i]) + Encode(s[i + 1..]);
      out := out + EncodeByte(s[i]);
    }
  }

  /** Malformed input stands for itself. */
  function SafeDecode(s: Text): Text {
    var d := Decode(s);
    if d.Some? then d.value else s
  }

  lemma DecodePlain(c: Byte, rest: Text)
    requires c != PERCENT
    ensures Decode([c] + rest) == Prepend(c, Decode(rest))
  {
    assert ([c] + rest)[1..] == rest;
  }

  lemma DecodeCoded(c: Byte, rest: Text)
    ensures Decode([PERCENT, HexUpper(c / 16), HexUpper(c % 16)] + rest) == Prepend(c, Decode(rest))
  {
    var s := [PERCENT, HexUpper(c / 16), HexUpper(c % 16)] + rest;
    assert Unhex(HexUpper(c / 16)) == Some(c / 16) && Unhex(HexUpper(c % 16)) == Some(c % 16);
    assert s[3..] == rest && s[1] == HexUpper(c / 16) && s[2] == HexUpper(c % 16);
    assert 16 * (c / 16) + c % 16 == c;
  }

  /** Decoding inverts encoding, on every byte string. */
  lemma {:induction false} DecodeEncode(s: Text)
    ensures Decode(Encode(s)) == Some(s)
  {
    if |s| > 0 {
      DecodeEncode(s[1..]);
      if IsUnreserved(s[0]) { DecodePlain(s[0], Encode(s[1..])); } else { DecodeCoded(s[0], Encode(s[1..])); }
      assert [s[0]] + s[1..] == s;
    }
  }

  /** An encoded text holds no separator. */
  lemma {:induction false} EncodeSafe(s: Text, c: Byte)
    requires c in {SLASH, AMPERSAND, EQUALS}
    ensures c !in Encode(s)
  {
    if |s| > 0 { EncodeSafe(s[1..], c); }
  }

  // ---------------------------------------------------------------- splitting and joining

  /** The text before the first `c`, or all of it. */
  function Before(s: Text, c: Byte): (t: Text)
    ensures t <= s && c !in t && (c in s <==> |t| < |s|) && (|t| < |s| ==> s[|t|] == c)
  {
    if |s| == 0 || s[0] == c then [] else [s[0]] + Before(s[1..], c)
  }

  /** `strings.Split`. */
  function Split(s: Text, c: Byte): (parts: seq<Text>)
    ensures |parts| > 0
    decreases |s|
  {
    var head := Before(s, c);
    if |head| == |s| then [s] else [head] + Split(s[|head| + 1..], c)
  }

  /** `strings.Join`. */
  function Join(parts: seq<Text>, c: Byte): Text {
    if |parts| == 0 then []
    else if |parts| == 1 then parts[0]
    else parts[0] + [c] + Join(parts[1..], c)
  }

  lemma {:induction false} BeforeAt(head: Text, c: Byte, rest: Text)
    requires c !in head
    ensures Before(head + [c] + rest, c) == head
  {
    if |head| > 0 {
      assert (head + [c] + rest)[1..] == head[1..] + [c] + rest;
      BeforeAt(head[1..], c, rest);
    }
  }

  /** Splitting undoes joining, when no part holds the separator. */
  lemma {:induction false} SplitJoin(parts: seq<Text>, c: Byte)
    requires |parts| > 0 && forall i :: 0 <= i < |parts| ==> c !in parts[i]
    ensures Split(Join(parts, c), c) == parts
  {
    if |parts| > 1 {
      var rest := Join(parts[1..], c);
      BeforeAt(parts[0], c, rest);
      assert (parts[0] + [c] + rest)[|parts[0]| + 1..] == rest;
      SplitJoin(parts[1..], c);
    }
  }

  // ---------------------------------------------------------------- the canonical path

  /** What a path names: its decoded segments; the empty path is the root. */
  function Segments(path: Text): seq<Text> {
    DecodeAll(Split(if |path| == 0 then [SLASH] else path, SLASH))
  }

  function DecodeAll(parts: seq<Text>): (r: seq<Text>)
    ensures |r| == |parts|
  {
    seq(|parts|, i requires 0 <= i < |parts| => SafeDecode(parts[i]))
  }

  function EncodeAll(parts: seq<Text>): (r: seq<Text>)
    ensures |r| == |parts|
  {
    seq(|parts|, i requires 0 <= i < |parts| => Encode(parts[i]))
  }

  function CanonicalUri(path: Text): Text {
    if |path| == 0 then [SLASH] else Join(EncodeAll(DecodeAll(Split(path, SLASH))), SLASH)
  }

  lemma SplitRoot()
    ensures Split([SLASH], SLASH) == [[], []] && Join(EncodeAll(DecodeAll([[], []])), SLASH) == [SLASH]
  {
    assert [SLASH][1..] == [];
    assert Split([SLASH], SLASH) == [[]] + Split([], SLASH);
    assert EncodeAll(DecodeAll([[], []])) == [[], []];
    assert Join([[], []], SLASH) == [SLASH];
  }

  lemma UriOfSegments(path: Text)
    ensures CanonicalUri(path) == Join(EncodeAll(Segments(path)), SLASH)
  {
    if |path| == 0 { SplitRoot(); }
  }

  /** The segments can be read back from the canonical path. */
  lemma SegmentsOfUri(path: Text)
    ensures Segments(CanonicalUri(path)) == Segments(path) && |CanonicalUri(path)| > 0
  {
    UriOfSegments(path);
    var parts := EncodeAll(Segments(path));
    forall i | 0 <= i < |parts| ensures SLASH !in parts[i] && SafeDecode(parts[i]) == Segments(path)[i] {
      EncodeSafe(Segments(path)[i], SLASH);
      DecodeEncode(Segments(path)[i]);
    }
    SplitJoin(parts, SLASH);
    assert DecodeAll(parts) == Segments(path);
    if |CanonicalUri(path)| == 0 { EmptyUri(path); }
  }

  lemma EmptyUri(path: Text)
    requires |path| > 0
    ensures |CanonicalUri(path)| > 0
  {
    var head := Before(path, SLASH);
    var parts := EncodeAll(DecodeAll(Split(path, SLASH)));
    if |head| == |path| {
      assert parts[0] == Encode(SafeDecode(path));
    } else {
      assert |parts| > 1;
    }
  }

  /** The canonical path is a normal form: it is the same exactly for paths with the same segments. */
  lemma UriNormalForm(p: Text, q: Text)
    ensures CanonicalUri(p) == CanonicalUri(q) <==> Segments(p) == Segments(q)
  {
    UriOfSegments(p);
    UriOfSegments(q);
    SegmentsOfUri(p);
    SegmentsOfUri(q);
  }

  lemma UriIdempotent(p: Text)
    ensures CanonicalUri(CanonicalUri(p)) == CanonicalUri(p)
  {
    SegmentsOfUri(p);
    UriNormalForm(CanonicalUri(p), p);
  }

  /** `buildCanonicalURI`: the segments are overwritten one by one. */
  method BuildCanonicalUri(rawPath: Text) returns (uri: Text)
    ensures uri == CanonicalUri(rawPath)
  {
    if |rawPath| == 0 {
      return [SLASH];
    }
    var parts := Split(rawPath, SLASH);
    var segments := parts;
    for i := 0 to |segments|
      invariant |segments| == |parts|
      invariant forall j :: 0 <= j < i ==> segments[j] == Encode(SafeDecode(parts[j]))
      invariant forall j :: i <= j < |parts| ==> segments[j] == parts[j]
    {
      var decoded := PercentDecode(segments[i]);
      var encoded := AwsUriEncode(if decoded.Some? then decoded.value else segments[i]);
      segments := segments[i := encoded];
    }
    assert segments == EncodeAll(DecodeAll(parts));
    uri := Join(segments, SLASH);
  }

  // ---------------------------------------------------------------- the coding, byte by byte

  const UPPERS := "ABCDEFGHIJKLMNOPQRSTUVWXYZ"
  const LOWERS := "abcdefghijklmnopqrstuvwxyz"
  const DIGITS := "0123456789"
  const MARKS := "-_.~"
  const HEX_UPPER := "0123456789ABCDEF"
  const HEX_LOWER := "0123456789abcdef"

  predicate StandsForItself(c: char) {
    c in UPPERS || c in LOWERS || c in DIGITS || c in MARKS
  }

  /** Unreserved characters stand for themselves; any other byte is a percent sign and two upper-case digits. */
  lemma EncodesByte(c: Byte)
    ensures Encode([c]) == if StandsForItself(c as char) then [c]
                           else ['%' as int, HEX_UPPER[c / 16] as int, HEX_UPPER[c % 16] as int]
  {
    UnreservedIs(c);
    HexDigitIs(c / 16);
    HexDigitIs(c % 16);
    OneByte(c);
  }

  lemma OneByte(c: Byte)
    ensures Encode([c]) == EncodeByte(c)
  {
    assert [c][1..] == [] && Encode([]) == [] && EncodeByte(c) + [] == EncodeByte(c);
  }

  lemma HexDigitIs(n: int)
    requires 0 <= n < 16
    ensures HexUpper(n) == HEX_UPPER[n] as int
  {
  }

  lemma UpperIs(c: Byte)
    ensures c as char in UPPERS <==> 'A' as int <= c <= 'Z' as int
  {
    if 'A' as int <= c <= 'Z' as int { assert UPPERS[c - 'A' as int] == c as char; }
  }

  lemma LowerIs(c: Byte)
    ensures c as char in LOWERS <==> 'a' as int <= c <= 'z' as int
  {
    if 'a' as int <= c <= 'z' as int { assert LOWERS[c - 'a' as int] == c as char; }
  }

  lemma DigitIs(c: Byte)
    ensures c as char in DIGITS <==> '0' as int <= c <= '9' as int
  {
    if '0' as int <= c <= '9' as int { assert DIGITS[c - '0' as int] == c as char; }
  }

  lemma MarkIs(c: Byte)
    ensures c as char in MARKS <==> c in {'-' as int, '_' as int, '.' as int, '~' as int}
  {
    assert MARKS[0] == '-' && MARKS[1] == '_' && MARKS[2] == '.' && MARKS[3] == '~';
  }

  lemma UnreservedIs(c: Byte)
    ensures IsUnreserved(c) <==> StandsForItself(c as char)
  {
    UpperIs(c);
    LowerIs(c);
    DigitIs(c);
    MarkIs(c);
  }

  /** A text is encoded byte by byte. */
  lemma {:induction false} EncodesInTurn(a: Text, b: Text)
    ensures Encode(a + b) == Encode(a) + Encode(b)
  {
    if |a| == 0 {
      assert a + b == b && [] + Encode(b) == Encode(b);
    } else {
      assert (a + b)[1..] == a[1..] + b;
      EncodesInTurn(a[1..], b);
      assert EncodeByte(a[0]) + (Encode(a[1..]) + Encode(b)) == EncodeByte(a[0]) + Encode(a[1..]) + Encode(b);
    }
  }

  predicate IsHex(c: Byte) {
    c as char in HEX_UPPER || c as char in HEX_LOWER
  }

  lemma HexReads(n: nat, c: Byte)
    requires n < 16 && (c as char == HEX_UPPER[n] || c as char == HEX_LOWER[n])
    ensures Unhex(c) == Some(n)
  {
  }

  lemma HexIs(c: Byte)
    ensures Unhex(c).Some? <==> IsHex(c)
  {
    if Unhex(c).Some? {
      var n := Unhex(c).value;
      assert c as char == HEX_UPPER[n] || c as char == HEX_LOWER[n];
    }
  }

  /**
   Decoding reads a percent sign and two hex digits of either case as one byte, and any other byte as
   itself; it fails on a percent sign that is not followed by two hex digits.
   */
  lemma DecodesInTurn(c: Byte, rest: Text, hi: nat, lo: nat, x: Byte, y: Byte)
    requires hi < 16 && (x as char == HEX_UPPER[hi] || x as char == HEX_LOWER[hi])
    requires lo < 16 && (y as char == HEX_UPPER[lo] || y as char == HEX_LOWER[lo])
    ensures Decode([]) == Some([])
    ensures Decode(['%' as int, x, y] + rest) == Prepend(16 * hi + lo, Decode(rest))
    ensures c as char != '%' ==> Decode([c] + rest) == Prepend(c, Decode(rest))
  {
    HexReads(hi, x);
    HexReads(lo, y);
    assert (['%' as int, x, y] + rest)[3..] == rest;
    if c as char != '%' { DecodePlain(c, rest); }
  }

  lemma MalformedFails(rest: Text)
    requires |rest| < 2 || !IsHex(rest[0]) || !IsHex(rest[1])
    ensures Decode(['%' as int] + rest) == None
  {
    var s := ['%' as int] + rest;
    if |rest| >= 2 {
      assert s[1] == rest[0] && s[2] == rest[1];
      HexIs(rest[0]);
      HexIs(rest[1]);
    }
  }

  // ---------------------------------------------------------------- the path, segment by segment

  /** Joining undoes splitting, and no part holds the separator. */
  lemma {:induction false} JoinSplit(s: Text, c: Byte)
    ensures Join(Split(s, c), c) == s && forall i :: 0 <= i < |Split(s, c)| ==> c !in Split(s, c)[i]
    decreases |s|
  {
    var head := Before(s, c);
    if |head| < |s| {
      var rest := s[|head| + 1..];
      JoinSplit(rest, c);
      assert Split(s, c) == [head] + Split(rest, c);
      assert s == head + [c] + rest;
    }
  }

  /**
   The canonical path has the segments of the path, each decoded once and encoded again; a segment that
   does not decode is encoded as it is, and the empty path is a slash.
   */
  lemma UriBySegments(path: Text)
    ensures CanonicalUri([]) == ['/' as int]
    ensures |path| > 0 ==>
      var parts, canonical := Split(path, '/' as int), Split(CanonicalUri(path), '/' as int);
      && |canonical| == |parts|
      && forall i :: 0 <= i < |parts| ==>
           canonical[i] == Encode(if Decode(parts[i]).Some? then Decode(parts[i]).value else parts[i])
  {
    if |path| > 0 {
      var encoded := EncodeAll(DecodeAll(Split(path, SLASH)));
      forall i | 0 <= i < |encoded| ensures SLASH !in encoded[i] {
        EncodeSafe(DecodeAll(Split(path, SLASH))[i], SLASH);
      }
      SplitJoin(encoded, SLASH);
    }
  }
}
