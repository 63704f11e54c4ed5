/**
 How the two aws-chunked decoders read one header line.  The push decoder takes the text up to the
 CRLF, trims it and reads hex digits; the pull decoder takes the text up to the line feed, strips the
 line end and hands the trimmed rest to `ParseInt`.  They read the same size from the same line; a line
 feed inside the line is where they can part.
 */
module AwsHeaders {
  import opened Wrappers
  import opened AwsChunked
  import opened AwsReader

  // ---------------------------------------------------------------- lines and sizes

  lemma {:induction false} FirstLineAt(s: string, i: nat)
    requires i < |s| && s[i] == '\n' && '\n' !in s[..i]
    ensures FirstLine(s) == s[..i + 1]
  {
    if i > 0 {
      assert s[0] == s[..i][0];
      assert s[1..][..i - 1] == s[..i][1..];
      FirstLineAt(s[1..], i - 1);
      assert s[..i + 1] == [s[0]] + s[1..][..i];
    }
  }

  lemma {:induction false} BeforeLonger(t: string, c: char)
    requires c != ';'
    ensures Before(t + [c], ';') == if ';' in t then Before(t, ';') else t + [c]
    ensures ';' !in t ==> Before(t, ';') == t
  {
    if |t| > 0 && t[0] != ';' {
      BeforeLonger(t[1..], c);
      assert (t + [c])[1..] == t[1..] + [c];
    }
  }

  lemma SizeTextShorter(t: string, c: char)
    requires c == '\r' || c == '\n'
    ensures Trim(Before(t + [c], ';')) == Trim(Before(t, ';'))
  {
    BeforeLonger(t, c);
    assert (t + [c])[..|t|] == t;
  }

  /** `strings.TrimRight` drops only what `trim` drops as well, and never a semicolon. */
  lemma {:induction false} TrimsAgree(s: string)
    ensures Trim(Before(TrimLineEnd(s), ';')) == Trim(Before(s, ';'))
  {
    if |s| > 0 && (s[|s| - 1] == '\r' || s[|s| - 1] == '\n') {
      var t := s[..|s| - 1];
      assert s == t + [s[|s| - 1]];
      TrimsAgree(t);
      SizeTextShorter(t, s[|s| - 1]);
    }
  }

  /** Without the CRLF of its line, a size reads the same. */
  lemma LineEndIgnored(line: string)
    ensures Trim(Before(TrimLineEnd(line + CRLF), ';')) == Trim(Before(line, ';'))
  {
    var l := line + ['\r'];
    assert line + CRLF == l + ['\n'];
    TrimsAgree(l + ['\n']);
    SizeTextShorter(l, '\n');
    SizeTextShorter(line, '\r');
  }

  lemma {:induction false} HexDigits(s: string)
    requires HexValue(s).Some?
    ensures HexDigit(s[0]).Some?
  {
    if |s| > 1 { HexDigits(s[..|s| - 1]); }
  }

  /** A size the push decoder reads is read the same by the pull decoder. */
  lemma SizesAgree(line: string)
    requires HeaderSize(line).Some? && HeaderSize(line).value < INT64_LIMIT
    ensures GoHeaderSize(TrimLineEnd(line + CRLF)) == HeaderSize(line)
  {
    LineEndIgnored(line);
    HexDigits(Trim(Before(line, ';')));
  }

  lemma LineIs(s: string, i: nat)
    requires i + 2 <= |s| && s[i] == '\r' && s[i + 1] == '\n' && '\n' !in s[..i]
    ensures FirstLine(s) == s[..i] + CRLF
  {
    FrontIs(s, i);
    FirstLineAt(s, i + 1);
  }

  lemma FrontIs(s: string, i: nat)
    requires i + 2 <= |s| && s[i] == '\r' && s[i + 1] == '\n' && '\n' !in s[..i]
    ensures '\n' !in s[..i + 1] && s[..i + 2] == s[..i] + CRLF
  {
    assert s[..i + 1] == s[..i] + [s[i]];
  }

  lemma HeaderLine(s: string, i: nat)
    requires i + 2 <= |s| && s[i] == '\r' && s[i + 1] == '\n' && '\n' !in s[..i]
    requires HeaderSize(s[..i]).Some? && HeaderSize(s[..i]).value < INT64_LIMIT
    ensures NextChunk(s) == var n := HeaderSize(s[..i]).value;
      if n == 0 then NextEnd(SkipTrailers(s[i + 2..])) else NextData(n, s[i + 2..])
  {
    LineIs(s, i);
    SizesAgree(s[..i]);
  }

  // ---------------------------------------------------------------- the first CRLF

  lemma {:induction false} FirstCrlf(s: string)
    requires IndexOfCrlf(s) >= 0
    ensures IndexOfCrlf(s[..IndexOfCrlf(s)]) < 0
    ensures var i := IndexOfCrlf(s); s == s[..i] + CRLF + s[i + 2..]
  {
    var i := IndexOfCrlf(s);
    if i > 0 {
      FirstCrlf(s[1..]);
      assert s[..i][1..] == s[1..][..i - 1];
    }
  }

  // ---------------------------------------------------------------- what trimming keeps

  lemma {:induction false} HexText(s: string)
    requires HexValue(s).Some?
    ensures forall c :: c in s ==> HexDigit(c).Some?
  {
    if |s| > 1 { HexText(s[..|s| - 1]); }
    assert forall c :: c in s ==> c == s[|s| - 1] || c in s[..|s| - 1];
  }

  lemma {:induction false} TrimRightLoses(s: string)
    ensures forall c :: c in s ==> IsSpace(c) || c in TrimRight(s)
    ensures forall c :: c in TrimRight(s) ==> c in s
  {
    if |s| > 0 && IsSpace(s[|s| - 1]) {
      TrimRightLoses(s[..|s| - 1]);
      assert s == s[..|s| - 1] + [s[|s| - 1]];
    }
  }

  lemma {:induction false} TrimLeftLoses(s: string)
    ensures forall c :: c in s ==> IsSpace(c) || c in TrimLeft(s)
    ensures forall c :: c in TrimLeft(s) ==> c in s
    ensures TrimLeft(s) != "" ==> !IsSpace(TrimLeft(s)[0])
  {
    if |s| > 0 && IsSpace(s[0]) {
      TrimLeftLoses(s[1..]);
      assert s == [s[0]] + s[1..];
    }
  }

  /** Trimming the end of a text that goes on. */
  lemma {:induction false} TrimRightAdds(a: string, w: string)
    ensures TrimRight(a + w) == if TrimRight(w) == "" then TrimRight(a) else a + TrimRight(w)
    decreases |w|
  {
    if |w| == 0 {
      assert a + w == a;
    } else if IsSpace(w[|w| - 1]) {
      assert (a + w)[..|a + w| - 1] == a + w[..|w| - 1];
      TrimRightAdds(a, w[..|w| - 1]);
    }
  }

  lemma {:induction false} TrimLeftAdds(a: string, w: string)
    requires TrimLeft(a) != ""
    ensures TrimLeft(a + w) == TrimLeft(a) + w
  {
    if IsSpace(a[0]) {
      assert (a + w)[1..] == a[1..] + w;
      TrimLeftAdds(a[1..], w);
    }
  }

  lemma {:induction false} AllBlank(u: string)
    requires forall c :: c in u ==> IsSpace(c)
    ensures TrimRight(u) == ""
  {
    if |u| > 0 { AllBlank(u[..|u| - 1]); }
  }

  lemma BlankBothWays(u: string)
    requires TrimLeft(u) == ""
    ensures TrimRight(u) == ""
  {
    TrimLeftLoses(u);
    AllBlank(u);
  }

  // ---------------------------------------------------------------- a line feed inside a header

  /** The line feed that `Before` stops at. */
  lemma {:induction false} FirstLineFeed(line: string)
    requires '\n' in line
    ensures var u := Before(line, '\n');
      |u| < |line| && line[..|u|] == u && line[|u|] == '\n' && '\n' !in u
  {
    if line[0] != '\n' { FirstLineFeed(line[1..]); }
  }

  lemma {:induction false} BeforeWhole(u: string, c: char)
    requires c !in u
    ensures Before(u, c) == u
  {
    if |u| > 0 { BeforeWhole(u[1..], c); }
  }

  lemma {:induction false} BeforeInFront(u: string, w: string, c: char)
    requires c in u
    ensures Before(u + w, c) == Before(u, c)
  {
    if u[0] != c {
      assert (u + w)[1..] == u[1..] + w;
      BeforeInFront(u[1..], w, c);
    }
  }

  lemma {:induction false} BeforeBehind(u: string, w: string, c: char)
    requires c !in u
    ensures Before(u + w, c) == u + Before(w, c)
  {
    if |u| == 0 {
      assert u + w == w && u + Before(w, c) == Before(w, c);
    } else {
      assert (u + w)[0] == u[0] && (u + w)[1..] == u[1..] + w;
      BeforeBehind(u[1..], w, c);
      assert [u[0]] + (u[1..] + Before(w, c)) == u + Before(w, c);
    }
  }

  lemma HasLineFeed(a: string, w: string)
    ensures '\n' in a + ("\n" + w)
  {
    assert (a + ("\n" + w))[|a|] == '\n';
  }

  /** Around a line feed, the digits of a size are either in front of it or behind it. */
  lemma DigitsOnOneSide(u: string, w: string)
    requires HexValue(Trim(u + "\n" + w)).Some?
    ensures Trim(u) == "" || Trim(u) == Trim(u + "\n" + w)
  {
    var t := TrimRight(w);
    TrimRightAdds(u + "\n", w);
    TrimRightAdds(u, "\n");
    if TrimLeft(u) == "" {
      BlankBothWays(u);
    } else if t != "" {
      assert u + "\n" + t == u + ("\n" + t);
      TrimLeftAdds(u, "\n" + t);
      HasLineFeed(TrimLeft(u), t);
      HexText(Trim(u + "\n" + w));
    }
  }

  /** What is in front of a line feed reads as the whole line, or holds no digit at all. */
  lemma SizeInFront(line: string)
    requires '\n' in line && HeaderSize(line).Some?
    ensures var u := Before(line, '\n');
      HeaderSize(u) == HeaderSize(line) || (HeaderSize(u) == None && Trim(Before(u, ';')) == "")
  {
    FirstLineFeed(line);
    var u := Before(line, '\n');
    var w := line[|u| + 1..];
    assert line == u + ("\n" + w);
    if ';' in u {
      BeforeInFront(u, "\n" + w, ';');
    } else {
      BeforeWhole(u, ';');
      SizeTextBroken(u, w);
      DigitsOnOneSide(u, Before(w, ';'));
    }
  }

  lemma SizeTextBroken(u: string, w: string)
    requires ';' !in u
    ensures Before(u + ("\n" + w), ';') == u + "\n" + Before(w, ';')
  {
    BeforeBehind(u, "\n" + w, ';');
    BeforeBehind("\n", w, ';');
    assert u + ("\n" + Before(w, ';')) == u + "\n" + Before(w, ';');
  }

  /** The pull decoder ends the header at the line feed. */
  lemma GoSizeInFront(line: string)
    requires '\n' in line && HeaderSize(line).Some? && HeaderSize(line).value < INT64_LIMIT
    ensures var u := Before(line, '\n');
      GoHeaderSize(TrimLineEnd(u + "\n")) == HeaderSize(u)
  {
    var u := Before(line, '\n');
    SizeInFront(line);
    TrimsAgree(u + ['\n']);
    SizeTextShorter(u, '\n');
    if HeaderSize(u).Some? { HexDigits(Trim(Before(u, ';'))); }
  }

  /** A header with a line feed in it, as the pull decoder takes it. */
  lemma HeaderBroken(s: string, c: nat)
    requires c <= |s| && '\n' in s[..c]
    requires HeaderSize(s[..c]).Some? && HeaderSize(s[..c]).value < INT64_LIMIT
    ensures var u, n := Before(s[..c], '\n'), HeaderSize(s[..c]).value;
      && |u| < c
      && NextChunk(s) == if HeaderSize(u).None? then NextError(BadSizeLine)
                         else if n == 0 then NextEnd(SkipTrailers(s[|u| + 1..]))
                         else NextData(n, s[|u| + 1..])
  {
    var line := s[..c];
    var u := Before(line, '\n');
    FirstLineFeed(line);
    assert s[..|u|] == line[..|u|] == u && s[|u|] == line[|u|];
    FirstLineAt(s, |u|);
    assert s[..|u| + 1] == u + "\n";
    GoSizeInFront(line);
    SizeInFront(line);
  }

  /** A data header is read alike by both decoders if and only if it holds no line feed. */
  lemma DataHeaderIff(s: string, c: nat)
    requires c + 2 <= |s| && s[c] == '\r' && s[c + 1] == '\n'
    requires HeaderSize(s[..c]).Some? && 0 < HeaderSize(s[..c]).value < INT64_LIMIT
    ensures NextChunk(s) == NextData(HeaderSize(s[..c]).value, s[c + 2..]) <==> '\n' !in s[..c]
  {
    if '\n' in s[..c] {
      HeaderBroken(s, c);
      assert |s[|Before(s[..c], '\n')| + 1..]| > |s[c + 2..]|;
    } else {
      HeaderLine(s, c);
    }
  }

  /** The zero header ends the payload for both if and only if its digits are not behind a line feed. */
  lemma ZeroHeaderIff(s: string, c: nat)
    requires c + 2 <= |s| && s[c] == '\r' && s[c + 1] == '\n' && HeaderSize(s[..c]) == Some(0)
    ensures NextChunk(s).NextEnd? <==> HeaderSize(Before(s[..c], '\n')).Some?
    ensures !NextChunk(s).NextEnd? ==> NextChunk(s) == NextError(BadSizeLine)
  {
    if '\n' in s[..c] {
      HeaderBroken(s, c);
    } else {
      HeaderLine(s, c);
      BeforeWhole(s[..c], '\n');
    }
  }
}
