/** The canonical query string (backend-transfer-go/internal/s3auth/canonical.go) as a normal form. */
module CanonicalQuery {
  import opened Wrappers
  import opened Canonical

  datatype Pair = Pair(key: Text, value: Text)

  // ---------------------------------------------------------------- the pairs of a raw query

  /** A part is cut at its first `=`; without one it is a key with an empty value. */
  function DecodePart(part: Text): Pair {
    var key := Before(part, EQUALS);
    Pair(SafeDecode(key), SafeDecode(if |key| < |part| then part[|key| + 1..] else []))
  }

  function PairsOf(parts: seq<Text>, excluded: Text): seq<Pair> {
    if |parts| == 0 then []
    else
      var rest := PairsOf(parts[1..], excluded);
      if |parts[0]| == 0 || (|excluded| > 0 && DecodePart(parts[0]).key == excluded) then rest
      else [DecodePart(parts[0])] + rest
  }

  /** What a query means: its decoded pairs, without the excluded key. */
  function Meaning(query: Text, excluded: Text): seq<Pair> {
    PairsOf(Split(query, AMPERSAND), excluded)
  }

  // ---------------------------------------------------------------- sorting

  predicate LessEq(a: Text, b: Text) {
    |a| == 0 || (|b| > 0 && (a[0] < b[0] || (a[0] == b[0] && LessEq(a[1..], b[1..]))))
  }

  lemma {:induction false} LessEqAntisymmetric(a: Text, b: Text)
    requires LessEq(a, b) && LessEq(b, a)
    ensures a == b
  {
    if |a| > 0 {
      LessEqAntisymmetric(a[1..], b[1..]);
      assert a == [a[0]] + a[1..] && b == [b[0]] + b[1..];
    }
  }

  lemma {:induction false} LessEqTotal(a: Text, b: Text)
    ensures LessEq(a, b) || LessEq(b, a)
  {
    if |a| > 0 && |b| > 0 { LessEqTotal(a[1..], b[1..]); }
  }

  lemma {:induction false} LessEqTransitive(a: Text, b: Text, c: Text)
    requires LessEq(a, b) && LessEq(b, c)
    ensures LessEq(a, c)
  {
    if |a| > 0 && a[0] == b[0] == c[0] { LessEqTransitive(a[1..], b[1..], c[1..]); }
  }

  /** By key, then by value. */
  predicate PairLess(p: Pair, q: Pair) {
    if p.key != q.key then LessEq(p.key, q.key) else LessEq(p.value, q.value)
  }

  lemma PairLessTotal(p: Pair, q: Pair)
    ensures PairLess(p, q) || PairLess(q, p)
  {
    LessEqTotal(p.key, q.key);
    LessEqTotal(p.value, q.value);
  }

  lemma PairLessAntisymmetric(p: Pair, q: Pair)
    requires PairLess(p, q) && PairLess(q, p)
    ensures p == q
  {
    if p.key != q.key {
      LessEqAntisymmetric(p.key, q.key);
    } else {
      LessEqAntisymmetric(p.value, q.value);
    }
  }

  lemma PairLessTransitive(p: Pair, q: Pair, r: Pair)
    requires PairLess(p, q) && PairLess(q, r)
    ensures PairLess(p, r)
  {
    if p.key != q.key && q.key != r.key {
      LessEqTransitive(p.key, q.key, r.key);
      if p.key == r.key { LessEqAntisymmetric(p.key, q.key); }
    } else if p.key == q.key == r.key {
      LessEqTransitive(p.value, q.value, r.value);
    }
  }

  predicate Sorted(s: seq<Pair>) {
    forall i, j :: 0 <= i < j < |s| ==> PairLess(s[i], s[j])
  }

  function Insert(p: Pair, s: seq<Pair>): seq<Pair> {
    if |s| == 0 || PairLess(p, s[0]) then [p] + s else [s[0]] + Insert(p, s[1..])
  }

  function Sort(s: seq<Pair>): seq<Pair> {
    if |s| == 0 then [] else Insert(s[0], Sort(s[1..]))
  }

  lemma {:induction false} InsertKeeps(p: Pair, s: seq<Pair>)
    ensures multiset(Insert(p, s)) == multiset{p} + multiset(s)
    ensures Sorted(s) ==> Sorted(Insert(p, s))
  {
    if |s| == 0 || PairLess(p, s[0]) {
      if Sorted(s) { PrependSorted(p, s); }
    } else {
      var t := s[1..];
      InsertKeeps(p, t);
      assert s == [s[0]] + t;
      if Sorted(s) {
        PairLessTotal(p, s[0]);
        forall q | q in multiset{p} + multiset(t) ensures PairLess(s[0], q) {
        }
        ConsSorted(s[0], Insert(p, t));
      }
    }
  }

  lemma PrependSorted(p: Pair, s: seq<Pair>)
    requires Sorted(s) && (|s| > 0 ==> PairLess(p, s[0]))
    ensures Sorted([p] + s)
  {
    forall j | 0 <= j < |s| ensures PairLess(p, s[j]) {
      if j > 0 { PairLessTransitive(p, s[0], s[j]); }
    }
    ConsSorted(p, s);
  }

  lemma ConsSorted(p: Pair, s: seq<Pair>)
    requires Sorted(s) && forall q :: q in multiset(s) ==> PairLess(p, q)
    ensures Sorted([p] + s)
  {
    forall j | 0 <= j < |s| ensures PairLess(p, s[j]) {
      assert s[j] in multiset(s);
    }
  }

  lemma {:induction false} SortSorts(s: seq<Pair>)
    ensures multiset(Sort(s)) == multiset(s) && Sorted(Sort(s))
  {
    if |s| > 0 {
      SortSorts(s[1..]);
      InsertKeeps(s[0], Sort(s[1..]));
      assert s == [s[0]] + s[1..];
    }
  }

  /** Two sorted lists of the same pairs are the same list. */
  lemma {:induction false} SortedUnique(s: seq<Pair>, t: seq<Pair>)
    requires Sorted(s) && Sorted(t) && multiset(s) == multiset(t)
    ensures s == t
  {
    assert |multiset(s)| == |s| && |multiset(t)| == |t|;
    if |s| > 0 {
      HeadsEqual(s, t);
      assert s == [s[0]] + s[1..] && t == [t[0]] + t[1..];
      assert multiset(s[1..]) == multiset(s) - multiset{s[0]};
      assert multiset(t[1..]) == multiset(t) - multiset{t[0]};
      SortedUnique(s[1..], t[1..]);
    }
  }

  lemma HeadsEqual(s: seq<Pair>, t: seq<Pair>)
    requires Sorted(s) && Sorted(t) && multiset(s) == multiset(t) && |s| > 0 && |t| > 0
    ensures s[0] == t[0]
  {
    assert s[0] in multiset(t) && t[0] in multiset(s);
    var i :| 0 <= i < |t| && t[i] == s[0];
    var j :| 0 <= j < |s| && s[j] == t[0];
    if i > 0 && j > 0 { PairLessAntisymmetric(s[0], t[0]); }
  }

  // ---------------------------------------------------------------- applying a function to every pair

  function Map(g: Pair -> Pair, s: seq<Pair>): (r: seq<Pair>)
    ensures |r| == |s|
  {
    seq(|s|, i requires 0 <= i < |s| => g(s[i]))
  }

  lemma {:induction false} MapPermutes(g: Pair -> Pair, s: seq<Pair>, t: seq<Pair>)
    requires multiset(s) == multiset(t)
    ensures multiset(Map(g, s)) == multiset(Map(g, t))
    decreases |s|
  {
    assert |multiset(s)| == |s| && |multiset(t)| == |t|;
    if |s| == 0 {
      assert Map(g, s) == Map(g, t);
    } else {
      assert s[0] in multiset(t);
      var i :| 0 <= i < |t| && t[i] == s[0];
      TakenOut(s, 0);
      TakenOut(t, i);
      MapPermutes(g, Without(s, 0), Without(t, i));
      MapWithout(g, s, 0);
      MapWithout(g, t, i);
      TakenOut(Map(g, s), 0);
      TakenOut(Map(g, t), i);
    }
  }

  function Without(s: seq<Pair>, i: nat): seq<Pair>
    requires i < |s|
  {
    s[..i] + s[i + 1..]
  }

  lemma TakenOut(s: seq<Pair>, i: nat)
    requires i < |s|
    ensures multiset(s) == multiset(Without(s, i)) + multiset{s[i]}
    ensures multiset(Without(s, i)) == multiset(s) - multiset{s[i]}
  {
    assert s == s[..i] + [s[i]] + s[i + 1..];
  }

  lemma MapWithout(g: Pair -> Pair, s: seq<Pair>, i: nat)
    requires i < |s|
    ensures Map(g, Without(s, i)) == Without(Map(g, s), i)
  {
  }

  function EncodePair(p: Pair): Pair {
    Pair(Encode(p.key), Encode(p.value))
  }

  function DecodePair(p: Pair): Pair {
    Pair(SafeDecode(p.key), SafeDecode(p.value))
  }

  lemma DecodeEncodeAll(s: seq<Pair>)
    ensures Map(DecodePair, Map(EncodePair, s)) == s
  {
    forall i | 0 <= i < |s| ensures DecodePair(EncodePair(s[i])) == s[i] {
      DecodeEncode(s[i].key);
      DecodeEncode(s[i].value);
    }
  }

  // ---------------------------------------------------------------- the canonical query

  function PartText(p: Pair): Text {
    p.key + [EQUALS] + p.value
  }

  function PartTexts(s: seq<Pair>): (r: seq<Text>)
    ensures |r| == |s|
  {
    seq(|s|, i requires 0 <= i < |s| => PartText(s[i]))
  }

  function CanonicalQueryString(query: Text, excluded: Text): Text {
    Join(PartTexts(Sort(Map(EncodePair, Meaning(query, excluded)))), AMPERSAND)
  }

  /** Encoded pairs in order, as they stand in a canonical query. */
  function Canon(query: Text, excluded: Text): seq<Pair> {
    Sort(Map(EncodePair, Meaning(query, excluded)))
  }

  predicate Separable(p: Pair) {
    && AMPERSAND !in p.key && AMPERSAND !in p.value && EQUALS !in p.key
  }

  lemma CanonIsSeparable(query: Text, excluded: Text)
    ensures forall i :: 0 <= i < |Canon(query, excluded)| ==> Separable(Canon(query, excluded)[i])
  {
    var m := Meaning(query, excluded);
    var e := Map(EncodePair, m);
    SortSorts(e);
    forall i | 0 <= i < |Canon(query, excluded)| ensures Separable(Canon(query, excluded)[i]) {
      assert Canon(query, excluded)[i] in multiset(e);
      var j :| 0 <= j < |e| && e[j] == Canon(query, excluded)[i];
      EncodedPair(m[j]);
    }
  }

  lemma EncodedPair(p: Pair)
    ensures Separable(EncodePair(p))
  {
    EncodeSafe(p.key, AMPERSAND);
    EncodeSafe(p.key, EQUALS);
    EncodeSafe(p.value, AMPERSAND);
  }

  lemma PartReads(p: Pair)
    requires Separable(p)
    ensures DecodePart(PartText(p)) == DecodePair(p) && |PartText(p)| > 0 && AMPERSAND !in PartText(p)
  {
    BeforeAt(p.key, EQUALS, p.value);
    assert PartText(p)[|p.key| + 1..] == p.value;
  }

  lemma PairsOfCons(parts: seq<Text>, excluded: Text)
    requires |parts| > 0 && |parts[0]| > 0 && (|excluded| > 0 ==> DecodePart(parts[0]).key != excluded)
    ensures PairsOf(parts, excluded) == [DecodePart(parts[0])] + PairsOf(parts[1..], excluded)
  {
  }

  lemma ConsTexts(s: seq<Pair>)
    requires |s| > 0
    ensures PartTexts(s)[0] == PartText(s[0]) && PartTexts(s)[1..] == PartTexts(s[1..])
    ensures Map(DecodePair, s) == [DecodePair(s[0])] + Map(DecodePair, s[1..])
  {
  }

  predicate Kept(s: seq<Pair>, excluded: Text) {
    |excluded| > 0 ==> forall i :: 0 <= i < |s| ==> DecodePair(s[i]).key != excluded
  }

  /** Reading a joined list of encoded pairs gives them back, apart from the excluded ones. */
  lemma {:induction false} PairsOfTexts(s: seq<Pair>, excluded: Text)
    requires (forall i :: 0 <= i < |s| ==> Separable(s[i])) && Kept(s, excluded)
    ensures PairsOf(PartTexts(s), excluded) == Map(DecodePair, s)
  {
    if |s| > 0 {
      PairsOfTexts(s[1..], excluded);
      ConsTexts(s);
      PartReads(s[0]);
      PairsOfCons(PartTexts(s), excluded);
    } else {
      assert PartTexts(s) == [];
    }
  }

  lemma MeaningOfTexts(s: seq<Pair>, excluded: Text)
    requires forall i :: 0 <= i < |s| ==> Separable(s[i])
    requires Kept(s, excluded)
    ensures Meaning(Join(PartTexts(s), AMPERSAND), excluded) == Map(DecodePair, s)
  {
    if |s| == 0 {
      var parts := Split([], AMPERSAND);
      assert |parts| == 1 && parts[0] == [] && parts[1..] == [];
      assert PairsOf(parts, excluded) == PairsOf(parts[1..], excluded);
      assert PartTexts(s) == [] && Map(DecodePair, s) == [];
    } else {
      forall i | 0 <= i < |s| ensures AMPERSAND !in PartTexts(s)[i] {
        PartReads(s[i]);
      }
      SplitJoin(PartTexts(s), AMPERSAND);
      PairsOfTexts(s, excluded);
    }
  }

  lemma {:induction false} MeaningExcludes(parts: seq<Text>, excluded: Text)
    requires |excluded| > 0
    ensures forall i :: 0 <= i < |PairsOf(parts, excluded)| ==> PairsOf(parts, excluded)[i].key != excluded
  {
    if |parts| > 0 { MeaningExcludes(parts[1..], excluded); }
  }

  /** The canonical query means what the query means. */
  lemma CanonicalKeepsMeaning(query: Text, excluded: Text)
    ensures multiset(Meaning(CanonicalQueryString(query, excluded), excluded)) == multiset(Meaning(query, excluded))
    ensures Meaning(CanonicalQueryString(query, excluded), excluded) == Map(DecodePair, Canon(query, excluded))
  {
    var m, c := Meaning(query, excluded), Canon(query, excluded);
    SortSorts(Map(EncodePair, m));
    CanonIsSeparable(query, excluded);
    MapPermutes(DecodePair, c, Map(EncodePair, m));
    DecodeEncodeAll(m);
    if |excluded| > 0 {
      MeaningExcludes(Split(query, AMPERSAND), excluded);
      forall i | 0 <= i < |c| ensures DecodePair(c[i]).key != excluded {
        assert Map(DecodePair, c)[i] in multiset(m);
      }
    }
    MeaningOfTexts(c, excluded);
  }

  /**
   The canonical query is a normal form: two raw queries have the same one exactly when they hold
   the same decoded pairs, each as often, apart from the excluded key.
   */
  lemma QueryNormalForm(p: Text, q: Text, excluded: Text)
    ensures CanonicalQueryString(p, excluded) == CanonicalQueryString(q, excluded)
      <==> multiset(Meaning(p, excluded)) == multiset(Meaning(q, excluded))
  {
    CanonicalKeepsMeaning(p, excluded);
    CanonicalKeepsMeaning(q, excluded);
    if multiset(Meaning(p, excluded)) == multiset(Meaning(q, excluded)) {
      var e, f := Map(EncodePair, Meaning(p, excluded)), Map(EncodePair, Meaning(q, excluded));
      MapPermutes(EncodePair, Meaning(p, excluded), Meaning(q, excluded));
      SortSorts(e);
      SortSorts(f);
      SortedUnique(Sort(e), Sort(f));
    }
  }

  lemma QueryIdempotent(query: Text, excluded: Text)
    ensures CanonicalQueryString(CanonicalQueryString(query, excluded), excluded)
      == CanonicalQueryString(query, excluded)
  {
    CanonicalKeepsMeaning(query, excluded);
    QueryNormalForm(CanonicalQueryString(query, excluded), query, excluded);
  }

  /** `buildCanonicalQueryString`. */
  method BuildCanonicalQueryString(rawQuery: Text, excludedKey: Text) returns (canonical: Text)
    ensures canonical == CanonicalQueryString(rawQuery, excludedKey)
  {
    var rawPairs := Split(rawQuery, AMPERSAND);
    var pairs: seq<Pair> := [];
    for i := 0 to |rawPairs|
      invariant pairs + Map(EncodePair, PairsOf(rawPairs[i..], excludedKey))
        == Map(EncodePair, PairsOf(rawPairs, excludedKey))
    {
      var part := rawPairs[i];
      assert rawPairs[i..][0] == part && rawPairs[i..][1..] == rawPairs[i + 1..];
      if |part| > 0 {
        var p := ReadPart(part);
        if |excludedKey| == 0 || p.key != excludedKey {
          var encodedKey := AwsUriEncode(p.key);
          var encodedValue := AwsUriEncode(p.value);
          AppendPair(pairs, p, PairsOf(rawPairs[i + 1..], excludedKey));
          pairs := pairs + [Pair(encodedKey, encodedValue)];
        }
      }
    }
    assert pairs == Map(EncodePair, Meaning(rawQuery, excludedKey));
    canonical := Join(PartTexts(Sort(pairs)), AMPERSAND);
  }

  method ReadPart(part: Text) returns (p: Pair)
    ensures p == DecodePart(part)
  {
    var rawKey := Before(part, EQUALS);
    var rawValue := if |rawKey| < |part| then part[|rawKey| + 1..] else [];
    var key := PercentDecode(rawKey);
    var value := PercentDecode(rawValue);
    p := Pair(if key.Some? then key.value else rawKey, if value.Some? then value.value else rawValue);
  }

  lemma AppendPair(done: seq<Pair>, p: Pair, rest: seq<Pair>)
    ensures done + Map(EncodePair, [p] + rest) == done + [EncodePair(p)] + Map(EncodePair, rest)
  {
    assert Map(EncodePair, [p] + rest) == [EncodePair(p)] + Map(EncodePair, rest);
  }

  // ---------------------------------------------------------------- what the parts are

  /** The order of the signature: byte by byte, and a prefix comes first. */
  lemma {:induction false} LessEqIs(a: Text, b: Text)
    ensures LessEq(a, b) <==>
      a <= b || exists i :: 0 <= i < |a| && i < |b| && a[..i] == b[..i] && a[i] < b[i]
  {
    if |a| > 0 && |b| > 0 && a[0] == b[0] {
      LessEqIs(a[1..], b[1..]);
      if i :| 0 <= i < |a[1..]| && i < |b[1..]| && a[1..][..i] == b[1..][..i] && a[1..][i] < b[1..][i] {
        assert a[..i + 1] == [a[0]] + a[1..][..i] && b[..i + 1] == [b[0]] + b[1..][..i];
        assert a[i + 1] < b[i + 1];
      }
      if j :| 0 <= j < |a| && j < |b| && a[..j] == b[..j] && a[j] < b[j] {
        assert j > 0 && a[1..][..j - 1] == a[..j][1..] && b[1..][..j - 1] == b[..j][1..];
        assert a[1..][j - 1] < b[1..][j - 1];
      }
    } else if |a| > 0 && |b| > 0 {
      assert a[..0] == b[..0];
      SameHead(a, b);
    }
  }

  lemma SameHead(a: Text, b: Text)
    ensures forall i :: 0 < i <= |a| && i <= |b| && a[..i] == b[..i] ==> a[0] == b[0]
  {
    forall i | 0 < i <= |a| && i <= |b| && a[..i] == b[..i] ensures a[0] == b[0] {
      assert a[..i][0] == a[0] && b[..i][0] == b[0];
    }
  }

  /** What a part of a raw query stands for. */
  lemma PartMeans(key: Text, value: Text)
    requires '=' as int !in key
    ensures DecodePart(key + ['=' as int] + value) == Pair(SafeDecode(key), SafeDecode(value))
    ensures DecodePart(key) == Pair(SafeDecode(key), [])
  {
    BeforeAt(key, EQUALS, value);
    assert (key + [EQUALS] + value)[|key| + 1..] == value;
    BeforeNone(key, EQUALS);
    assert Decode([]) == Some([]);
  }

  lemma {:induction false} BeforeNone(key: Text, c: Byte)
    requires c !in key
    ensures Before(key, c) == key
  {
    if |key| > 0 { BeforeNone(key[1..], c); }
  }

  /** Every part counts on its own: an empty one and one with the excluded key are dropped. */
  lemma PartCounts(part: Text, excluded: Text)
    ensures PairsOf([part], excluded)
      == if part == [] || (excluded != [] && DecodePart(part).key == excluded) then [] else [DecodePart(part)]
  {
    assert [part][1..] == [] && PairsOf([], excluded) == [] && [DecodePart(part)] + [] == [DecodePart(part)];
  }

  lemma {:induction false} PartsInTurn(a: seq<Text>, b: seq<Text>, excluded: Text)
    ensures PairsOf(a + b, excluded) == PairsOf(a, excluded) + PairsOf(b, excluded)
  {
    if |a| == 0 {
      assert a + b == b && [] + PairsOf(b, excluded) == PairsOf(b, excluded);
    } else {
      assert (a + b)[1..] == a[1..] + b;
      PartsInTurn(a[1..], b, excluded);
      var p := [DecodePart(a[0])];
      assert p + (PairsOf(a[1..], excluded) + PairsOf(b, excluded))
        == p + PairsOf(a[1..], excluded) + PairsOf(b, excluded);
    }
  }

  /**
   The canonical query, part by part: one part `key=value` for every pair of the query, encoded, in the
   order of the encoded keys and then of the encoded values.
   */
  lemma QueryByParts(query: Text, excluded: Text) returns (pairs: seq<Pair>)
    ensures multiset(pairs) == multiset(Meaning(query, excluded))
    ensures forall i, j :: 0 <= i < j < |pairs| ==>
      if pairs[i].key == pairs[j].key then LessEq(Encode(pairs[i].value), Encode(pairs[j].value))
      else LessEq(Encode(pairs[i].key), Encode(pairs[j].key))
    ensures pairs == [] ==> CanonicalQueryString(query, excluded) == []
    ensures pairs != [] ==>
      var parts := Split(CanonicalQueryString(query, excluded), '&' as int);
      && |parts| == |pairs|
      && forall i :: 0 <= i < |parts| ==> parts[i] == Encode(pairs[i].key) + ['=' as int] + Encode(pairs[i].value)
  {
    var m, c := Meaning(query, excluded), Canon(query, excluded);
    SortSorts(Map(EncodePair, m));
    CanonIsSeparable(query, excluded);
    MapPermutes(DecodePair, c, Map(EncodePair, m));
    DecodeEncodeAll(m);
    pairs := Map(DecodePair, c);
    EncodesBack(c, Map(EncodePair, m), m);
    forall i, j | 0 <= i < j < |pairs|
      ensures if pairs[i].key == pairs[j].key then LessEq(Encode(pairs[i].value), Encode(pairs[j].value))
        else LessEq(Encode(pairs[i].key), Encode(pairs[j].key))
    {
      assert PairLess(c[i], c[j]);
      DecodeEncode(pairs[i].key);
      DecodeEncode(pairs[j].key);
    }
    forall i | 0 <= i < |c| ensures AMPERSAND !in PartTexts(c)[i] { PartReads(c[i]); }
    if pairs != [] { SplitJoin(PartTexts(c), AMPERSAND); }
  }

  /** Pairs that were encoded are the encoding of what they decode to. */
  lemma EncodesBack(c: seq<Pair>, e: seq<Pair>, m: seq<Pair>)
    requires multiset(c) == multiset(e) && e == Map(EncodePair, m)
    ensures forall i :: 0 <= i < |c| ==> EncodePair(DecodePair(c[i])) == c[i]
  {
    forall i | 0 <= i < |c| ensures EncodePair(DecodePair(c[i])) == c[i] {
      assert c[i] in multiset(e);
      var j :| 0 <= j < |e| && e[j] == c[i];
      PairReturns(m[j]);
    }
  }

  lemma PairReturns(p: Pair)
    ensures DecodePair(EncodePair(p)) == p
  {
    DecodeEncode(p.key);
    DecodeEncode(p.value);
  }
}
