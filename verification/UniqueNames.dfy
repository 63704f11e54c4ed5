/** The numbered-name searches. */
module UniqueNames {
  // `uniquePath` of the archive writer (backend-transfer-go/internal/zip/zip_worker.go) and
  // `generateUniqueName` (backend/src/common/name-conflict.service.ts).

  // ---------------------------------------------------------------- decimal numbers

  function Digit(n: nat): char
    requires n < 10
  {
    ('0' as int + n) as char
  }

  /** `%d`, and a number inside a template string. */
  function Decimal(n: nat): (s: string)
    ensures |s| > 0
  {
    if n < 10 then [Digit(n)] else Decimal(n / 10) + [Digit(n % 10)]
  }

  function Value(s: string): int {
    if |s| == 0 then 0 else 10 * Value(s[..|s| - 1]) + (s[|s| - 1] as int - '0' as int)
  }

  lemma {:induction false} ValueOfDecimal(n: nat)
    ensures Value(Decimal(n)) == n
  {
    if n >= 10 {
      ValueOfDecimal(n / 10);
      assert Decimal(n)[..|Decimal(n)| - 1] == Decimal(n / 10);
    }
  }

  // ---------------------------------------------------------------- the search

  function Candidate(prefix: string, k: nat, suffix: string): string {
    prefix + Decimal(k) + suffix
  }

  lemma CandidatesDiffer(prefix: string, j: nat, k: nat, suffix: string)
    requires Candidate(prefix, j, suffix) == Candidate(prefix, k, suffix)
    ensures j == k
  {
    var c, d := Candidate(prefix, j, suffix), Candidate(prefix, k, suffix);
    assert c[|prefix|..|c| - |suffix|] == Decimal(j);
    assert d[|prefix|..|d| - |suffix|] == Decimal(k);
    ValueOfDecimal(j);
    ValueOfDecimal(k);
  }

  /** The candidates numbered 1 to n are all taken. */
  predicate AllTaken(prefix: string, suffix: string, seen: set<string>, n: nat) {
    forall k :: 1 <= k <= n ==> Candidate(prefix, k, suffix) in seen
  }

  /** Pigeonhole: no more candidates can be taken than there are names. */
  lemma {:induction false} TakenFit(prefix: string, suffix: string, seen: set<string>, n: nat)
    requires AllTaken(prefix, suffix, seen, n)
    ensures n <= |seen|
    decreases n
  {
    if n > 0 {
      var last := Candidate(prefix, n, suffix);
      forall k | 1 <= k <= n - 1 ensures Candidate(prefix, k, suffix) in seen - {last} {
        if Candidate(prefix, k, suffix) == last { CandidatesDiffer(prefix, k, n, suffix); }
      }
      TakenFit(prefix, suffix, seen - {last}, n - 1);
    }
  }

  /** The number the search ends with: the first free one from `k` on. */
  function FirstFree(prefix: string, suffix: string, seen: set<string>, k: nat): (r: nat)
    requires k >= 1 && AllTaken(prefix, suffix, seen, k - 1)
    ensures 1 <= r <= |seen| + 1
    ensures Candidate(prefix, r, suffix) !in seen && AllTaken(prefix, suffix, seen, r - 1)
    decreases |seen| + 1 - k
  {
    TakenFit(prefix, suffix, seen, k - 1);
    if Candidate(prefix, k, suffix) !in seen then k
    else
      TakenFit(prefix, suffix, seen, k);
      FirstFree(prefix, suffix, seen, k + 1)
  }

  /** Counting up from one reaches a free candidate within one more than the number of names. */
  method Search(prefix: string, suffix: string, seen: set<string>) returns (name: string)
    ensures name == Candidate(prefix, FirstFree(prefix, suffix, seen, 1), suffix)
    ensures name !in seen
  {
    var counter := 1;
    while true
      invariant counter >= 1 && AllTaken(prefix, suffix, seen, counter - 1)
      invariant FirstFree(prefix, suffix, seen, counter) == FirstFree(prefix, suffix, seen, 1)
      decreases |seen| + 1 - counter
    {
      TakenFit(prefix, suffix, seen, counter - 1);
      name := Candidate(prefix, counter, suffix);
      if name !in seen {
        return;
      }
      TakenFit(prefix, suffix, seen, counter);
      counter := counter + 1;
    }
  }

  // ---------------------------------------------------------------- generateUniqueName

  /** `lastIndexOf`. */
  function LastIndexOf(s: string, c: char): (i: int)
    ensures -1 <= i < |s| && (i >= 0 ==> s[i] == c) && forall j :: i < j < |s| ==> s[j] != c
  {
    if |s| == 0 then -1 else if s[|s| - 1] == c then |s| - 1 else LastIndexOf(s[..|s| - 1], c)
  }

  function Stem(name: string): string {
    var dot := LastIndexOf(name, '.');
    if dot > 0 then name[..dot] else name
  }

  function Extension(name: string): string {
    var dot := LastIndexOf(name, '.');
    if dot > 0 then name[dot..] else ""
  }

  function UniqueName(name: string, existing: set<string>): (r: string)
    ensures r !in existing
    ensures name !in existing ==> r == name
  {
    if name !in existing then name
    else
      var prefix, suffix := Stem(name) + " (", ")" + Extension(name);
      Candidate(prefix, FirstFree(prefix, suffix, existing, 1), suffix)
  }

  lemma {:induction false} DecimalDigits(n: nat)
    ensures forall c :: c in Decimal(n) ==> '0' <= c <= '9'
  {
    if n >= 10 { DecimalDigits(n / 10); }
  }

  lemma LastIndexIs(s: string, c: char, i: int)
    requires -1 <= i < |s| && (i >= 0 ==> s[i] == c) && forall j :: i < j < |s| ==> s[j] != c
    ensures LastIndexOf(s, c) == i
  {
  }

  lemma DotFound(front: string, ext: string)
    requires |front| > 0 && |ext| > 0 && ext[0] == '.' && '.' !in ext[1..]
    ensures Stem(front + ext) == front && Extension(front + ext) == ext
  {
    var s := front + ext;
    forall j | |front| < j < |s| ensures s[j] != '.' {
      assert s[j] == ext[1..][j - |front| - 1];
    }
    LastIndexIs(s, '.', |front|);
  }

  lemma DotNotAdded(name: string, tail: string)
    requires '.' !in tail
    ensures LastIndexOf(name + tail, '.') == LastIndexOf(name, '.')
  {
    LastIndexIs(name + tail, '.', LastIndexOf(name, '.'));
  }

  function Numbered(name: string, k: nat): string {
    Candidate(Stem(name) + " (", k, ")" + Extension(name))
  }

  /** A name made unique keeps its extension, and its stem up to the number. */
  lemma NumberKeepsExtension(name: string, k: nat)
    ensures Extension(Numbered(name, k)) == Extension(name) && Stem(name) <= Stem(Numbered(name, k))
  {
    var dot, tail := LastIndexOf(name, '.'), " (" + Decimal(k) + ")";
    var front := Stem(name) + tail;
    DecimalDigits(k);
    NumberedText(name, k);
    if dot > 0 {
      assert '.' !in name[dot..][1..];
      DotFound(front, Extension(name));
    } else {
      DotNotAdded(name, tail);
    }
  }

  lemma NumberedText(name: string, k: nat)
    ensures Numbered(name, k) == Stem(name) + (" (" + Decimal(k) + ")") + Extension(name)
    ensures Extension(name) == "" ==> Numbered(name, k) == Stem(name) + (" (" + Decimal(k) + ")")
  {
    Grouped(Stem(name), " (", Decimal(k), ")", Extension(name));
  }

  lemma Grouped(stem: string, open: string, digits: string, close: string, ext: string)
    ensures stem + open + digits + (close + ext) == stem + (open + digits + close) + ext
    ensures ext == "" ==> stem + open + digits + (close + ext) == stem + (open + digits + close)
  {
  }

  lemma UniqueNameKeepsExtension(name: string, existing: set<string>)
    ensures Extension(UniqueName(name, existing)) == Extension(name)
    ensures Stem(name) <= Stem(UniqueName(name, existing))
  {
    if name in existing {
      NumberKeepsExtension(name, FirstFree(Stem(name) + " (", ")" + Extension(name), existing, 1));
    }
  }

  /** A name falls into its stem and its extension, which begins at the last dot behind the first place. */
  lemma NameParts(name: string)
    ensures name == Stem(name) + Extension(name)
    ensures Extension(name) != "" ==> Stem(name) != "" && Extension(name)[0] == '.' && '.' !in Extension(name)[1..]
    ensures Extension(name) == "" ==> forall i :: 0 < i < |name| ==> name[i] != '.'
  {
    var dot := LastIndexOf(name, '.');
    if dot > 0 { assert '.' !in name[dot..][1..]; }
  }

  method GenerateUniqueName(name: string, existingNames: seq<string>) returns (unique: string, ghost number: nat)
    ensures unique == UniqueName(name, set n | n in existingNames)
    ensures unique !in existingNames
    ensures name !in existingNames ==> unique == name
    ensures name in existingNames ==>
      && number >= 1 && unique == Stem(name) + " (" + Decimal(number) + ")" + Extension(name)
      && forall k :: 1 <= k < number ==> Stem(name) + " (" + Decimal(k) + ")" + Extension(name) in existingNames
  {
    var nameSet := set n | n in existingNames;
    if name !in nameSet {
      return name, 0;
    }
    var prefix, suffix := Stem(name) + " (", ")" + Extension(name);
    number := FirstFree(prefix, suffix, nameSet, 1);
    unique := Search(prefix, suffix, nameSet);
    forall k: nat ensures Candidate(prefix, k, suffix) == Stem(name) + " (" + Decimal(k) + ")" + Extension(name) {
      CloseBehind(prefix + Decimal(k), Extension(name));
    }
    forall k | 1 <= k < number ensures Stem(name) + " (" + Decimal(k) + ")" + Extension(name) in existingNames {
      assert Candidate(prefix, k, suffix) in nameSet;
    }
  }

  lemma CloseBehind(front: string, ext: string)
    ensures front + (")" + ext) == front + ")" + ext
  {
  }

  // ---------------------------------------------------------------- paths of an archive

  /** What the path library makes of a path: directory and bare name, and the extension. */
  datatype PathParts = PathParts(stem: string, ext: string)

  function UniquePath(path: string, parts: PathParts, seen: set<string>): (r: string)
    ensures r !in seen
    ensures path !in seen ==> r == path
  {
    if path !in seen then path
    else Candidate(parts.stem + "_", FirstFree(parts.stem + "_", parts.ext, seen, 1), parts.ext)
  }

  class PathRegister {
    var seen: set<string>

    constructor ()
      ensures seen == {}
    {
      seen := {};
    }

    /** `uniquePath`. */
    method Claim(path: string, parts: PathParts) returns (r: string, ghost number: nat)
      modifies this
      ensures r == UniquePath(path, parts, old(seen)) && seen == old(seen) + {r}
      ensures path !in old(seen) ==> r == path
      ensures path in old(seen) ==>
        && number >= 1 && r == parts.stem + "_" + Decimal(number) + parts.ext && r !in old(seen)
        && forall k :: 1 <= k < number ==> parts.stem + "_" + Decimal(k) + parts.ext in old(seen)
    {
      number := 0;
      if path !in seen {
        r := path;
      } else {
        number := FirstFree(parts.stem + "_", parts.ext, seen, 1);
        assert AllTaken(parts.stem + "_", parts.ext, seen, number - 1);
        r := Search(parts.stem + "_", parts.ext, seen);
        forall k | 1 <= k < number ensures parts.stem + "_" + Decimal(k) + parts.ext in seen {
          assert Candidate(parts.stem + "_", k, parts.ext) in seen;
        }
      }
      seen := seen + {r};
    }

    /**
     The naming loop of `createZip`: all paths of a run differ, and every entry keeps its own path
     unless an earlier entry was given that path.
     */
    method NameEntries(paths: seq<string>, split: string -> PathParts) returns (names: seq<string>)
      requires seen == {}
      modifies this
      ensures |names| == |paths|
      ensures forall i, j :: 0 <= i < j < |names| ==> names[i] != names[j]
      ensures forall i :: 0 <= i < |names| ==> (names[i] == paths[i] <==> paths[i] !in names[..i])
    {
      names := [];
      for i := 0 to |paths|
        invariant |names| == i && seen == set n | n in names
        invariant forall j, k :: 0 <= j < k < i ==> names[j] != names[k]
        invariant forall j :: 0 <= j < i ==> (names[j] == paths[j] <==> paths[j] !in names[..j])
      {
        var name, _ := Claim(paths[i], split(paths[i]));
        assert (names + [name])[..i] == names;
        assert forall j :: 0 <= j < i ==> (names + [name])[..j] == names[..j];
        names := names + [name];
      }
    }
  }
}
