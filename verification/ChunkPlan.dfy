/** Which parts of which chunks make up a window of a file. */
module ChunkPlan {
  import opened CounterBlocks

  /**
   A chunk row as the downloader sees it.  `blob` is what the temp file or Telegram holds under
   the chunk's key: plain bytes on disk, bytes sealed with the chunk's own IV on Telegram.
   */
  datatype Chunk = Chunk(size: nat, isBuffered: bool, hasTempKey: bool, iv: seq<Octet>, blob: seq<bv8>)

  /** One entry of `chunksToFetch`. */
  datatype Fetch = Fetch(chunk: Chunk, fetchStart: int, fetchEnd: int)

  // ---------------------------------------------------------------- windows

  function MaxInt(a: int, b: int): int { if a > b then a else b }
  function MinInt(a: int, b: int): int { if a < b then a else b }

  /** The bytes of `plain`, which begins at offset `at`, whose offsets lie in [start, end]. */
  function Cut(plain: seq<bv8>, at: nat, start: nat, end: nat): seq<bv8> {
    if |plain| == 0 then []
    else if start <= at <= end then [plain[0]] + Cut(plain[1..], at + 1, start, end)
    else Cut(plain[1..], at + 1, start, end)
  }

  /** Cutting the whole file is cutting its pieces. */
  lemma {:induction false} CutConcat(a: seq<bv8>, b: seq<bv8>, at: nat, start: nat, end: nat)
    ensures Cut(a + b, at, start, end) == Cut(a, at, start, end) + Cut(b, at + |a|, start, end)
  {
    if |a| == 0 {
      assert a + b == b;
    } else {
      assert (a + b)[1..] == a[1..] + b;
      CutConcat(a[1..], b, at + 1, start, end);
    }
  }

  /** `k` brought into the range from 0 to `n`. */
  function Clamp(k: int, n: nat): (r: nat)
    ensures r <= n
  {
    if k < 0 then 0 else if k > n then n else k
  }

  lemma {:induction false} CutIsSlice(plain: seq<bv8>, at: nat, start: nat, end: nat)
    requires start <= end
    ensures Clamp(start - at, |plain|) <= Clamp(end + 1 - at, |plain|)
    ensures Cut(plain, at, start, end) == plain[Clamp(start - at, |plain|)..Clamp(end + 1 - at, |plain|)]
  {
    if |plain| > 0 {
      CutIsSlice(plain[1..], at + 1, start, end);
      var lo, hi := Clamp(start - at - 1, |plain| - 1), Clamp(end - at, |plain| - 1);
      SliceStep(plain, lo, hi);
    }
  }

  lemma SliceStep(s: seq<bv8>, lo: nat, hi: nat)
    requires |s| > 0 && lo <= hi < |s|
    ensures s[1..][lo..hi] == s[lo + 1..hi + 1] && s[0..hi + 1] == [s[0]] + s[1..][0..hi] && s[0..0] == []
    ensures lo == hi ==> s[1..][lo..hi] == []
  {
  }

  lemma CutAll(plain: seq<bv8>, start: nat, end: nat)
    requires start <= end < |plain|
    ensures Cut(plain, 0, start, end) == plain[start..end + 1]
  {
    CutIsSlice(plain, 0, start, end);
  }

  // ---------------------------------------------------------------- planning

  /** Whether some byte of the window may lie in a chunk that begins at `at`. */
  predicate Wanted(chunk: Chunk, at: nat, start: nat, end: nat) {
    start <= at + chunk.size - 1 && end >= at
  }

  function PartOf(chunk: Chunk, at: nat, start: nat, end: nat): Fetch {
    Fetch(chunk, MaxInt(start, at) - at, MinInt(end, at + chunk.size - 1) - at)
  }

  /** Which part of which chunk to fetch. */
  function Plan(chunks: seq<Chunk>, at: nat, start: nat, end: nat): seq<Fetch> {
    if |chunks| == 0 then []
    else
      var rest := Plan(chunks[1..], at + chunks[0].size, start, end);
      if Wanted(chunks[0], at, start, end) then [PartOf(chunks[0], at, start, end)] + rest else rest
  }

  lemma PlanStep(chunks: seq<Chunk>, k: nat, at: nat, start: nat, end: nat, fetches: seq<Fetch>)
    requires k < |chunks|
    ensures var rest := Plan(chunks[k + 1..], at + chunks[k].size, start, end);
      fetches + Plan(chunks[k..], at, start, end)
      == (if Wanted(chunks[k], at, start, end) then fetches + [PartOf(chunks[k], at, start, end)] else fetches) + rest
  {
    assert chunks[k..][1..] == chunks[k + 1..];
  }

  /** The first loop of `streamChunked`. */
  method PlanFetches(chunks: seq<Chunk>, start: nat, end: nat) returns (fetches: seq<Fetch>)
    ensures fetches == Plan(chunks, 0, start, end)
  {
    fetches := [];
    var currentOffset: nat := 0;
    assert chunks[0..] == chunks;
    for k := 0 to |chunks|
      invariant fetches + Plan(chunks[k..], currentOffset, start, end) == Plan(chunks, 0, start, end)
    {
      PlanStep(chunks, k, currentOffset, start, end, fetches);
      var chunk := chunks[k];
      var wanted, part := PlanOne(chunk, currentOffset, start, end);
      if wanted {
        fetches := fetches + [part];
      }
      currentOffset := currentOffset + chunk.size;
    }
  }

  /** The body of that loop for one chunk. */
  method PlanOne(chunk: Chunk, chunkStart: nat, start: nat, end: nat) returns (wanted: bool, part: Fetch)
    ensures wanted <==> Wanted(chunk, chunkStart, start, end)
    ensures wanted ==> part == PartOf(chunk, chunkStart, start, end)
  {
    var chunkEnd := chunkStart + chunk.size - 1;
    wanted, part := start <= chunkEnd && end >= chunkStart, Fetch(chunk, 0, 0);
    if wanted {
      part := Fetch(chunk, MaxInt(start, chunkStart) - chunkStart, MinInt(end, chunkEnd) - chunkStart);
    }
  }

  /** Some chunk holds both ends of a window. */
  predicate InOneChunk(chunks: seq<Chunk>, at: nat, start: nat, end: nat) {
    |chunks| > 0 &&
    ((at <= end < at + chunks[0].size && at <= start < at + chunks[0].size)
     || InOneChunk(chunks[1..], at + chunks[0].size, start, end))
  }

  /**
   A window whose start lies behind its end plans nothing, or the one chunk that holds both ends,
   with a part that is just as inverted.
   */
  lemma {:induction false} InvertedPlan(chunks: seq<Chunk>, at: nat, start: nat, end: nat)
    requires end < start
    ensures var plan := Plan(chunks, at, start, end);
      && |plan| == (if InOneChunk(chunks, at, start, end) then 1 else 0)
      && (forall f :: f in plan ==> f.fetchEnd - f.fetchStart == end - start)
      && (end < at ==> plan == [])
  {
    if |chunks| > 0 {
      InvertedPlan(chunks[1..], at + chunks[0].size, start, end);
      if Wanted(chunks[0], at, start, end) {
        assert Plan(chunks[1..], at + chunks[0].size, start, end) == [];
      }
    }
  }

  // ---------------------------------------------------------------- what the parts add up to

  /** What the bytes of a chunk are once they have been read. */
  type Opener = Chunk -> seq<bv8>

  function Content(open: Opener, chunks: seq<Chunk>): seq<bv8> {
    if |chunks| == 0 then [] else open(chunks[0]) + Content(open, chunks[1..])
  }

  function PartBytes(open: Opener, f: Fetch): seq<bv8> {
    var s := open(f.chunk);
    if 0 <= f.fetchStart <= f.fetchEnd + 1 <= |s| then s[f.fetchStart..f.fetchEnd + 1] else []
  }

  function PlanBytes(open: Opener, fetches: seq<Fetch>): seq<bv8> {
    if |fetches| == 0 then [] else PartBytes(open, fetches[0]) + PlanBytes(open, fetches[1..])
  }

  predicate Sized(open: Opener, chunks: seq<Chunk>) {
    forall k :: 0 <= k < |chunks| ==> |open(chunks[k])| == chunks[k].size
  }

  /** The part lies in its chunk; both ends are non-negative unless the chunk is empty. */
  predicate Within(f: Fetch) {
    0 <= f.fetchStart <= f.fetchEnd + 1 <= f.chunk.size && (f.fetchEnd < 0 ==> f.chunk.size == 0)
  }

  lemma PartIsSlice(open: Opener, f: Fetch)
    requires Within(f) && |open(f.chunk)| == f.chunk.size
    ensures PartBytes(open, f) == open(f.chunk)[f.fetchStart..f.fetchEnd + 1]
  {
  }

  /** The part planned for one chunk is the chunk's share of the window. */
  lemma PartIsCut(open: Opener, chunk: Chunk, at: nat, start: nat, end: nat)
    requires |open(chunk)| == chunk.size && start <= end
    ensures Wanted(chunk, at, start, end) ==>
      var f := PartOf(chunk, at, start, end);
      Within(f) && PartBytes(open, f) == Cut(open(chunk), at, start, end)
    ensures !Wanted(chunk, at, start, end) ==> Cut(open(chunk), at, start, end) == []
  {
    CutIsSlice(open(chunk), at, start, end);
  }

  lemma {:induction false} PlanWithin(chunks: seq<Chunk>, at: nat, start: nat, end: nat)
    requires start <= end
    ensures forall f :: f in Plan(chunks, at, start, end) ==> Within(f) && f.chunk in chunks
  {
    if |chunks| > 0 { PlanWithin(chunks[1..], at + chunks[0].size, start, end); }
  }

  /** Together, the planned parts are the window of the whole content. */
  lemma {:induction false} PlanIsCut(open: Opener, chunks: seq<Chunk>, at: nat, start: nat, end: nat)
    requires Sized(open, chunks) && start <= end
    ensures PlanBytes(open, Plan(chunks, at, start, end)) == Cut(Content(open, chunks), at, start, end)
  {
    if |chunks| > 0 {
      var c, rest := chunks[0], chunks[1..];
      PlanIsCut(open, rest, at + c.size, start, end);
      PartIsCut(open, c, at, start, end);
      PlanBytesStep(open, chunks, at, start, end);
      CutConcat(open(c), Content(open, rest), at, start, end);
    }
  }

  /** The first chunk of a plan. */
  lemma PlanBytesStep(open: Opener, chunks: seq<Chunk>, at: nat, start: nat, end: nat)
    requires |chunks| > 0
    ensures var f, more := PartOf(chunks[0], at, start, end), Plan(chunks[1..], at + chunks[0].size, start, end);
      PlanBytes(open, Plan(chunks, at, start, end))
      == (if Wanted(chunks[0], at, start, end) then PartBytes(open, f) else []) + PlanBytes(open, more)
  {
    var f, more := PartOf(chunks[0], at, start, end), Plan(chunks[1..], at + chunks[0].size, start, end);
    if Wanted(chunks[0], at, start, end) {
      assert ([f] + more)[1..] == more;
    } else {
      assert [] + PlanBytes(open, more) == PlanBytes(open, more);
    }
  }

  /** The next part of a plan goes behind what has been written. */
  lemma PlanBytesNext(open: Opener, fetches: seq<Fetch>, i: nat, written: seq<bv8>)
    requires i < |fetches|
    ensures written + PlanBytes(open, fetches[i..])
      == written + PartBytes(open, fetches[i]) + PlanBytes(open, fetches[i + 1..])
  {
    assert fetches[i..][1..] == fetches[i + 1..];
  }
}
