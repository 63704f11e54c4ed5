/** Serving a byte range of a chunked file. */
module Ranges {
  // The file is stored in separately encrypted chunks, some of them still on disk
  // (backend-transfer-go/internal/telegram/downloader.go).

  import opened CounterBlocks
  import opened Ctr
  import opened ChunkPlan

  // ---------------------------------------------------------------- from the header to a window

  /** The Range header after splitting; numbers are what ParseInt made of the two halves. */
  datatype RangeHeader =
    | NoRange                  // absent, malformed, or multi-threading switched off
    | Suffix(length: int)      // bytes=-n
    | From(start: int)         // bytes=s-  or an unparsable end
    | FromTo(start: int, end: int)

  /** A suffix that is not positive is ignored. */
  predicate AsksRange(header: RangeHeader) {
    match header
    case NoRange => false
    case Suffix(length) => length > 0
    case From(_) => true
    case FromTo(_, _) => true
  }

  datatype Window =
    | EmptyFile                          // 200, no body
    | NotSatisfiable                     // 416
    | Serve(start: int, end: int, contentLength: int, partial: bool)

  /** The window computation of `ServeDownload`. */
  method ResolveRange(fileSize: nat, header: RangeHeader) returns (w: Window)
    requires header.From? || header.FromTo? ==> header.start >= 0
    ensures w.EmptyFile? <==> fileSize == 0 && (header.NoRange? || (header.Suffix? && header.length <= 0))
    ensures w.NotSatisfiable? <==>
      || ((header.From? || header.FromTo?) && header.start >= fileSize)
      || (header.Suffix? && header.length > 0 && fileSize == 0)
    ensures w.Serve? ==>
      && 0 <= w.start < fileSize && w.end < fileSize && w.contentLength == w.end - w.start + 1
      && (w.partial <==> !header.NoRange? && !(header.Suffix? && header.length <= 0))
    ensures w.Serve? && !w.partial ==> w.start == 0 && w.end == fileSize - 1
    ensures w.Serve? && w.partial && header.Suffix? ==>
      w.end == fileSize - 1 && w.contentLength == if header.length < fileSize then header.length else fileSize
    ensures w.Serve? && header.From? ==> w.start == header.start && w.end == fileSize - 1
    ensures w.Serve? && header.FromTo? ==>
      w.start == header.start && w.end == if header.end < fileSize then header.end else fileSize - 1
    ensures w.Serve? ==> (w.contentLength >= 1 <==> !(header.FromTo? && header.end < header.start))
  {
    var start: int, end: int, isRange := 0, fileSize - 1, false;
    match header {
      case NoRange =>
      case Suffix(suffix) =>
        if suffix > 0 {
          start := fileSize - suffix;
          if start < 0 {
            start := 0;
          }
          isRange := true;
        }
      case From(s) =>
        start, isRange := s, true;
      case FromTo(s, e) =>
        start, end, isRange := s, e, true;
    }
    if fileSize == 0 && !isRange {
      return EmptyFile;
    }
    if start >= fileSize {
      return NotSatisfiable;
    }
    if end >= fileSize {
      end := fileSize - 1;
    }
    w := Serve(start, end, end - start + 1, isRange);
  }

  // ---------------------------------------------------------------- the stored chunks

  datatype File = File(encrypted: bool, hasKey: bool, chunks: seq<Chunk>)

  /** Whether the bytes fetched for the chunk are run through the cipher. */
  predicate Unseals(file: File, c: Chunk) {
    file.encrypted && file.hasKey && c.iv != []
  }

  predicate OnDisk(c: Chunk) {
    c.isBuffered && c.hasTempKey
  }

  /** `c` stores `plain`: on disk as it is, on Telegram sealed from byte 0 if the file is encrypted. */
  ghost predicate Stores(cipher: Cipher, file: File, c: Chunk, plain: seq<bv8>) {
    && |plain| == c.size
    && c.blob == (if !(c.isBuffered && c.hasTempKey) && file.encrypted && file.hasKey && c.iv != []
                  then Crypt(cipher, c.iv, 0, plain) else plain)
    && (c.iv != [] ==> |c.iv| == 16)
  }

  ghost predicate StoresAll(cipher: Cipher, file: File, plains: seq<seq<bv8>>) {
    |plains| == |file.chunks| && forall k :: 0 <= k < |plains| ==> Stores(cipher, file, file.chunks[k], plains[k])
  }

  /** The bytes of the chunk as the downloader reads them, whatever was stored. */
  function Opened(cipher: Cipher, file: File, c: Chunk): (r: seq<bv8>)
    ensures |r| == |c.blob|
  {
    if OnDisk(c) || !Unseals(file, c) then c.blob else Crypt(cipher, c.iv, 0, c.blob)
  }

  function OpenerOf(cipher: Cipher, file: File): Opener {
    (c: Chunk) => Opened(cipher, file, c)
  }

  /** The row's size is the size of what is stored, and an IV has 16 bytes. */
  predicate Intact(c: Chunk) {
    |c.blob| == c.size && (c.iv != [] ==> |c.iv| == 16)
  }

  predicate AllIntact(chunks: seq<Chunk>) {
    forall k :: 0 <= k < |chunks| ==> Intact(chunks[k])
  }

  /** Opening what was stored for a plain chunk gives it back. */
  lemma OpenedIsPlain(cipher: Cipher, file: File, c: Chunk, plain: seq<bv8>)
    requires Stores(cipher, file, c, plain)
    ensures Opened(cipher, file, c) == plain && Intact(c)
  {
    SuffixDecrypts(cipher, c.iv, plain, 0, |plain|);
    var sealed := Crypt(cipher, c.iv, 0, plain);
    assert sealed[0..|plain|] == sealed && plain[0..|plain|] == plain;
  }

  lemma {:induction false} ContentIsPlain(cipher: Cipher, file: File, chunks: seq<Chunk>, plains: seq<seq<bv8>>)
    requires |plains| == |chunks|
    requires forall k :: 0 <= k < |plains| ==> Stores(cipher, file, chunks[k], plains[k])
    ensures Content(OpenerOf(cipher, file), chunks) == Flatten(plains) && AllIntact(chunks)
  {
    if |chunks| > 0 {
      OpenedIsPlain(cipher, file, chunks[0], plains[0]);
      ContentIsPlain(cipher, file, chunks[1..], plains[1..]);
      assert forall k :: 0 < k < |chunks| ==> chunks[k] == chunks[1..][k - 1];
    }
  }

  /** `fetchWithRange`: the header is only sent when both ends are non-negative. */
  function Fetched(blob: seq<bv8>, start: int, end: int): (r: seq<bv8>)
    requires start <= end + 1 <= |blob| && start >= 0
  {
    if start >= 0 && end >= 0 then blob[start..end + 1] else blob
  }

  predicate PartFits(f: Fetch) {
    Intact(f.chunk) && Within(f)
  }

  /** What fetching one entry writes to the response. */
  method FetchOne(cipher: Cipher, file: File, f: Fetch) returns (written: seq<bv8>)
    requires PartFits(f)
    ensures written == PartBytes(OpenerOf(cipher, file), f)
  {
    var c := f.chunk;
    PartIsSlice(OpenerOf(cipher, file), f);
    if OnDisk(c) {
      written := c.blob[f.fetchStart..f.fetchStart + (f.fetchEnd - f.fetchStart + 1)];
    } else {
      var body := Fetched(c.blob, f.fetchStart, f.fetchEnd);
      if Unseals(file, c) {
        ghost var plain := Opened(cipher, file, c);
        Reseal(cipher, c.iv, c.blob);
        assert Flatten([body]) == body + Flatten([]);
        written := DecryptFrom(cipher, c.iv, plain, f.fetchStart, f.fetchEnd + 1, [body]);
      } else {
        written := body;
      }
    }
  }

  /** Sealing what was opened gives back the stored bytes. */
  lemma Reseal(cipher: Cipher, iv: seq<Octet>, blob: seq<bv8>)
    ensures Crypt(cipher, iv, 0, Crypt(cipher, iv, 0, blob)) == blob
  {
    SuffixDecrypts(cipher, iv, blob, 0, |blob|);
    var twice := Crypt(cipher, iv, 0, blob);
    assert twice[0..|blob|] == twice && blob[0..|blob|] == blob;
  }

  predicate AllFit(fetches: seq<Fetch>) {
    forall i :: 0 <= i < |fetches| ==> PartFits(fetches[i])
  }

  /**
   `streamChunked` writes exactly the requested bytes of the file's content, in order, whatever mix
   of sealed and buffered chunks holds them.  `odd` is what the storage answers if it is asked for a
   part whose start lies behind its end; that happens if and only if one chunk holds both ends.
   */
  method StreamChunked(cipher: Cipher, file: File, start: nat, end: nat, odd: seq<bv8>) returns (written: seq<bv8>)
    requires AllIntact(file.chunks)
    ensures start <= end < |Content(OpenerOf(cipher, file), file.chunks)| ==>
      written == Content(OpenerOf(cipher, file), file.chunks)[start..end + 1]
    ensures end < start ==> written == if InOneChunk(file.chunks, 0, start, end) then odd else []
  {
    var fetches := PlanFetches(file.chunks, start, end);
    if end < start {
      InvertedPlan(file.chunks, 0, start, end);
      written := if |fetches| > 0 then odd else [];
    } else {
      PlanIsCut(OpenerOf(cipher, file), file.chunks, 0, start, end);
      PlanWithin(file.chunks, 0, start, end);
      written := WriteFetches(cipher, file, fetches);
      if end < |Content(OpenerOf(cipher, file), file.chunks)| {
        CutAll(Content(OpenerOf(cipher, file), file.chunks), start, end);
      }
    }
  }

  /** The second loop of `streamChunked`: every planned part is fetched and written. */
  method WriteFetches(cipher: Cipher, file: File, fetches: seq<Fetch>) returns (written: seq<bv8>)
    requires AllFit(fetches)
    ensures written == PlanBytes(OpenerOf(cipher, file), fetches)
  {
    written := [];
    assert fetches[0..] == fetches;
    for i := 0 to |fetches|
      invariant written + PlanBytes(OpenerOf(cipher, file), fetches[i..]) == PlanBytes(OpenerOf(cipher, file), fetches)
    {
      PlanBytesNext(OpenerOf(cipher, file), fetches, i, written);
      var part := FetchOne(cipher, file, fetches[i]);
      written := written + part;
    }
  }

  /**
   `ServeDownload` of a chunked file: a served window is answered with Content-Length many bytes,
   unless its start lies behind its end.
   */
  method ServeChunked(
    cipher: Cipher, file: File, header: RangeHeader, odd: seq<bv8>, ghost plains: seq<seq<bv8>>, fileSize: nat)
    returns (w: Window, body: seq<bv8>)
    requires StoresAll(cipher, file, plains) && fileSize == |Flatten(plains)|
    requires header.From? || header.FromTo? ==> header.start >= 0
    requires header.FromTo? ==> header.end >= 0
    ensures w.EmptyFile? <==> fileSize == 0 && !AsksRange(header)
    ensures w.NotSatisfiable? <==>
      AsksRange(header) && (if header.Suffix? then fileSize == 0 else header.start >= fileSize)
    ensures w.Serve? ==> (w.partial <==> AsksRange(header)) && w.contentLength == w.end - w.start + 1
    ensures !AsksRange(header) ==> body == Flatten(plains)
    ensures header.Suffix? && header.length > 0 ==>
      body == if header.length < fileSize then Flatten(plains)[fileSize - header.length..] else Flatten(plains)
    ensures header.From? && header.start < fileSize ==>
      w.Serve? && w.start == header.start && w.end == fileSize - 1 && body == Flatten(plains)[header.start..]
    ensures header.FromTo? && header.start < fileSize ==>
      && w.Serve? && w.start == header.start && w.end == (if header.end < fileSize then header.end else fileSize - 1)
      && (header.start <= header.end < fileSize ==> body == Flatten(plains)[header.start..header.end + 1])
      && (header.end >= fileSize ==> body == Flatten(plains)[header.start..])
    ensures w.Serve? ==> 0 <= w.start < fileSize && 0 <= w.end < fileSize
    ensures w.Serve? && w.start <= w.end ==> body == Flatten(plains)[w.start..w.end + 1] && |body| == w.contentLength
    ensures w.Serve? && w.end < w.start ==>
      w.contentLength <= 0 && body == if InOneChunk(file.chunks, 0, w.start, w.end) then odd else []
    ensures !w.Serve? ==> body == []
  {
    w := ResolveRange(fileSize, header);
    body := [];
    if w.Serve? {
      ContentIsPlain(cipher, file, file.chunks, plains);
      body := StreamChunked(cipher, file, w.start, w.end, odd);
    }
    BodyFollows(Flatten(plains), header, w, body);
  }

  /** The bytes each header stands for. */
  lemma BodyFollows(plain: seq<bv8>, header: RangeHeader, w: Window, body: seq<bv8>)
    requires w.Serve? ==> 0 <= w.start < |plain| && 0 <= w.end < |plain|
    requires w.Serve? && w.start <= w.end ==> body == plain[w.start..w.end + 1]
    requires !w.Serve? ==> body == []
    requires !AsksRange(header) ==> if w.Serve? then w.start == 0 && w.end == |plain| - 1 else plain == []
    requires header.Suffix? && header.length > 0 ==>
      if w.Serve? then w.end == |plain| - 1 && w.end - w.start + 1 == MinInt(header.length, |plain|) else plain == []
    ensures !AsksRange(header) ==> body == plain
    ensures header.Suffix? && header.length > 0 ==>
      body == if header.length < |plain| then plain[|plain| - header.length..] else plain
    ensures w.Serve? && w.start <= w.end && w.end == |plain| - 1 ==> body == plain[w.start..]
  {
    if w.Serve? && w.start <= w.end { SliceOfWindow(plain, w); }
  }

  /** A window that reaches the end, and one that is everything. */
  lemma SliceOfWindow(s: seq<bv8>, w: Window)
    requires w.Serve? && 0 <= w.start <= w.end < |s|
    ensures w.start == 0 && w.end == |s| - 1 ==> s[w.start..w.end + 1] == s
    ensures w.end == |s| - 1 ==> s[w.start..w.end + 1] == s[w.start..]
  {
  }
}
