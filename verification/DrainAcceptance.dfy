/** What `allReceived` says about the chunks. */
module DrainAcceptance {
  // The counter is read in one state and the rows in a later one, so a chunk can be counted twice, and
  // something else than a chunk can be counted; this module gives the exact amounts.

  import opened ChunkRows
  import opened Drain
  import opened DrainProofs
  import opened DrainTheorems

  /** A job for the chunk is queued, in flight, delayed, buffered or in an unfinished report. */
  predicate IsLive(s: State, key: Key) {
    Live(s, OfChunk(key)) > 0
  }

  // ---------------------------------------------------------------- how each index is counted

  function One(b: bool): nat {
    if b then 1 else 0
  }

  /** Neither read counts the chunk. */
  predicate IsMissing(s: State, t: State, key: Key) {
    !IsLive(s, key) && !HasLanded(t.rows, key)
  }

  /** Both reads count the chunk: it is live at the first and has landed at the second. */
  predicate IsTwice(s: State, t: State, key: Key) {
    IsLive(s, key) && HasLanded(t.rows, key)
  }

  /** Live jobs of the chunk beyond the first one. */
  function Extra(s: State, key: Key): nat {
    if IsLive(s, key) then Live(s, OfChunk(key)) - 1 else 0
  }

  /** Indices below `n` that neither read counts. */
  function Missing(s: State, t: State, file: FileId, n: nat): nat {
    if n == 0 then 0 else Missing(s, t, file, n - 1) + One(IsMissing(s, t, Key(file, n - 1)))
  }

  /** Indices below `n` that both reads count. */
  function Twice(s: State, t: State, file: FileId, n: nat): nat {
    if n == 0 then 0 else Twice(s, t, file, n - 1) + One(IsTwice(s, t, Key(file, n - 1)))
  }

  /** Live jobs below `n` beyond the first one of each index. */
  function Surplus(s: State, file: FileId, n: nat): nat {
    if n == 0 then 0 else Surplus(s, file, n - 1) + Extra(s, Key(file, n - 1))
  }

  /** Live jobs of the file that are no longer, or never were, a chunk below `n`. */
  function Others(s: State, file: FileId, n: nat): int {
    Live(s, OfFile(file)) - Live(s, OfChunks(file, 0, n))
  }

  lemma IndexAddsUp(s: State, t: State, key: Key)
    ensures Live(s, OfChunk(key)) + One(HasLanded(t.rows, key)) + One(IsMissing(s, t, key))
      == 1 + One(IsTwice(s, t, key)) + Extra(s, key)
  {
  }

  /** The live jobs of the chunks below `n`, index by index. */
  function LiveUpTo(s: State, file: FileId, n: nat): nat {
    if n == 0 then 0 else LiveUpTo(s, file, n - 1) + Live(s, OfChunk(Key(file, n - 1)))
  }

  lemma {:induction false} LiveIndexByIndex(s: State, file: FileId, n: nat)
    ensures LiveUpTo(s, file, n) == Live(s, OfChunks(file, 0, n))
  {
    if n == 0 {
      NothingBelowZero(s, file);
    } else {
      LiveIndexByIndex(s, file, n - 1);
      LiveBelow(s, file, n - 1);
    }
  }

  lemma {:induction false} CountsAddUp(s: State, t: State, file: FileId, n: nat)
    ensures LiveUpTo(s, file, n) + LandedBelow(t.rows, file, n) + Missing(s, t, file, n)
      == n + Twice(s, t, file, n) + Surplus(s, file, n)
  {
    if n > 0 {
      CountsAddUp(s, t, file, n - 1);
      IndexAddsUp(s, t, Key(file, n - 1));
    }
  }

  lemma NothingBelowZero(s: State, file: FileId)
    ensures Live(s, OfChunks(file, 0, 0)) == 0
  {
    LiveBelow(s, file, 0);
    assert OfChunk(Key(file, 0)) == OfChunks(file, 0, 1);
  }

  lemma {:induction false} MissingNone(s: State, t: State, file: FileId, n: nat)
    ensures Missing(s, t, file, n) == 0 <==>
      forall i :: 0 <= i < n ==> IsLive(s, Key(file, i)) || HasLanded(t.rows, Key(file, i))
    decreases n
  {
    if n > 0 { MissingNone(s, t, file, n - 1); }
  }

  /** What the answer counts besides one hand-over of each index. */
  function Overcount(s: State, t: State, file: FileId, n: nat): int {
    Twice(s, t, file, n) + Surplus(s, file, n) + Others(s, file, n)
      + Get(s.leaked, file) + Get(s.clipped, file) - Owed(s, file)
  }

  // ---------------------------------------------------------------- the exact verdict

  /** The answer of `FlushAndConfirm`; the indices of a file's rows lie below its total. */
  function Answer(s: State, t: State, file: FileId, total: nat): Confirmation {
    Confirm(Outstanding(s.counter, file), LandedBelow(t.rows, file, total), total)
  }

  /** The indices of the file below `n` whose rows have landed. */
  function LandedIndices(rows: Rows, file: FileId, n: nat): set<nat> {
    set i: nat | i < n && HasLanded(rows, Key(file, i))
  }

  lemma {:induction false} LandedSize(rows: Rows, file: FileId, n: nat)
    ensures |LandedIndices(rows, file, n)| == LandedBelow(rows, file, n)
  {
    if n > 0 {
      LandedSize(rows, file, n - 1);
      var last: nat := n - 1;
      if HasLanded(rows, Key(file, last)) {
        assert LandedIndices(rows, file, n) == LandedIndices(rows, file, last) + {last};
      } else {
        assert LandedIndices(rows, file, n) == LandedIndices(rows, file, last);
      }
    }
  }

  /**
   Every number of the answer.  The completed count is the number of rows that have landed at the
   second read, the file is complete when that is all of them, and the received count falls short of
   the total by exactly what is missing beyond what is counted besides.
   */
  lemma AnswerExactly(s: State, steps: seq<Step>, file: FileId, total: nat)
    requires Reachable(s) && Runs(s, steps) && total <= MAX_INT32
    ensures var t := After(s, steps);
      var answer, short := Answer(s, t, file, total), Missing(s, t, file, total) - Overcount(s, t, file, total);
      && answer.completed == |LandedIndices(t.rows, file, total)|
      && (answer.allComplete <==> forall i :: 0 <= i < total ==> HasLanded(t.rows, Key(file, i)))
      && answer.received == (if short > 0 then total - short else total)
      && (answer.allReceived <==> short <= 0)
  {
    var t := After(s, steps);
    CounterConservation(s, file);
    CountsAddUp(s, t, file, total);
    LiveIndexByIndex(s, file, total);
    LandedBelowFull(t.rows, file, total);
    LandedSize(t.rows, file, total);
  }

  /**
   The counter is read in `s`, the rows after any further `steps`.  `allReceived` is answered if and
   only if the indices that neither read counts are no more than what is counted besides: chunks
   counted by both reads, second jobs of one chunk, results that are reported but not decremented,
   leaked and clipped counts, less the increments still owed.
   */
  lemma AcceptedExactly(s: State, steps: seq<Step>, file: FileId, total: nat)
    requires Reachable(s) && Runs(s, steps) && total <= MAX_INT32
    ensures var t := After(s, steps);
      (Answer(s, t, file, total).allReceived <==> Missing(s, t, file, total) <= Overcount(s, t, file, total))
  {
    var t := After(s, steps);
    CounterConservation(s, file);
    CountsAddUp(s, t, file, total);
    LiveIndexByIndex(s, file, total);
    LandedBelowFull(t.rows, file, total);
  }

  /** With nothing counted besides, `allReceived` means that every index was handed over. */
  lemma AcceptedMeansHandedOver(s: State, steps: seq<Step>, file: FileId, total: nat)
    requires Reachable(s) && Runs(s, steps) && total <= MAX_INT32
    requires Overcount(s, After(s, steps), file, total) <= 0
    ensures var t := After(s, steps);
      Answer(s, t, file, total).allReceived ==>
        forall i :: 0 <= i < total ==> IsLive(s, Key(file, i)) || HasLanded(t.rows, Key(file, i))
  {
    AcceptedExactly(s, steps, file, total);
    MissingNone(s, After(s, steps), file, total);
  }

  /** So a complete hand-over is rejected exactly when the increments owed outweigh what is overcounted. */
  lemma RejectedExactly(s: State, steps: seq<Step>, file: FileId, total: nat)
    requires Reachable(s) && Runs(s, steps) && total <= MAX_INT32
    requires var t := After(s, steps);
      forall i :: 0 <= i < total ==> IsLive(s, Key(file, i)) || HasLanded(t.rows, Key(file, i))
    ensures var t := After(s, steps);
      (!Answer(s, t, file, total).allReceived <==> Overcount(s, t, file, total) < 0)
  {
    AcceptedExactly(s, steps, file, total);
    MissingNone(s, After(s, steps), file, total);
  }

  /** When the counter key is gone at the first read, only landed chunks are counted. */
  lemma AcceptedWithoutCounter(s: State, steps: seq<Step>, file: FileId, total: nat)
    requires Runs(s, steps) && file !in s.counter
    ensures var t := After(s, steps);
      (Answer(s, t, file, total).allReceived <==> forall i :: 0 <= i < total ==> HasLanded(t.rows, Key(file, i)))
  {
    LandedBelowFull(After(s, steps).rows, file, total);
  }
}
