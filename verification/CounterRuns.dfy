/** Concrete runs after which a counter key stays behind although nothing of its file is live. */
module CounterRuns {
  import opened Sums
  import opened ChunkRows
  import opened Drain
  import opened DrainRuns

  /** A whole file in one job, not a chunk. */
  const BLOB := Job(0, 0, false, 0, 0, 0)
  const BLOB_STORED := EMPTY.(temp := {FileTemp(0)}, written := {FileTemp(0)})

  /** No job is anywhere on the only instance; a flush may be left that has settled everything. */
  predicate Empty(inst: Instance) {
    && inst.jobs == inst.owed == inst.flight == inst.dropping == inst.delayedQueue == inst.delayed == inst.buffer == []
    && (inst.flushes == [] || inst.flushes == [Settling(map[])])
  }

  lemma NothingLeft(s: State)
    requires |s.insts| == 1 && Empty(s.insts[0])
    ensures Live(s, OfFile(0)) == 0 && Owed(s, 0) == 0
  {
    TotalSingle(s.insts, LiveWeight(OfFile(0)));
    TotalSingle(s.insts, OwedWeight(0));
    if s.insts[0].flushes != [] { TotalSingle(s.insts[0].flushes, FlushWeight(OfFile(0))); }
  }

  // ---------------------------------------------------------------- a leak

  lemma BlobAccepted() returns (s: State)
    ensures Reachable(s) && s.counter == map[0 := 1] && s.leaked == s.clipped == map[]
    ensures s.insts == [BLOB_STORED.(jobs := [BLOB])]
  {
    StartReachable();
    s := Hop(START, WriteTemp(FileTemp(0)), BLOB_STORED);
    s := Hop(s, Enqueue(BLOB), BLOB_STORED.(jobs := [BLOB], owed := [BLOB]));
    s := Hop(s, Incr(0), BLOB_STORED.(jobs := [BLOB]));
  }

  lemma BlobTaken() returns (s: State)
    ensures Reachable(s) && s.counter == map[0 := 1] && s.leaked == s.clipped == map[]
    ensures s.insts == [BLOB_STORED.(flight := [BLOB.(runs := 1)])]
  {
    s := BlobAccepted();
    s := Hop(s, Take, BLOB_STORED.(flight := [BLOB.(runs := 1)]));
  }

  lemma BlobUploaded() returns (s: State)
    ensures Reachable(s) && s.counter == map[0 := 1] && s.leaked == map[0 := 1] && s.clipped == map[]
    ensures s.insts == [BLOB_STORED.(temp := {})]
  {
    s := BlobTaken();
    s := Hop(s, Succeed(0), BLOB_STORED.(temp := {}));
  }

  /** A job that is not a chunk succeeds: it is gone, and its count stays for good. */
  lemma LeakedCountStays() returns (s: State)
    ensures Reachable(s) && Live(s, OfFile(0)) == 0 && Owed(s, 0) == 0
    ensures Get(s.leaked, 0) == 1 && Get(s.clipped, 0) == 0 && s.counter == map[0 := 1]
  {
    s := BlobUploaded();
    NothingLeft(s);
  }

  // ---------------------------------------------------------------- a clip

  const ONCE := [ChunkJob(0, 1)]
  const CLEANED := STORED.(temp := {}, owed := [ChunkJob(0, 0)])

  /** A chunk is enqueued, uploaded and stored while its AddJob has not incremented. */
  lemma EarlySent() returns (s: State)
    ensures Reachable(s) && s.rows == map[FIRST := Landed] && s.counter == s.leaked == s.clipped == map[]
    ensures s.insts == [STORED.(owed := [ChunkJob(0, 0)], flushes := [Sending(ONCE)])]
  {
    StartReachable();
    s := Hop(START, WriteTemp(ChunkTemp(FIRST)), STORED);
    s := Hop(s, Enqueue(ChunkJob(0, 0)), STORED.(jobs := [ChunkJob(0, 0)], owed := [ChunkJob(0, 0)]));
    s := Uploaded(s, ChunkJob(0, 0), []);
    assert s.insts[0].buffer == ONCE && ONCE[0].ChunkKey() == FIRST;
    s := SentAndStored(s);
  }

  lemma EarlyAnswered() returns (s: State)
    ensures Reachable(s) && s.counter == s.leaked == s.clipped == map[]
    ensures s.insts == [STORED.(owed := [ChunkJob(0, 0)], flushes := [Deleting(ONCE, 0)])]
  {
    s := EarlySent();
    s := Hop(s, RpcAnswered(0), STORED.(owed := [ChunkJob(0, 0)], flushes := [Deleting(ONCE, 0)]));
  }

  lemma EarlyCleaned() returns (s: State)
    ensures Reachable(s) && s.counter == s.leaked == s.clipped == map[]
    ensures s.insts == [CLEANED.(flushes := [Deleting(ONCE, 1)])]
  {
    s := EarlyAnswered();
    s := Hop(s, RemoveTemp(0), CLEANED.(flushes := [Deleting(ONCE, 1)]));
  }

  lemma OnceCounts()
    ensures CountsOf(ONCE) == map[0 := 1]
  {
    assert ONCE[0].file == 0 && ONCE[1..] == [];
    assert Count(ONCE, OfFile(0)) == 1;
  }

  lemma EarlyGrouped() returns (s: State)
    ensures Reachable(s) && s.counter == s.leaked == s.clipped == map[]
    ensures s.insts == [CLEANED.(flushes := [Settling(map[0 := 1])])]
  {
    s := EarlyCleaned();
    OnceCounts();
    s := Hop(s, Group(0), CLEANED.(flushes := [Settling(map[0 := 1])]));
  }

  lemma LostAtZero(s: State)
    requires s.counter == s.clipped == map[]
    ensures Decrement(s, 0, 1).counter == map[] && Decrement(s, 0, 1).clipped == map[0 := 1]
  {
  }

  /** Its decrement comes first and is lost at zero. */
  lemma EarlySettled() returns (s: State)
    ensures Reachable(s) && s.counter == s.leaked == map[] && s.clipped == map[0 := 1]
    ensures s.insts == [CLEANED.(flushes := [Settling(map[])])]
  {
    s := EarlyGrouped();
    assert map[0 := 1] - {0} == map[];
    LostAtZero(s);
    s := Hop(s, Settle(0, 0), CLEANED.(flushes := [Settling(map[])]));
  }

  /** The increment that follows then stays for good. */
  lemma ClippedCountStays() returns (s: State)
    ensures Reachable(s) && Live(s, OfFile(0)) == 0 && Owed(s, 0) == 0
    ensures Get(s.clipped, 0) == 1 && Get(s.leaked, 0) == 0 && s.counter == map[0 := 1]
  {
    s := EarlySettled();
    s := Hop(s, Incr(0), CLEANED.(owed := [], flushes := [Settling(map[])]));
    NothingLeft(s);
  }
}
