/** Concrete runs that show where the promises of the drain protocol end. */
module DrainRuns {
  import opened Sums
  import opened ChunkRows
  import opened Drain

  const FIRST := Key(0, 0)
  const SECOND := Key(0, 1)
  const EMPTY := Instance(1, [], [], [], [], [], [], [], [], {}, {}, {}, {})
  const START := State([EMPTY], map[], map[], {}, {}, {}, {}, {}, map[], map[], map[], map[])

  function ChunkJob(index: nat, runs: nat): Job {
    Job(0, index, true, 0, runs, 0)
  }

  lemma {:induction false} AfterConcat(s: State, steps: seq<Step>, step: Step)
    requires Runs(s, steps) && Enabled(After(s, steps), step)
    ensures Runs(s, steps + [step])
    ensures After(s, steps + [step]) == Apply(After(s, steps), step)
    decreases |steps|
  {
    if |steps| == 0 {
      assert steps + [step] == [step];
      assert [step][1..] == [];
      assert Runs(Apply(s, step), [step][1..]);
    } else {
      assert (steps + [step])[1..] == steps[1..] + [step];
      AfterConcat(Apply(s, steps[0]), steps[1..], step);
    }
  }

  /** A reachable state stays reachable after one more enabled step. */
  lemma Advance(s: State, step: Step) returns (t: State)
    requires Reachable(s) && Enabled(s, step)
    ensures Reachable(t) && t == Apply(s, step)
  {
    var s0, steps :| Initial(s0) && Runs(s0, steps) && After(s0, steps) == s;
    AfterConcat(s0, steps, step);
    t := Apply(s, step);
    assert Runs(s0, steps + [step]);
  }

  lemma StartReachable()
    ensures Reachable(START)
  {
    assert Initial(START);
    assert Runs(START, []) && After(START, []) == START;
  }

  /** An act on the only instance of `s`, with its outcome spelled out. */
  lemma Hop(s: State, act: Act, inst: Instance) returns (t: State)
    requires Reachable(s) && |s.insts| == 1 && CanAct(s.insts[0], s.rows, act)
    requires Acted(s.insts[0], s.rows, act) == inst
    ensures Reachable(t) && t == Shared(s, s.insts[0], act).(insts := [inst])
  {
    assert s.insts[0 := inst] == [inst];
    t := Advance(s, At(0, act));
  }

  /** The body of the first chunk is on disk. */
  const STORED := EMPTY.(temp := {ChunkTemp(FIRST)}, written := {ChunkTemp(FIRST)})

  lemma FirstAccepted() returns (s: State)
    ensures Reachable(s) && s.rows == map[] && s.failed == {} && s.lost == {} && s.sent == {} && s.clipped == map[]
    ensures s.accepted == s.returned == {FIRST} && s.counter == map[0 := 1]
    ensures s.insts == [STORED.(jobs := [ChunkJob(0, 0)])]
  {
    StartReachable();
    s := Hop(START, WriteTemp(ChunkTemp(FIRST)), STORED);
    s := Hop(s, Enqueue(ChunkJob(0, 0)), STORED.(jobs := [ChunkJob(0, 0)], owed := [ChunkJob(0, 0)]));
    s := Hop(s, Incr(0), STORED.(jobs := [ChunkJob(0, 0)]));
  }

  /** A second AddJob for the first chunk has enqueued, but not incremented. */
  lemma FirstRepeated() returns (s: State)
    ensures Reachable(s) && s.rows == map[] && s.failed == {} && s.lost == {} && s.clipped == map[]
    ensures s.returned == {FIRST} && s.counter == map[0 := 1]
    ensures s.insts == [STORED.(jobs := [ChunkJob(0, 0), ChunkJob(0, 0)], owed := [ChunkJob(0, 0)])]
  {
    s := FirstAccepted();
    s := Hop(s, Enqueue(ChunkJob(0, 0)), STORED.(jobs := [ChunkJob(0, 0), ChunkJob(0, 0)], owed := [ChunkJob(0, 0)]));
  }

  const THREE := [ChunkJob(0, 0), ChunkJob(0, 0), ChunkJob(1, 0)]

  /** The second chunk is enqueued as well. */
  lemma DuplicateEnqueued() returns (s: State)
    ensures Reachable(s) && s.rows == map[] && s.failed == {} && s.lost == {} && s.clipped == map[]
    ensures s.returned == {FIRST} && s.counter == map[0 := 1]
    ensures s.insts == [STORED.(jobs := THREE, owed := [ChunkJob(0, 0), ChunkJob(1, 0)])]
  {
    s := FirstRepeated();
    s := Hop(s, Enqueue(ChunkJob(1, 0)), STORED.(jobs := THREE, owed := [ChunkJob(0, 0), ChunkJob(1, 0)]));
  }

  /** The AddJob of the second chunk returns. */
  lemma DuplicateAccepted() returns (s: State)
    ensures Reachable(s) && s.rows == map[] && s.failed == {} && s.lost == {} && s.clipped == map[]
    ensures s.returned == {FIRST, SECOND} && s.counter == map[0 := 2]
    ensures s.insts == [STORED.(jobs := THREE, owed := [ChunkJob(0, 0)])]
  {
    s := DuplicateEnqueued();
    s := Hop(s, Incr(1), STORED.(jobs := THREE, owed := [ChunkJob(0, 0)]));
  }

  /** The job at the head of the queue is uploaded and reported. */
  lemma Uploaded(s: State, job: Job, rest: seq<Job>) returns (t: State)
    requires Reachable(s) && |s.insts| == 1 && s.insts[0].workers == 1 && s.insts[0].flight == []
    requires s.insts[0].jobs == [job] + rest && job.chunked && job.Temp() in s.insts[0].temp
    ensures Reachable(t)
    ensures t == s.(insts := [s.insts[0].(jobs := rest, buffer := s.insts[0].buffer + [job.(runs := job.runs + 1)])])
  {
    var inst, ran := s.insts[0], job.(runs := job.runs + 1);
    t := Hop(s, Take, inst.(jobs := rest, flight := [ran]));
    t := Hop(t, Succeed(0), inst.(jobs := rest, buffer := inst.buffer + [ran]));
  }

  /** The buffer goes out, and the server stores the row of its first result. */
  lemma SentAndStored(s: State) returns (t: State)
    requires Reachable(s) && |s.insts| == 1 && |s.insts[0].buffer| > 0 && s.insts[0].flushes == []
    ensures var key := s.insts[0].buffer[0].ChunkKey();
      && Reachable(t)
      && t == s.(sent := t.sent, rows := s.rows[key := Landed],
                 insts := [s.insts[0].(buffer := [], flushes := [Sending(s.insts[0].buffer)])])
    ensures s.insts[0].buffer[0].ChunkKey() in t.sent
  {
    t := Hop(s, BeginFlush, s.insts[0].(buffer := [], flushes := [Sending(s.insts[0].buffer)]));
    t := Advance(t, Upsert(s.insts[0].buffer[0].ChunkKey()));
  }

  const TWICE := [ChunkJob(0, 1), ChunkJob(0, 1)]

  lemma DuplicateHalfUploaded() returns (s: State)
    ensures Reachable(s) && s.rows == map[] && s.failed == {} && s.lost == {} && s.clipped == map[]
    ensures s.returned == {FIRST, SECOND} && s.counter == map[0 := 2]
    ensures s.insts ==
      [STORED.(jobs := [ChunkJob(0, 0), ChunkJob(1, 0)], owed := [ChunkJob(0, 0)], buffer := [ChunkJob(0, 1)])]
  {
    s := DuplicateAccepted();
    s := Uploaded(s, ChunkJob(0, 0), [ChunkJob(0, 0), ChunkJob(1, 0)]);
    assert s.insts[0].buffer == [ChunkJob(0, 1)];
  }

  lemma DuplicateUploaded() returns (s: State)
    ensures Reachable(s) && s.rows == map[] && s.failed == {} && s.lost == {} && s.clipped == map[]
    ensures s.returned == {FIRST, SECOND} && s.counter == map[0 := 2]
    ensures s.insts == [STORED.(jobs := [ChunkJob(1, 0)], owed := [ChunkJob(0, 0)], buffer := TWICE)]
  {
    s := DuplicateHalfUploaded();
    s := Uploaded(s, ChunkJob(0, 0), [ChunkJob(1, 0)]);
    assert s.insts[0].buffer == TWICE;
  }

  /** Both jobs of the first chunk are uploaded and stored; the second chunk is still queued. */
  lemma DuplicateSent() returns (s: State)
    ensures Reachable(s) && s.rows == map[FIRST := Landed] && s.failed == {} && s.lost == {} && s.clipped == map[]
    ensures s.returned == {FIRST, SECOND} && s.counter == map[0 := 2]
    ensures s.insts == [STORED.(jobs := [ChunkJob(1, 0)], owed := [ChunkJob(0, 0)], flushes := [Sending(TWICE)])]
  {
    s := DuplicateUploaded();
    assert s.insts[0].buffer[0].ChunkKey() == FIRST;
    s := SentAndStored(s);
  }

  lemma DuplicateAnswered() returns (s: State)
    ensures Reachable(s) && s.rows == map[FIRST := Landed] && s.failed == {} && s.lost == {} && s.clipped == map[]
    ensures s.returned == {FIRST, SECOND} && s.counter == map[0 := 2]
    ensures |s.insts| == 1 && s.insts[0].owed == [ChunkJob(0, 0)] && s.insts[0].flushes == [Deleting(TWICE, 0)]
  {
    s := DuplicateSent();
    assert Unstored(TWICE, s.rows) == {};
    s := Hop(s, RpcAnswered(0), s.insts[0].(flushes := [Deleting(TWICE, 0)]));
  }

  /** The flush deletes its temp file, twice by name. */
  lemma DuplicateCleaned() returns (s: State)
    ensures Reachable(s) && s.rows == map[FIRST := Landed] && s.failed == {} && s.lost == {} && s.clipped == map[]
    ensures s.returned == {FIRST, SECOND} && s.counter == map[0 := 2]
    ensures |s.insts| == 1 && s.insts[0].owed == [ChunkJob(0, 0)] && s.insts[0].flushes == [Deleting(TWICE, 2)]
  {
    s := DuplicateAnswered();
    s := TempRemoved(s, 0);
    s := TempRemoved(s, 1);
  }

  lemma TempRemoved(s: State, n: nat) returns (t: State)
    requires Reachable(s) && |s.insts| == 1 && s.insts[0].flushes == [Deleting(TWICE, n)] && n < 2
    ensures Reachable(t)
    ensures var inst := s.insts[0];
      t == s.(insts := [inst.(temp := inst.temp - {TWICE[n].Temp()}, flushes := [Deleting(TWICE, n + 1)])])
  {
    var inst := s.insts[0];
    t := Hop(s, RemoveTemp(0), inst.(temp := inst.temp - {TWICE[n].Temp()}, flushes := [Deleting(TWICE, n + 1)]));
  }

  lemma TwiceCounts()
    ensures CountsOf(TWICE) == map[0 := 2]
  {
    assert TWICE[0].file == 0 && TWICE[1..] == [ChunkJob(0, 1)];
    assert Count(TWICE, OfFile(0)) == 2;
  }

  /** It groups the batch, two results of file 0, and settles it with one decrement. */
  lemma DuplicateSettled() returns (s: State)
    ensures Reachable(s) && s.rows == map[FIRST := Landed] && s.failed == {} && s.lost == {}
    ensures s.returned == {FIRST, SECOND} && s.counter == map[]
    ensures |s.insts| == 1 && s.insts[0].owed == [ChunkJob(0, 0)]
  {
    s := DuplicateCleaned();
    TwiceCounts();
    var inst := s.insts[0];
    s := Hop(s, Group(0), inst.(flushes := [Settling(map[0 := 2])]));
    s := Hop(s, Settle(0, 0), inst.(flushes := [Settling(map[])]));
  }

  lemma OwedOnce(s: State, job: Job)
    requires |s.insts| == 1 && s.insts[0].owed == [job]
    ensures Owed(s, job.file) == 1
  {
    TotalSingle(s.insts, OwedWeight(job.file));
    TotalSingle([job], JobWeight(OfFile(job.file)));
  }

  lemma OnlyFirstLanded(rows: Rows)
    requires rows == map[FIRST := Landed]
    ensures LandedBelow(rows, 0, 2) == 1 && !HasLanded(rows, SECOND)
  {
    assert LandedBelow(rows, 0, 1) == 1;
  }

  /**
   The condition of the no-false-rejection theorem cannot be dropped.  AddJob has returned for
   both chunks and nothing has failed, but a second AddJob for the first chunk has enqueued
   and not yet incremented; its job is flushed early, the decrement is charged to the other
   chunk, and the complete hand-over is reported as incomplete.
   */
  lemma FalseRejectionDuringAddJob() returns (s: State)
    ensures Reachable(s) && s.failed == {} && s.lost == {}
    ensures forall i :: 0 <= i < 2 ==> Key(0, i) in s.returned
    ensures Owed(s, 0) == 1
    ensures !Confirm(Outstanding(s.counter, 0), LandedBelow(s.rows, 0, 2), 2).allReceived
  {
    s := DuplicateSettled();
    OwedOnce(s, ChunkJob(0, 0));
    OnlyFirstLanded(s.rows);
    assert forall i :: 0 <= i < 2 ==> Key(0, i) == FIRST || Key(0, i) == SECOND;
  }

  /** The only chunk ever handed over has been put into a report. */
  lemma FirstSent() returns (s: State)
    ensures Reachable(s) && s.accepted == {FIRST} && s.counter == map[0 := 1] && s.rows == map[] && FIRST in s.sent
  {
    s := FirstAccepted();
    s := Uploaded(s, ChunkJob(0, 0), []);
    var buffered := s.insts[0].buffer;
    assert buffered == [ChunkJob(0, 1)] && buffered[0].ChunkKey() == FIRST;
    s := Hop(s, BeginFlush, s.insts[0].(buffer := [], flushes := [Sending(buffered)]));
  }

  /**
   The opposite promise does not hold: `allReceived` may be answered although a chunk was never
   handed over.  The counter is read while the first chunk drains, the rows after it landed,
   so the chunk is counted twice.
   */
  lemma FalseAcceptance() returns (s: State, steps: seq<Step>)
    ensures Reachable(s) && Runs(s, steps)
    ensures s.accepted == After(s, steps).accepted == {FIRST} && !HasLanded(After(s, steps).rows, SECOND)
    ensures Confirm(Outstanding(s.counter, 0), LandedBelow(After(s, steps).rows, 0, 2), 2).allReceived
  {
    s := FirstSent();
    steps := [Upsert(FIRST)];
    var t := Apply(s, Upsert(FIRST));
    assert steps[1..] == [] && Runs(t, steps[1..]) && After(s, steps) == t;
    OnlyFirstLanded(t.rows);
  }
}
