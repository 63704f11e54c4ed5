/** When an acknowledged chunk can be lost, and a run that loses one. */
module DrainLosses {
  import opened ChunkRows
  import opened Drain
  import opened DrainProofs
  import opened DrainTheorems
  import opened DrainRuns
  import opened CounterRuns

  // ---------------------------------------------------------------- what it means to be gone

  /** An accepted chunk is live or has landed, unless its file was reported failed or it was lost. */
  lemma AcceptedIsKept(s: State, key: Key)
    requires Reachable(s) && key in s.accepted
    ensures HasLanded(s.rows, key) || Live(s, OfChunk(key)) > 0 || key.file in s.failed || key in s.lost
  {
    ReachableInv(s);
    assert Held(s, key);
  }

  /** An accepted chunk of which there is neither a row nor a job, and no report of a failure. */
  predicate Gone(s: State, key: Key) {
    key in s.accepted && !HasLanded(s.rows, key) && Live(s, OfChunk(key)) == 0 && key.file !in s.failed
  }

  // ---------------------------------------------------------------- the steps that decide

  /**
   `Flush` groups an answered batch that holds every job there is of the chunk, while its row has not
   landed and its file has not failed.
   */
  predicate TakesLast(s: State, step: Step, key: Key)
    requires Enabled(s, step)
  {
    && step.At? && step.act.Group?
    && 0 < Live(s, OfChunk(key)) == Count(s.insts[step.i].flushes[step.act.k].batch, OfChunk(key))
    && key in s.accepted && !HasLanded(s.rows, key) && key.file !in s.failed
  }

  /** The chunk is handed over anew, its row is stored after all, or its file is reported failed. */
  predicate Rescues(s: State, step: Step, key: Key)
    requires Enabled(s, step)
  {
    match step
    case At(i, Enqueue(job)) => job.chunked && job.ChunkKey() == key
    case At(i, Fail(k)) => GivesUp(s.insts[i], s.insts[i].flight[k]) && s.insts[i].flight[k].file == key.file
    case Upsert(stored) => stored == key
    case DirectReport(stored) => stored == key
    case _ => false
  }

  lemma OfOneChunk(job: Job, key: Key)
    ensures Matches(OfChunk(key), job) <==> job.chunked && job.ChunkKey() == key
  {
  }

  /** How an act changes the number of live jobs of a chunk whose file has not failed. */
  lemma ActOnChunk(s: State, i: nat, act: Act, key: Key)
    requires Enabled(s, At(i, act)) && InstanceOk(s.insts[i], s) && key.file !in s.failed
    ensures Live(Apply(s, At(i, act)), OfChunk(key)) == Live(s, OfChunk(key))
      + (if act.Enqueue? && act.job.chunked && act.job.ChunkKey() == key then 1 else 0)
      - (if act.Group? then Count(s.insts[i].flushes[act.k].batch, OfChunk(key)) else 0)
  {
    StateDelta(s, i, act, OfChunk(key));
    if act.Enqueue? { OfOneChunk(act.job, key); }
    if act.Drop? { assert s.insts[i].dropping[act.k].file in s.failed; }
  }

  /** What an act adds to the chunks accepted and to the files failed. */
  lemma ActAdds(s: State, inst: Instance, act: Act)
    requires CanAct(inst, s.rows, act)
    ensures var t := Shared(s, inst, act);
      && t.rows == s.rows
      && t.accepted == s.accepted + (if act.Enqueue? && act.job.chunked then {act.job.ChunkKey()} else {})
      && t.failed == s.failed
         + (if act.Fail? && GivesUp(inst, inst.flight[act.k]) then {inst.flight[act.k].file} else {})
  {
    match act
    case Enqueue(_) =>
    case Incr(_) =>
    case Succeed(_) =>
    case Fail(_) =>
    case Drop(_) =>
    case Settle(_, _) =>
    case _ =>
  }

  /**
   A step leaves a chunk gone if and only if it was gone and is not rescued, or the step takes its
   last job out of the reporter.
   */
  lemma StepGone(s: State, step: Step, key: Key)
    requires Enabled(s, step) && forall i :: 0 <= i < |s.insts| ==> InstanceOk(s.insts[i], s)
    ensures Gone(Apply(s, step), key) <==> (Gone(s, key) && !Rescues(s, step, key)) || TakesLast(s, step, key)
  {
    match step
    case At(i, act) => ActGone(s, i, act, key);
    case Upsert(stored) => RowGone(s, step, key);
    case PlaceHolder(stored) => RowGone(s, step, key);
    case DirectReport(stored) => RowGone(s, step, key);
  }

  lemma ActGone(s: State, i: nat, act: Act, key: Key)
    requires Enabled(s, At(i, act)) && InstanceOk(s.insts[i], s)
    ensures Gone(Apply(s, At(i, act)), key)
      <==> (Gone(s, key) && !Rescues(s, At(i, act), key)) || TakesLast(s, At(i, act), key)
  {
    var t := Apply(s, At(i, act));
    ActAdds(s, s.insts[i], act);
    assert t.accepted == Shared(s, s.insts[i], act).accepted && t.failed == Shared(s, s.insts[i], act).failed;
    assert t.rows == s.rows;
    if key.file !in s.failed {
      ActOnChunk(s, i, act, key);
    }
  }

  /** A row that is stored brings its own chunk back, and no other one. */
  lemma RowGone(s: State, step: Step, key: Key)
    requires Enabled(s, step) && !step.At?
    ensures Gone(Apply(s, step), key) <==> Gone(s, key) && !Rescues(s, step, key)
  {
    UpsertsExtend(s.rows, step.key);
  }

  // ---------------------------------------------------------------- runs

  /** No step of the run rescues the chunk. */
  predicate Unrescued(s: State, steps: seq<Step>, key: Key)
    requires Runs(s, steps)
    decreases |steps|
  {
    |steps| > 0 ==> !Rescues(s, steps[0], key) && Unrescued(Apply(s, steps[0]), steps[1..], key)
  }

  /** Some step takes the last job of the chunk, and none after it rescues the chunk. */
  predicate LostIn(s: State, steps: seq<Step>, key: Key)
    requires Runs(s, steps)
    decreases |steps|
  {
    |steps| > 0 &&
    ((TakesLast(s, steps[0], key) && Unrescued(Apply(s, steps[0]), steps[1..], key))
     || LostIn(Apply(s, steps[0]), steps[1..], key))
  }

  /** The chunk is gone in some state of the run. */
  predicate EverGone(s: State, steps: seq<Step>, key: Key)
    requires Runs(s, steps)
    decreases |steps|
  {
    Gone(s, key) || (|steps| > 0 && EverGone(Apply(s, steps[0]), steps[1..], key))
  }

  /** Some step of the run takes the last job of the chunk. */
  predicate EverTaken(s: State, steps: seq<Step>, key: Key)
    requires Runs(s, steps)
    decreases |steps|
  {
    |steps| > 0 && (TakesLast(s, steps[0], key) || EverTaken(Apply(s, steps[0]), steps[1..], key))
  }

  lemma {:induction false} RunGone(s: State, steps: seq<Step>, key: Key)
    requires Inv(s) && Runs(s, steps)
    ensures Gone(After(s, steps), key) <==> (Gone(s, key) && Unrescued(s, steps, key)) || LostIn(s, steps, key)
    ensures EverGone(s, steps, key) <==> Gone(s, key) || EverTaken(s, steps, key)
    decreases |steps|
  {
    if |steps| > 0 {
      StepKeepsInv(s, steps[0]);
      StepGone(s, steps[0], key);
      RunGone(Apply(s, steps[0]), steps[1..], key);
    }
  }

  /**
   A run ends with an accepted chunk gone if and only if one of its steps takes the chunk's last job
   while the row has not landed, and no later step rescues it; the chunk is gone at some time if and
   only if there is such a step at all.
   */
  lemma GoneIffLastJobTaken(s0: State, steps: seq<Step>, key: Key)
    requires Initial(s0) && Runs(s0, steps)
    ensures Gone(After(s0, steps), key) <==> LostIn(s0, steps, key)
    ensures EverGone(s0, steps, key) <==> EverTaken(s0, steps, key)
  {
    InitialInv(s0);
    RunGone(s0, steps, key);
  }

  // ---------------------------------------------------------------- reports that store their rows

  /** Every report that is answered in the run has stored its rows by then. */
  predicate AllStored(s: State, steps: seq<Step>)
    requires Runs(s, steps)
    decreases |steps|
  {
    |steps| > 0 ==>
      && (steps[0].At? && steps[0].act.RpcAnswered? ==>
           var batch := s.insts[steps[0].i].flushes[steps[0].act.k].batch;
           forall j :: 0 <= j < |batch| ==> HasLanded(s.rows, batch[j].ChunkKey()))
      && AllStored(Apply(s, steps[0]), steps[1..])
  }

  /** Only the answer to a report can be without its rows. */
  lemma ActLoses(s: State, inst: Instance, act: Act)
    requires CanAct(inst, s.rows, act)
    ensures Shared(s, inst, act).lost
      == s.lost + if act.RpcAnswered? then Unstored(inst.flushes[act.k].batch, s.rows) else {}
  {
    match act
    case Enqueue(_) =>
    case Incr(_) =>
    case Succeed(_) =>
    case Fail(_) =>
    case Drop(_) =>
    case Settle(_, _) =>
    case _ =>
  }

  lemma {:induction false} StoredLosesNothing(s: State, steps: seq<Step>)
    requires Runs(s, steps) && AllStored(s, steps)
    ensures After(s, steps).lost == s.lost
    decreases |steps|
  {
    if |steps| > 0 {
      var step := steps[0];
      if step.At? {
        var inst := s.insts[step.i];
        ActLoses(s, inst, step.act);
        assert Apply(s, step).lost == Shared(s, inst, step.act).lost;
      }
      StoredLosesNothing(Apply(s, step), steps[1..]);
    }
  }

  /** If every answered report has stored its rows, no accepted chunk is gone. */
  lemma StoredMeansKept(s0: State, steps: seq<Step>, key: Key)
    requires Initial(s0) && Runs(s0, steps) && AllStored(s0, steps)
    ensures !Gone(After(s0, steps), key)
  {
    StoredLosesNothing(s0, steps);
    InitialInv(s0);
    RunKeepsInv(s0, steps);
    assert Held(After(s0, steps), key);
  }

  // ---------------------------------------------------------------- a run that loses a chunk

  /** The only chunk is accepted, uploaded and reported, and the server fails to store its row. */
  lemma FirstReported() returns (s: State)
    ensures Reachable(s) && s.accepted == s.returned == {FIRST} && s.rows == map[] && s.counter == map[0 := 1]
    ensures s.failed == {} && s.lost == {} && s.insts == [STORED.(flushes := [Sending(ONCE)])]
  {
    s := FirstAccepted();
    s := Uploaded(s, ChunkJob(0, 0), []);
    assert s.insts[0].buffer == ONCE;
    s := Hop(s, BeginFlush, STORED.(flushes := [Sending(ONCE)]));
  }

  lemma FirstUnstored() returns (s: State)
    ensures Reachable(s) && s.accepted == s.returned == {FIRST} && s.rows == map[] && s.counter == map[0 := 1]
    ensures s.failed == {} && s.lost == {FIRST} && s.insts == [STORED.(flushes := [Deleting(ONCE, 0)])]
  {
    s := FirstReported();
    assert ONCE[0].ChunkKey() == FIRST && Unstored(ONCE, s.rows) == {FIRST};
    s := Hop(s, RpcAnswered(0), STORED.(flushes := [Deleting(ONCE, 0)]));
  }

  lemma FirstRemoved() returns (s: State)
    ensures Reachable(s) && s.accepted == s.returned == {FIRST} && s.rows == map[] && s.counter == map[0 := 1]
    ensures s.failed == {} && s.lost == {FIRST} && s.insts == [STORED.(temp := {}, flushes := [Settling(map[0 := 1])])]
  {
    s := FirstUnstored();
    s := Hop(s, RemoveTemp(0), STORED.(temp := {}, flushes := [Deleting(ONCE, 1)]));
    OnceCounts();
    s := Hop(s, Group(0), STORED.(temp := {}, flushes := [Settling(map[0 := 1])]));
  }

  lemma FirstSettled() returns (s: State)
    ensures Reachable(s) && s.accepted == s.returned == {FIRST} && s.rows == map[] && s.counter == map[]
    ensures s.failed == {} && s.lost == {FIRST} && s.insts == [STORED.(temp := {}, flushes := [Settling(map[])])]
  {
    s := FirstRemoved();
    assert map[0 := 1] - {0} == map[];
    s := Hop(s, Settle(0, 0), STORED.(temp := {}, flushes := [Settling(map[])]));
  }

  /**
   The answer of the report counts the rows that were stored, and the flush does not look at it: the
   chunk's only copy is deleted and its count taken back, no row and no failure is left, and
   FlushAndConfirm will not accept the upload.
   */
  lemma UnstoredChunkIsLost() returns (s: State)
    ensures Reachable(s) && s.returned == {FIRST} && Gone(s, FIRST)
    ensures s.rows == map[] && s.counter == map[] && |s.insts| == 1 && s.insts[0].temp == {}
    ensures Live(s, OfFile(0)) == 0 && Owed(s, 0) == 0
    ensures !Confirm(Outstanding(s.counter, 0), LandedBelow(s.rows, 0, 1), 1).allReceived
  {
    s := FirstSettled();
    NothingLeft(s);
    LiveBelow(s, 0, 1);
    assert OfChunk(FIRST) == OfChunks(0, 0, 1);
  }

  /** A report that did not store a row need not lose the chunk: here another report of it lands later. */
  lemma UnstoredChunkComesBack() returns (s: State)
    ensures Reachable(s) && s.accepted == {FIRST} && s.lost == {FIRST} && !Gone(s, FIRST)
    ensures HasLanded(s.rows, FIRST) && s.failed == {}
  {
    s := FirstUnstored();
    s := Advance(s, DirectReport(FIRST));
  }
}
