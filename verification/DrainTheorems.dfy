/** The promises of the drain protocol, over every run. */
module DrainTheorems {
  import opened Sums
  import opened ChunkRows
  import opened Drain
  import opened DrainProofs

  // ---------------------------------------------------------------- no false rejection

  lemma CountBelow(s: seq<Job>, file: FileId, n: nat)
    ensures Count(s, OfChunks(file, 0, n)) + Count(s, OfChunk(Key(file, n))) == Count(s, OfChunks(file, 0, n + 1))
    ensures Count(s, OfChunks(file, 0, n)) <= Count(s, OfFile(file))
  {
    TotalAdd(s, JobWeight(OfChunks(file, 0, n)), JobWeight(OfChunk(Key(file, n))), JobWeight(OfChunks(file, 0, n + 1)));
    TotalLeq(s, JobWeight(OfChunks(file, 0, n)), JobWeight(OfFile(file)));
  }

  lemma InstLiveBelow(inst: Instance, file: FileId, n: nat)
    ensures InstLive(inst, OfChunks(file, 0, n)) + InstLive(inst, OfChunk(Key(file, n)))
      == InstLive(inst, OfChunks(file, 0, n + 1))
    ensures InstLive(inst, OfChunks(file, 0, n)) <= InstLive(inst, OfFile(file))
  {
    forall s: seq<Job>
      ensures Count(s, OfChunks(file, 0, n)) + Count(s, OfChunk(Key(file, n))) == Count(s, OfChunks(file, 0, n + 1))
      ensures Count(s, OfChunks(file, 0, n)) <= Count(s, OfFile(file))
    {
      CountBelow(s, file, n);
    }
    TotalAdd(inst.flushes, FlushWeight(OfChunks(file, 0, n)), FlushWeight(OfChunk(Key(file, n))),
             FlushWeight(OfChunks(file, 0, n + 1)));
    TotalLeq(inst.flushes, FlushWeight(OfChunks(file, 0, n)), FlushWeight(OfFile(file)));
  }

  lemma LiveBelow(s: State, file: FileId, n: nat)
    ensures Live(s, OfChunks(file, 0, n)) + Live(s, OfChunk(Key(file, n))) == Live(s, OfChunks(file, 0, n + 1))
    ensures Live(s, OfChunks(file, 0, n)) <= Live(s, OfFile(file))
  {
    forall inst: Instance
      ensures InstLive(inst, OfChunks(file, 0, n)) + InstLive(inst, OfChunk(Key(file, n)))
        == InstLive(inst, OfChunks(file, 0, n + 1))
      ensures InstLive(inst, OfChunks(file, 0, n)) <= InstLive(inst, OfFile(file))
    {
      InstLiveBelow(inst, file, n);
    }
    TotalAdd(s.insts, LiveWeight(OfChunks(file, 0, n)), LiveWeight(OfChunk(Key(file, n))),
             LiveWeight(OfChunks(file, 0, n + 1)));
    TotalLeq(s.insts, LiveWeight(OfChunks(file, 0, n)), LiveWeight(OfFile(file)));
  }

  /**
   A chunk that was handed over: its AddJob has returned and no report of it was answered without
   storing it, or its row has landed.
   */
  ghost predicate HandedOver(s: State, key: Key) {
    (key in s.returned && key !in s.lost) || HasLanded(s.rows, key)
  }

  /** Pigeonhole: indices that have not landed are covered by distinct live jobs. */
  lemma {:induction false} OpenIndicesAreLive(s: State, file: FileId, n: nat)
    requires forall i :: 0 <= i < n ==> HasLanded(s.rows, Key(file, i)) || Live(s, OfChunk(Key(file, i))) > 0
    ensures n - LandedBelow(s.rows, file, n) <= Live(s, OfChunks(file, 0, n))
  {
    if n > 0 {
      OpenIndicesAreLive(s, file, n - 1);
      LiveBelow(s, file, n - 1);
    }
  }

  /** The rows still missing below `n` are covered by distinct live jobs. */
  lemma MissingRowsAreLive(s: State, file: FileId, n: nat)
    requires Inv(s) && file !in s.failed
    requires forall i :: 0 <= i < n ==> HandedOver(s, Key(file, i))
    ensures n - LandedBelow(s.rows, file, n) <= Live(s, OfChunks(file, 0, n))
  {
    forall i | 0 <= i < n ensures HasLanded(s.rows, Key(file, i)) || Live(s, OfChunk(Key(file, i))) > 0 {
      assert HandedOver(s, Key(file, i)) && Held(s, Key(file, i));
    }
    OpenIndicesAreLive(s, file, n);
  }

  /**
   FlushAndConfirm reads the counter in state `s` and the rows after any further `steps` of
   the system.  If every chunk was handed over and no chunk of the file has failed, the
   received count falls short by at most the number of AddJob calls still in progress; with
   none in progress it is the full count.
   */
  lemma NoFalseRejection(s: State, steps: seq<Step>, file: FileId, total: nat, rowsRead: nat)
    requires Reachable(s) && Runs(s, steps)
    requires total <= rowsRead && total <= MAX_INT32
    requires file !in s.failed
    requires forall i :: 0 <= i < total ==> HandedOver(s, Key(file, i))
    ensures var t := After(s, steps);
      var answer := Confirm(Outstanding(s.counter, file), LandedBelow(t.rows, file, rowsRead), total);
      && answer.received >= total - Owed(s, file)
      && (Owed(s, file) == 0 ==> answer.allReceived)
  {
    ReachableInv(s);
    RunKeepsInv(s, steps);
    var t := After(s, steps);
    MissingRowsAreLive(s, file, total);
    LiveBelow(s, file, total);
    assert Balanced(s, file);
    LandedBelowMonotone(s.rows, t.rows, file, total);
    LandedBelowPrefix(t.rows, file, total, rowsRead);
  }

  lemma {:induction false} LandedBelowPrefix(rows: Rows, file: FileId, n: nat, m: nat)
    requires n <= m
    ensures LandedBelow(rows, file, n) <= LandedBelow(rows, file, m)
  {
    if n < m {
      LandedBelowPrefix(rows, file, n, m - 1);
    }
  }

  // ---------------------------------------------------------------- the counter and the jobs

  /** In every reachable state the counter obeys the exact conservation law. */
  lemma CounterConservation(s: State, file: FileId)
    requires Reachable(s)
    ensures Get(s.counter, file) ==
      Live(s, OfFile(file)) - Owed(s, file) + Get(s.leaked, file) + Get(s.clipped, file)
    ensures Get(s.counter, file) >= 0 && Get(s.clipped, file) >= 0
  {
    ReachableInv(s);
    assert Balanced(s, file);
  }

  /** As many decrements are sent as accepted jobs are no longer live and did not leak. */
  lemma DecrementsMatchJobs(s: State, file: FileId)
    requires Reachable(s)
    ensures Get(s.enqueued, file) == Live(s, OfFile(file)) + Get(s.settled, file) + Get(s.leaked, file)
    ensures Live(s, OfFile(file)) == 0 && Get(s.leaked, file) == 0 ==> Get(s.settled, file) == Get(s.enqueued, file)
  {
    ReachableInv(s);
    assert Accounted(s, file);
  }

  /** When everything has drained, the counter key is gone exactly if nothing leaked or was clipped. */
  lemma DrainedCounter(s: State, file: FileId)
    requires Reachable(s)
    requires Live(s, OfFile(file)) == 0 && Owed(s, file) == 0
    ensures file !in s.counter <==> Get(s.leaked, file) == 0 && Get(s.clipped, file) == 0
  {
    ReachableInv(s);
    assert Balanced(s, file);
  }

  /** A decrement that takes effect on `file`. */
  predicate Decrements(s: State, step: Step, file: FileId)
    requires Enabled(s, step)
  {
    step.At? && match step.act
                case Drop(k) => s.insts[step.i].dropping[k].file == file
                case Settle(_, f) => f == file
                case _ => false
  }

  /**
   The run behaves for `file` as if enqueue and increment were one step: no decrement of the
   file happens while one of its increments is owed, and all its jobs are chunks.
   */
  predicate Prompt(s: State, steps: seq<Step>, file: FileId)
    requires Runs(s, steps)
    decreases |steps|
  {
    |steps| > 0 ==>
      && (Decrements(s, steps[0], file) ==> Owed(s, file) == 0)
      && (steps[0].At? && steps[0].act.Enqueue? && steps[0].act.job.file == file ==> steps[0].act.job.chunked)
      && Prompt(Apply(s, steps[0]), steps[1..], file)
  }

  /** No job of `file` anywhere is a non-chunked one. */
  ghost predicate OnlyChunks(s: State, file: FileId) {
    forall i :: 0 <= i < |s.insts| ==> InstOnlyChunks(s.insts[i], file)
  }

  ghost predicate InstOnlyChunks(inst: Instance, file: FileId) {
    && (forall j :: j in inst.jobs && j.file == file ==> j.chunked)
    && (forall j :: j in inst.flight && j.file == file ==> j.chunked)
    && (forall j :: j in inst.delayedQueue && j.file == file ==> j.chunked)
    && (forall j :: j in inst.delayed && j.file == file ==> j.chunked)
  }

  lemma ActKeepsOnlyChunks(inst: Instance, rows: Rows, act: Act, file: FileId)
    requires CanAct(inst, rows, act) && InstOnlyChunks(inst, file)
    requires act.Enqueue? && act.job.file == file ==> act.job.chunked
    ensures InstOnlyChunks(Acted(inst, rows, act), file)
  {
  }

  lemma {:induction false} PromptRunClipsNothing(s: State, steps: seq<Step>, file: FileId)
    requires Inv(s) && Runs(s, steps) && Prompt(s, steps, file) && OnlyChunks(s, file)
    requires Get(s.leaked, file) == Get(s.clipped, file) == 0
    ensures Get(After(s, steps).leaked, file) == Get(After(s, steps).clipped, file) == 0
    decreases |steps|
  {
    if |steps| > 0 {
      var t := Apply(s, steps[0]);
      assert Get(t.leaked, file) == Get(t.clipped, file) == 0 by { PromptStep(s, steps[0], file); }
      StepKeepsInv(s, steps[0]);
      forall i | 0 <= i < |t.insts| ensures InstOnlyChunks(t.insts[i], file) {
        assert InstOnlyChunks(s.insts[i], file);
        if steps[0].At? && steps[0].i == i { ActKeepsOnlyChunks(s.insts[i], s.rows, steps[0].act, file); }
      }
      PromptRunClipsNothing(t, steps[1..], file);
    }
  }

  /** A decrement is never larger than the live count, so it cannot clip a counter nothing is owed to. */
  lemma DecrementFits(s: State, step: Step, file: FileId)
    requires Enabled(s, step) && Decrements(s, step, file)
    ensures Live(s, OfFile(file)) >= if step.act.Drop? then 1 else s.insts[step.i].flushes[step.act.k].todo[file]
  {
    var inst := s.insts[step.i];
    TotalAtLeast(s.insts, step.i, LiveWeight(OfFile(file)));
    if step.act.Drop? {
      TotalAtLeast(inst.dropping, step.act.k, JobWeight(OfFile(file)));
    } else {
      TotalAtLeast(inst.flushes, step.act.k, FlushWeight(OfFile(file)));
    }
  }

  lemma PromptStep(s: State, step: Step, file: FileId)
    requires Inv(s) && Enabled(s, step) && OnlyChunks(s, file)
    requires Decrements(s, step, file) ==> Owed(s, file) == 0
    requires Get(s.leaked, file) == Get(s.clipped, file) == 0
    ensures Get(Apply(s, step).leaked, file) == Get(Apply(s, step).clipped, file) == 0
  {
    if step.At? {
      var inst := s.insts[step.i];
      assert Get(s.counter, file) == Live(s, OfFile(file)) - Owed(s, file) by { assert Balanced(s, file); }
      if Decrements(s, step, file) {
        DecrementFits(s, step, file);
      } else if step.act.Succeed? {
        assert InstOnlyChunks(inst, file);
        assert inst.flight[step.act.k] in inst.flight;
      }
      SharedLeaks(s, inst, step.act, file);
      SharedClips(s, inst, step.act, file);
    }
  }

  /** Which acts can change the leak table of `file`. */
  lemma SharedLeaks(s: State, inst: Instance, act: Act, file: FileId)
    requires CanAct(inst, s.rows, act)
    ensures Get(Shared(s, inst, act).leaked, file) == Get(s.leaked, file)
      + if act.Succeed? && !inst.flight[act.k].chunked && inst.flight[act.k].file == file then 1 else 0
  {
  }

  /** Which acts can change the clip table of `file`. */
  lemma SharedClips(s: State, inst: Instance, act: Act, file: FileId)
    requires CanAct(inst, s.rows, act)
    ensures Get(Shared(s, inst, act).clipped, file) == Get(s.clipped, file)
      + if act.Drop? && inst.dropping[act.k].file == file then Max(0, 1 - Get(s.counter, file))
        else if act.Settle? && act.file == file then Max(0, inst.flushes[act.k].todo[file] - Get(s.counter, file))
        else 0
  {
  }

  /**
   With enqueue and increment as one step, the counter is at all times exactly the number of
   the file's jobs that are queued, in flight, given up but not yet decremented, delayed,
   buffered, or in an unfinished flush.
   */
  lemma PromptCounterIsLiveCount(s0: State, steps: seq<Step>, file: FileId)
    requires Initial(s0) && Runs(s0, steps) && Prompt(s0, steps, file)
    ensures var s := After(s0, steps);
      Get(s.counter, file) + Owed(s, file) == Live(s, OfFile(file))
  {
    InitialInv(s0);
    assert OnlyChunks(s0, file);
    PromptRunClipsNothing(s0, steps, file);
    RunKeepsInv(s0, steps);
    assert Balanced(After(s0, steps), file);
  }

  // ---------------------------------------------------------------- attempts and temp files

  /** A job is processed at most six times, and given up for its attempts only after six. */
  lemma ProcessedAtMostSixTimes(s: State, i: nat)
    requires Reachable(s) && i < |s.insts|
    ensures var inst := s.insts[i];
      && (forall j :: j in inst.jobs + inst.delayedQueue + inst.delayed ==> j.runs <= 5)
      && (forall j :: j in inst.flight + inst.dropping + inst.buffer ==> j.runs <= 6)
      && (forall k :: 0 <= k < |inst.flight| && GivesUp(inst, inst.flight[k]) && |inst.delayedQueue| < QUEUE_CAPACITY
           ==> inst.flight[k].runs == 6)
  {
    ReachableInv(s);
    assert InstanceOk(s.insts[i], s);
  }

  /** The temp file of a chunk none of whose attempts failed is there until its row has landed, unless an
   answered report did not store the row. */
  lemma TempFileOutlivesDrain(s: State, i: nat, key: Key)
    requires Reachable(s) && i < |s.insts|
    requires ChunkTemp(key) in s.insts[i].written && ChunkTemp(key) !in s.insts[i].spoiled
    ensures ChunkTemp(key) in s.insts[i].temp || HasLanded(s.rows, key) || key in s.lost
  {
    ReachableInv(s);
    assert InstanceOk(s.insts[i], s);
  }

  /**
   A failed attempt deletes the temp file, so a retry can only succeed if the chunk's body was
   written again after that: without a fresh upload all five retries fail.
   */
  lemma RetryNeedsRewrite(s: State, i: nat, k: nat)
    requires Reachable(s) && Enabled(s, At(i, Succeed(k)))
    requires s.insts[i].flight[k].attempt > 0
    ensures s.insts[i].flight[k].Temp() in s.insts[i].rewritten
  {
    ReachableInv(s);
    assert InstanceOk(s.insts[i], s);
  }
}
