/**
 What every run of the drain protocol keeps.

 The invariant has a conservation law per file (`Balanced`, `Accounted`), a well-formedness condition
 per instance (`InstanceOk`: where jobs are, how often they ran, which temp files are gone and why)
 and a progress condition per chunk (`Held`).  Each part is proved act by act: first how an act moves
 the counts (`Delta`), then that the bookkeeping outside the instance matches, then that the
 instance stays well formed.  `StepKeepsInv` puts the parts together and `ReachableInv` closes the
 induction over runs.
 */
module DrainProofs {
  import opened Sums
  import opened ChunkRows
  import opened Drain

  // ---------------------------------------------------------------- conservation

  /**
   The exact law of the shared counter: it differs from the number of live jobs by the
   increments still owed, the non-chunked jobs that never decrement, and what the
   delete-at-zero rule swallowed.
   */
  ghost predicate Balanced(s: State, file: FileId) {
    Get(s.counter, file) ==
      Live(s, OfFile(file)) - Owed(s, file) + Get(s.leaked, file) + Get(s.clipped, file)
  }

  /** Every accepted job is live, or was decremented once, or is a finished non-chunked job. */
  ghost predicate Accounted(s: State, file: FileId) {
    Get(s.enqueued, file) == Live(s, OfFile(file)) + Get(s.settled, file) + Get(s.leaked, file)
  }

  ghost predicate WellFormedFlush(fl: Flush, rows: Rows, sent: set<Key>, lost: set<Key>) {
    match fl
    case Sending(batch) => forall j :: 0 <= j < |batch| ==> batch[j].chunked && batch[j].ChunkKey() in sent
    case Deleting(batch, removed) =>
      && removed <= |batch|
      && forall j :: 0 <= j < |batch| ==>
           batch[j].chunked && (HasLanded(rows, batch[j].ChunkKey()) || batch[j].ChunkKey() in lost)
    case Settling(_) => true
  }

  /** The retry bookkeeping of one place: how runs and attempts are related there. */
  ghost predicate Fresh(s: seq<Job>) {
    forall k :: 0 <= k < |s| ==> s[k].runs == s[k].attempt <= MAX_ATTEMPT
  }

  ghost predicate Processed(s: seq<Job>) {
    forall k :: 0 <= k < |s| ==> s[k].runs == s[k].attempt + 1 <= MAX_ATTEMPT + 1
  }

  ghost predicate AllChunked(s: seq<Job>) {
    forall k :: 0 <= k < |s| ==> s[k].chunked
  }

  /** A job that is not at its first attempt lost its temp file to the failed one. */
  ghost predicate RetriesSpoiled(s: seq<Job>, spoiled: set<TempKey>) {
    forall k :: 0 <= k < |s| && s[k].attempt > 0 ==> s[k].Temp() in spoiled
  }

  /** Where the jobs of an instance are, and how often each has been processed. */
  ghost predicate JobsOk(inst: Instance, failed: set<FileId>) {
    && Fresh(inst.jobs) && Fresh(inst.delayedQueue) && Fresh(inst.delayed)
    && Processed(inst.flight) && Processed(inst.buffer) && AllChunked(inst.buffer)
    && (forall k :: 0 <= k < |inst.flushes| && inst.flushes[k].Sending? ==> Processed(inst.flushes[k].batch))
    && (forall k :: 0 <= k < |inst.dropping| ==>
         inst.dropping[k].file in failed && inst.dropping[k].runs <= MAX_ATTEMPT + 1)
  }

  ghost predicate FlushesOk(inst: Instance, rows: Rows, sent: set<Key>, lost: set<Key>) {
    forall k :: 0 <= k < |inst.flushes| ==> WellFormedFlush(inst.flushes[k], rows, sent, lost)
  }

  /** Which temp files are still there, and why the others are gone. */
  ghost predicate TempOk(inst: Instance, rows: Rows, lost: set<Key>) {
    && RetriesSpoiled(inst.jobs, inst.spoiled) && RetriesSpoiled(inst.flight, inst.spoiled)
    && RetriesSpoiled(inst.delayedQueue, inst.spoiled) && RetriesSpoiled(inst.delayed, inst.spoiled)
    && inst.rewritten <= inst.spoiled
    && (forall t :: t in inst.spoiled && t !in inst.rewritten ==> t !in inst.temp)
    && (forall key :: ChunkTemp(key) in inst.written && ChunkTemp(key) !in inst.spoiled
         ==> ChunkTemp(key) in inst.temp || HasLanded(rows, key) || key in lost)
  }

  ghost predicate InstanceOk(inst: Instance, s: State) {
    && (forall k :: 0 <= k < |inst.owed| && inst.owed[k].chunked ==> inst.owed[k].ChunkKey() in s.accepted)
    && JobsOk(inst, s.failed) && FlushesOk(inst, s.rows, s.sent, s.lost) && TempOk(inst, s.rows, s.lost)
  }

  /** A chunk that some AddJob took is landed or live, unless its file was reported failed or it was lost. */
  ghost predicate Held(s: State, key: Key) {
    key in s.accepted && key.file !in s.failed && key !in s.lost ==> HasLanded(s.rows, key) || Live(s, OfChunk(key)) > 0
  }

  /** A counter key exists only while positive; the history tables never go negative. */
  ghost predicate Signs(s: State) {
    && (forall file :: file in s.counter ==> s.counter[file] > 0)
    && (forall file :: Get(s.leaked, file) >= 0 && Get(s.clipped, file) >= 0 && Get(s.settled, file) >= 0)
  }

  ghost predicate Inv(s: State) {
    && (forall file :: Balanced(s, file) && Accounted(s, file))
    && Signs(s)
    && (forall i :: 0 <= i < |s.insts| ==> InstanceOk(s.insts[i], s))
    && (forall key :: Held(s, key))
    && s.returned <= s.accepted
  }

  // ---------------------------------------------------------------- how an act moves the counts

  /** The change of the live count on the instance of the act. */
  function Delta(inst: Instance, rows: Rows, act: Act, q: Query): int
    requires CanAct(inst, rows, act)
  {
    match act
    case Enqueue(job) => JobWeight(q)(job)
    case Succeed(k) => if inst.flight[k].chunked then 0 else -(JobWeight(q)(inst.flight[k]) as int)
    case Drop(k) => -(JobWeight(q)(inst.dropping[k]) as int)
    case Group(k) => if !q.OfFile? then -(Count(inst.flushes[k].batch, q) as int) else 0
    case Settle(k, file) => if q == OfFile(file) then -(inst.flushes[k].todo[file] as int) else 0
    case _ => 0
  }

  lemma {:induction false} CountsOfRight(batch: seq<Job>, file: FileId)
    ensures file in CountsOf(batch) <==> Count(batch, OfFile(file)) > 0
    ensures file in CountsOf(batch) ==> CountsOf(batch)[file] == Count(batch, OfFile(file))
  {
    TotalPositive(batch, JobWeight(OfFile(file)));
    assert forall k :: 0 <= k < |batch| ==> (JobWeight(OfFile(file))(batch[k]) > 0 <==> batch[k].file == file);
    if file in CountsOf(batch) {
      var k :| 0 <= k < |batch| && batch[k].file == file;
      assert JobWeight(OfFile(file))(batch[k]) > 0;
    }
    if Count(batch, OfFile(file)) > 0 {
      var k :| 0 <= k < |batch| && JobWeight(OfFile(file))(batch[k]) > 0;
      assert batch[k].file == file;
    }
  }

  /** Moving the element at `k` to the end of another list. */
  lemma MoveKeeps(a: seq<Job>, k: nat, b: seq<Job>, job: Job, q: Query)
    requires k < |a| && (Matches(q, job) <==> Matches(q, a[k]))
    ensures Count(Without(a, k), q) + Count(b + [job], q) == Count(a, q) + Count(b, q)
    ensures Count(Without(a, k), q) + JobWeight(q)(job) == Count(a, q)
  {
    TotalWithout(a, k, JobWeight(q));
    TotalAppend(b, job, JobWeight(q));
  }

  /** Receiving from the front of a channel. */
  lemma PopKeeps(a: seq<Job>, b: seq<Job>, job: Job, q: Query)
    requires |a| > 0 && (Matches(q, job) <==> Matches(q, a[0]))
    ensures Count(a[1..], q) + Count(b + [job], q) == Count(a, q) + Count(b, q)
  {
    TotalAppend(b, job, JobWeight(q));
  }

  lemma SucceedDelta(inst: Instance, k: nat, q: Query)
    requires k < |inst.flight|
    ensures InstLive(Succeeded(inst, k), q) ==
      InstLive(inst, q) - if inst.flight[k].chunked then 0 else JobWeight(q)(inst.flight[k])
  {
    MoveKeeps(inst.flight, k, inst.buffer, inst.flight[k], q);
  }

  lemma FailDelta(inst: Instance, k: nat, q: Query)
    requires k < |inst.flight|
    ensures InstLive(Failed(inst, k), q) == InstLive(inst, q)
  {
    var job := inst.flight[k];
    MoveKeeps(inst.flight, k, inst.dropping, job, q);
    MoveKeeps(inst.flight, k, inst.delayedQueue, job.(attempt := job.attempt + 1), q);
  }

  lemma PoolDelta(inst: Instance, rows: Rows, act: Act, q: Query)
    requires act.Enqueue? || act.Take? || act.Drop? || act.Collect? || act.Promote?
    requires CanAct(inst, rows, act)
    ensures InstLive(Acted(inst, rows, act), q) == InstLive(inst, q) + Delta(inst, rows, act, q)
  {
    match act
    case Enqueue(job) => TotalAppend(inst.jobs, job, JobWeight(q));
    case Take => PopKeeps(inst.jobs, inst.flight, inst.jobs[0].(runs := inst.jobs[0].runs + 1), q);
    case Drop(k) => TotalWithout(inst.dropping, k, JobWeight(q));
    case Collect => PopKeeps(inst.delayedQueue, inst.delayed, inst.delayedQueue[0], q);
    case Promote(k) => MoveKeeps(inst.delayed, k, inst.jobs, inst.delayed[k], q);
  }

  lemma RpcFailedDelta(inst: Instance, k: nat, q: Query)
    requires k < |inst.flushes| && inst.flushes[k].Sending?
    ensures Total(Without(inst.flushes, k), FlushWeight(q)) + Count(inst.flushes[k].batch + inst.buffer, q)
      == Total(inst.flushes, FlushWeight(q)) + Count(inst.buffer, q)
  {
    TotalWithout(inst.flushes, k, FlushWeight(q));
    TotalConcat(inst.flushes[k].batch, inst.buffer, JobWeight(q));
  }

  lemma GroupDelta(inst: Instance, k: nat, q: Query)
    requires k < |inst.flushes| && inst.flushes[k].Deleting?
    ensures Total(inst.flushes[k := Settling(CountsOf(inst.flushes[k].batch))], FlushWeight(q))
      == Total(inst.flushes, FlushWeight(q)) - if !q.OfFile? then Count(inst.flushes[k].batch, q) else 0
  {
    var batch := inst.flushes[k].batch;
    TotalUpdate(inst.flushes, k, Settling(CountsOf(batch)), FlushWeight(q));
    if q.OfFile? { CountsOfRight(batch, q.file); }
  }

  lemma ProgressDelta(inst: Instance, rows: Rows, act: Act, q: Query)
    requires act.RpcAnswered? || act.RemoveTemp? || act.Settle?
    requires CanAct(inst, rows, act)
    ensures InstLive(Acted(inst, rows, act), q) == InstLive(inst, q) + Delta(inst, rows, act, q)
  {
    var fl := inst.flushes[act.k];
    var next :=
      if act.RpcAnswered? then Deleting(fl.batch, 0)
      else if act.RemoveTemp? then fl.(removed := fl.removed + 1)
      else Settling(fl.todo - {act.file});
    TotalUpdate(inst.flushes, act.k, next, FlushWeight(q));
  }

  lemma FlushDelta(inst: Instance, rows: Rows, act: Act, q: Query)
    requires act.BeginFlush? || act.RpcFailed? || act.RpcAnswered? || act.RemoveTemp? || act.Group? || act.Settle?
    requires CanAct(inst, rows, act)
    ensures InstLive(Acted(inst, rows, act), q) == InstLive(inst, q) + Delta(inst, rows, act, q)
  {
    if act.RpcAnswered? || act.RemoveTemp? || act.Settle? {
      ProgressDelta(inst, rows, act, q);
    } else if act.BeginFlush? {
      TotalAppend(inst.flushes, Sending(inst.buffer), FlushWeight(q));
    } else if act.RpcFailed? {
      RpcFailedDelta(inst, act.k, q);
    } else {
      GroupDelta(inst, act.k, q);
    }
  }

  lemma ActDelta(inst: Instance, rows: Rows, act: Act, q: Query)
    requires CanAct(inst, rows, act)
    ensures InstLive(Acted(inst, rows, act), q) == InstLive(inst, q) + Delta(inst, rows, act, q)
  {
    match act
    case WriteTemp(_) =>
    case Incr(_) =>
    case Succeed(k) => SucceedDelta(inst, k, q);
    case Fail(k) => FailDelta(inst, k, q);
    case Enqueue(_) => PoolDelta(inst, rows, act, q);
    case Take => PoolDelta(inst, rows, act, q);
    case Drop(_) => PoolDelta(inst, rows, act, q);
    case Collect => PoolDelta(inst, rows, act, q);
    case Promote(_) => PoolDelta(inst, rows, act, q);
    case _ => FlushDelta(inst, rows, act, q);
  }

  function OwedDelta(inst: Instance, rows: Rows, act: Act, file: FileId): int
    requires CanAct(inst, rows, act)
  {
    match act
    case Enqueue(job) => if job.file == file then 1 else 0
    case Incr(k) => if inst.owed[k].file == file then -1 else 0
    case _ => 0
  }

  lemma ActOwed(inst: Instance, rows: Rows, act: Act, file: FileId)
    requires CanAct(inst, rows, act)
    ensures Count(Acted(inst, rows, act).owed, OfFile(file)) ==
      Count(inst.owed, OfFile(file)) + OwedDelta(inst, rows, act, file)
  {
    if act.Enqueue? { TotalAppend(inst.owed, act.job, JobWeight(OfFile(file))); }
    if act.Incr? { TotalWithout(inst.owed, act.k, JobWeight(OfFile(file))); }
  }

  lemma StateDelta(s: State, i: nat, act: Act, q: Query)
    requires Enabled(s, At(i, act))
    ensures Live(Apply(s, At(i, act)), q) == Live(s, q) + Delta(s.insts[i], s.rows, act, q)
    ensures q.OfFile? ==>
      Owed(Apply(s, At(i, act)), q.file) == Owed(s, q.file) + OwedDelta(s.insts[i], s.rows, act, q.file)
  {
    var inst := s.insts[i];
    var next := Acted(inst, s.rows, act);
    ActDelta(inst, s.rows, act, q);
    TotalUpdate(s.insts, i, next, LiveWeight(q));
    if q.OfFile? {
      ActOwed(inst, s.rows, act, q.file);
      TotalUpdate(s.insts, i, next, OwedWeight(q.file));
    }
  }

  /** Counter, minus what never comes back: the part of the balance the shared tables hold. */
  function NetCounter(s: State, file: FileId): int {
    Get(s.counter, file) - Get(s.leaked, file) - Get(s.clipped, file)
  }

  function NetEnqueued(s: State, file: FileId): int {
    Get(s.enqueued, file) - Get(s.settled, file) - Get(s.leaked, file)
  }

  lemma DecrementMatches(s: State, of: FileId, n: nat, file: FileId)
    ensures var t := Decrement(s, of, n);
      && NetCounter(t, file) == NetCounter(s, file) - (if of == file then n else 0)
      && NetEnqueued(t, file) == NetEnqueued(s, file) - (if of == file then n else 0)
  {
  }

  /** The bookkeeping outside the instance matches the change of the counts. */
  predicate Tallies(s: State, inst: Instance, act: Act, file: FileId)
    requires CanAct(inst, s.rows, act)
  {
    var t := Shared(s, inst, act);
    && NetCounter(t, file) == NetCounter(s, file)
        + Delta(inst, s.rows, act, OfFile(file)) - OwedDelta(inst, s.rows, act, file)
    && NetEnqueued(t, file) == NetEnqueued(s, file) + Delta(inst, s.rows, act, OfFile(file))
  }

  lemma EnqueueTallies(s: State, inst: Instance, act: Act, file: FileId)
    requires act.Enqueue? && CanAct(inst, s.rows, act)
    ensures Tallies(s, inst, act, file)
  {
    assert Delta(inst, s.rows, act, OfFile(file)) == OwedDelta(inst, s.rows, act, file);
  }

  lemma IncrTallies(s: State, inst: Instance, act: Act, file: FileId)
    requires act.Incr? && CanAct(inst, s.rows, act)
    ensures Tallies(s, inst, act, file)
  {
  }

  lemma SucceedTallies(s: State, inst: Instance, act: Act, file: FileId)
    requires act.Succeed? && CanAct(inst, s.rows, act)
    ensures Tallies(s, inst, act, file)
  {
  }

  lemma DecrementTallies(s: State, inst: Instance, act: Act, file: FileId)
    requires act.Drop? || act.Settle?
    requires CanAct(inst, s.rows, act)
    ensures Tallies(s, inst, act, file)
  {
    if act.Drop? {
      DecrementMatches(s, inst.dropping[act.k].file, 1, file);
    } else {
      DecrementMatches(s, act.file, inst.flushes[act.k].todo[act.file], file);
    }
  }

  lemma SharedMatches(s: State, inst: Instance, act: Act, file: FileId)
    requires CanAct(inst, s.rows, act)
    ensures Tallies(s, inst, act, file)
  {
    if act.Enqueue? {
      EnqueueTallies(s, inst, act, file);
    } else if act.Incr? {
      IncrTallies(s, inst, act, file);
    } else if act.Succeed? {
      SucceedTallies(s, inst, act, file);
    } else if act.Drop? || act.Settle? {
      DecrementTallies(s, inst, act, file);
    }
  }

  lemma StepKeepsBalance(s: State, step: Step, file: FileId)
    requires Enabled(s, step)
    requires Balanced(s, file) && Accounted(s, file)
    ensures Balanced(Apply(s, step), file) && Accounted(Apply(s, step), file)
  {
    match step
    case At(i, act) =>
      StateDelta(s, i, act, OfFile(file));
      SharedMatches(s, s.insts[i], act, file);
      assert NetCounter(Apply(s, step), file) == NetCounter(Shared(s, s.insts[i], act), file);
    case _ =>
  }

  // ---------------------------------------------------------------- what a step keeps

  lemma PoolKeepsJobs(inst: Instance, rows: Rows, act: Act, failed: set<FileId>)
    requires act.Enqueue? || act.Take? || act.Collect? || act.Promote? || act.Drop?
    requires CanAct(inst, rows, act) && JobsOk(inst, failed)
    ensures JobsOk(Acted(inst, rows, act), failed)
  {
    match act
    case Enqueue(_) =>
    case Take =>
    case Collect =>
    case Promote(_) =>
    case Drop(_) =>
  }

  lemma SucceedKeepsJobs(inst: Instance, k: nat, failed: set<FileId>)
    requires k < |inst.flight| && JobsOk(inst, failed)
    ensures JobsOk(Succeeded(inst, k), failed)
  {
  }

  lemma FailKeepsJobs(inst: Instance, k: nat, failed: set<FileId>)
    requires k < |inst.flight| && JobsOk(inst, failed)
    requires GivesUp(inst, inst.flight[k]) ==> inst.flight[k].file in failed
    ensures JobsOk(Failed(inst, k), failed)
  {
  }

  lemma FlushKeepsJobs(inst: Instance, rows: Rows, act: Act, failed: set<FileId>)
    requires act.BeginFlush? || act.RpcFailed? || act.RpcAnswered? || act.RemoveTemp? || act.Group? || act.Settle?
    requires CanAct(inst, rows, act) && JobsOk(inst, failed)
    requires forall k :: 0 <= k < |inst.flushes| && inst.flushes[k].Sending? ==> AllChunked(inst.flushes[k].batch)
    ensures JobsOk(Acted(inst, rows, act), failed)
  {
    match act
    case BeginFlush =>
    case RpcFailed(k) => assert Processed(inst.flushes[k].batch + inst.buffer);
    case RpcAnswered(_) =>
    case RemoveTemp(_) =>
    case Group(_) =>
    case Settle(_, _) =>
  }

  lemma ActKeepsJobs(s: State, i: nat, act: Act)
    requires Enabled(s, At(i, act)) && JobsOk(s.insts[i], s.failed) && FlushesOk(s.insts[i], s.rows, s.sent, s.lost)
    ensures JobsOk(Acted(s.insts[i], s.rows, act), Shared(s, s.insts[i], act).failed)
  {
    var inst := s.insts[i];
    var failed := Shared(s, inst, act).failed;
    assert s.failed <= failed;
    match act
    case WriteTemp(_) =>
    case Incr(_) =>
    case Succeed(k) => SucceedKeepsJobs(inst, k, failed);
    case Fail(k) => FailKeepsJobs(inst, k, failed);
    case Enqueue(_) => PoolKeepsJobs(inst, s.rows, act, failed);
    case Take => PoolKeepsJobs(inst, s.rows, act, failed);
    case Collect => PoolKeepsJobs(inst, s.rows, act, failed);
    case Promote(_) => PoolKeepsJobs(inst, s.rows, act, failed);
    case Drop(_) => PoolKeepsJobs(inst, s.rows, act, failed);
    case _ => FlushKeepsJobs(inst, s.rows, act, failed);
  }

  lemma ActKeepsFlushes(s: State, i: nat, act: Act)
    requires Enabled(s, At(i, act)) && JobsOk(s.insts[i], s.failed) && FlushesOk(s.insts[i], s.rows, s.sent, s.lost)
    ensures var t := Shared(s, s.insts[i], act); FlushesOk(Acted(s.insts[i], s.rows, act), s.rows, t.sent, t.lost)
  {
    var inst := s.insts[i];
    var next := Acted(inst, s.rows, act);
    var sent, lost := Shared(s, inst, act).sent, Shared(s, inst, act).lost;
    assert s.sent <= sent && s.lost <= lost;
    forall k | 0 <= k < |next.flushes| ensures WellFormedFlush(next.flushes[k], s.rows, sent, lost) {
      match act
      case BeginFlush => if k < |inst.flushes| { assert WellFormedFlush(inst.flushes[k], s.rows, s.sent, s.lost); }
      case RpcFailed(j) =>
        assert WellFormedFlush(inst.flushes[if k < j then k else k + 1], s.rows, s.sent, s.lost);
      case RpcAnswered(j) => assert WellFormedFlush(inst.flushes[k], s.rows, s.sent, s.lost);
      case RemoveTemp(j) => assert WellFormedFlush(inst.flushes[k], s.rows, s.sent, s.lost);
      case _ =>
    }
  }

  lemma PoolKeepsTemp(inst: Instance, rows: Rows, lost: set<Key>, act: Act)
    requires act.WriteTemp? || act.Enqueue? || act.Take? || act.Collect? || act.Promote?
    requires CanAct(inst, rows, act) && TempOk(inst, rows, lost)
    ensures TempOk(Acted(inst, rows, act), rows, lost)
  {
    match act
    case WriteTemp(_) =>
    case Enqueue(_) =>
    case Take =>
    case Collect =>
    case Promote(_) =>
  }

  lemma WorkerKeepsTemp(inst: Instance, rows: Rows, lost: set<Key>, k: nat)
    requires k < |inst.flight| && TempOk(inst, rows, lost)
    ensures TempOk(Succeeded(inst, k), rows, lost)
    ensures TempOk(Failed(inst, k), rows, lost)
  {
  }

  lemma ActKeepsTemp(inst: Instance, rows: Rows, sent: set<Key>, lost: set<Key>, act: Act)
    requires CanAct(inst, rows, act) && TempOk(inst, rows, lost) && FlushesOk(inst, rows, sent, lost)
    ensures TempOk(Acted(inst, rows, act), rows, lost)
  {
    match act
    case WriteTemp(_) => PoolKeepsTemp(inst, rows, lost, act);
    case Enqueue(_) => PoolKeepsTemp(inst, rows, lost, act);
    case Take => PoolKeepsTemp(inst, rows, lost, act);
    case Collect => PoolKeepsTemp(inst, rows, lost, act);
    case Promote(_) => PoolKeepsTemp(inst, rows, lost, act);
    case Succeed(k) => WorkerKeepsTemp(inst, rows, lost, k);
    case Fail(k) => WorkerKeepsTemp(inst, rows, lost, k);
    case RemoveTemp(k) =>
      var fl := inst.flushes[k];
      assert WellFormedFlush(fl, rows, sent, lost);
      assert fl.batch[fl.removed].Temp() == ChunkTemp(fl.batch[fl.removed].ChunkKey());
    case _ =>
  }

  lemma TempOkGrows(inst: Instance, rows: Rows, lost: set<Key>, more: set<Key>)
    requires TempOk(inst, rows, lost) && lost <= more
    ensures TempOk(inst, rows, more)
  {
  }

  /** More rows, more sent and lost keys and more failed files never hurt an instance. */
  lemma InstanceOkMonotone(inst: Instance, s: State, t: State)
    requires InstanceOk(inst, s)
    requires Extends(s.rows, t.rows) && s.sent <= t.sent && s.failed <= t.failed
    requires s.accepted <= t.accepted && s.lost <= t.lost
    ensures InstanceOk(inst, t)
  {
    forall k | 0 <= k < |inst.flushes| ensures WellFormedFlush(inst.flushes[k], t.rows, t.sent, t.lost) {
      assert WellFormedFlush(inst.flushes[k], s.rows, s.sent, s.lost);
    }
  }

  lemma SharedOnlyAdds(s: State, inst: Instance, act: Act)
    requires CanAct(inst, s.rows, act)
    ensures var t := Shared(s, inst, act);
      && t.rows == s.rows && t.insts == s.insts && s.sent <= t.sent && s.failed <= t.failed
      && s.accepted <= t.accepted && s.lost <= t.lost
  {
    match act
    case Enqueue(_) =>
    case Incr(_) =>
    case Succeed(_) =>
    case Fail(_) =>
    case Drop(_) =>
    case Settle(_, _) =>
    case _ =>
  }

  lemma StepOnlyAdds(s: State, step: Step)
    requires Enabled(s, step)
    ensures var t := Apply(s, step);
      && Extends(s.rows, t.rows) && s.sent <= t.sent && s.failed <= t.failed
      && s.accepted <= t.accepted && s.lost <= t.lost
  {
    match step
    case At(i, act) => SharedOnlyAdds(s, s.insts[i], act);
    case Upsert(key) => UpsertsExtend(s.rows, key);
    case PlaceHolder(key) => UpsertsExtend(s.rows, key);
    case DirectReport(key) => UpsertsExtend(s.rows, key);
  }

  lemma ActKeepsInstance(s: State, i: nat, act: Act)
    requires Enabled(s, At(i, act)) && InstanceOk(s.insts[i], s)
    ensures InstanceOk(Acted(s.insts[i], s.rows, act), Apply(s, At(i, act)))
  {
    var t := Apply(s, At(i, act));
    var shared := Shared(s, s.insts[i], act);
    SharedOnlyAdds(s, s.insts[i], act);
    assert t.rows == s.rows && t.failed == shared.failed && t.sent == shared.sent;
    assert t.accepted == shared.accepted && t.lost == shared.lost;
    ActKeepsJobs(s, i, act);
    ActKeepsFlushes(s, i, act);
    ActKeepsTemp(s.insts[i], s.rows, s.sent, s.lost, act);
    TempOkGrows(Acted(s.insts[i], s.rows, act), s.rows, s.lost, t.lost);
    OwedAccepted(s, i, act);
  }

  lemma OwedAccepted(s: State, i: nat, act: Act)
    requires Enabled(s, At(i, act))
    requires forall k :: 0 <= k < |s.insts[i].owed| && s.insts[i].owed[k].chunked ==>
      s.insts[i].owed[k].ChunkKey() in s.accepted
    ensures var owed := Acted(s.insts[i], s.rows, act).owed;
      forall k :: 0 <= k < |owed| && owed[k].chunked ==> owed[k].ChunkKey() in Shared(s, s.insts[i], act).accepted
  {
  }

  lemma StepKeepsInstances(s: State, step: Step)
    requires Enabled(s, step)
    requires forall i :: 0 <= i < |s.insts| ==> InstanceOk(s.insts[i], s)
    ensures var t := Apply(s, step); forall i :: 0 <= i < |t.insts| ==> InstanceOk(t.insts[i], t)
  {
    var t := Apply(s, step);
    StepOnlyAdds(s, step);
    forall i | 0 <= i < |t.insts| ensures InstanceOk(t.insts[i], t) {
      if step.At? && step.i == i {
        ActKeepsInstance(s, i, step.act);
      } else {
        InstanceOkMonotone(s.insts[i], s, t);
      }
    }
  }

  /** The live count of a chunk only falls when its row has landed, its file has failed or it was lost. */
  lemma DeltaOfChunk(s: State, i: nat, act: Act, key: Key)
    requires Enabled(s, At(i, act)) && InstanceOk(s.insts[i], s)
    requires Delta(s.insts[i], s.rows, act, OfChunk(key)) < 0
    ensures key.file in s.failed || HasLanded(s.rows, key) || key in s.lost
  {
    var inst := s.insts[i];
    if act.Group? {
      var batch := inst.flushes[act.k].batch;
      assert WellFormedFlush(inst.flushes[act.k], s.rows, s.sent, s.lost);
      TotalPositive(batch, JobWeight(OfChunk(key)));
      var j :| 0 <= j < |batch| && JobWeight(OfChunk(key))(batch[j]) > 0;
      assert batch[j].ChunkKey() == key;
    }
  }

  lemma ActKeepsHeld(s: State, i: nat, act: Act, key: Key)
    requires Enabled(s, At(i, act)) && Held(s, key) && InstanceOk(s.insts[i], s)
    requires key in s.accepted
    ensures Held(Apply(s, At(i, act)), key)
  {
    StepOnlyAdds(s, At(i, act));
    StateDelta(s, i, act, OfChunk(key));
    if Delta(s.insts[i], s.rows, act, OfChunk(key)) < 0 {
      DeltaOfChunk(s, i, act, key);
    }
  }

  /** The only way to become accepted is to be enqueued, and that job is live. */
  lemma AcceptedIsHeld(s: State, i: nat, act: Act, key: Key)
    requires Enabled(s, At(i, act))
    requires key !in s.accepted && key in Apply(s, At(i, act)).accepted
    ensures Live(Apply(s, At(i, act)), OfChunk(key)) > 0
  {
    StateDelta(s, i, act, OfChunk(key));
    assert act.Enqueue? && act.job.chunked && act.job.ChunkKey() == key;
  }

  lemma StepKeepsHeld(s: State, step: Step, key: Key)
    requires Enabled(s, step) && Held(s, key)
    requires forall i :: 0 <= i < |s.insts| ==> InstanceOk(s.insts[i], s)
    ensures Held(Apply(s, step), key)
  {
    if step.At? {
      if key in s.accepted {
        ActKeepsHeld(s, step.i, step.act, key);
      } else if key in Apply(s, step).accepted {
        AcceptedIsHeld(s, step.i, step.act, key);
      }
    } else {
      StepOnlyAdds(s, step);
    }
  }

  lemma SharedKeepsSigns(s: State, inst: Instance, act: Act)
    requires CanAct(inst, s.rows, act) && Signs(s)
    ensures Signs(Shared(s, inst, act))
  {
    match act
    case Drop(k) => DecrementKeepsSigns(s, inst.dropping[k].file, 1);
    case Settle(k, file) => DecrementKeepsSigns(s, file, inst.flushes[k].todo[file]);
    case _ =>
  }

  lemma DecrementKeepsSigns(s: State, file: FileId, n: nat)
    requires Signs(s)
    ensures Signs(Decrement(s, file, n))
  {
    var t := Decrement(s, file, n);
    forall f ensures Get(t.leaked, f) >= 0 && Get(t.clipped, f) >= 0 && Get(t.settled, f) >= 0 {
      assert Get(s.leaked, f) >= 0 && Get(s.clipped, f) >= 0 && Get(s.settled, f) >= 0;
    }
  }

  lemma StepKeepsInv(s: State, step: Step)
    requires Enabled(s, step) && Inv(s)
    ensures Inv(Apply(s, step))
  {
    var t := Apply(s, step);
    forall file ensures Balanced(t, file) && Accounted(t, file) { StepKeepsBalance(s, step, file); }
    forall key ensures Held(t, key) { StepKeepsHeld(s, step, key); }
    StepKeepsShared(s, step);
    StepKeepsInstances(s, step);
  }

  /** The parts of the invariant that are about the shared tables alone. */
  lemma StepKeepsShared(s: State, step: Step)
    requires Enabled(s, step) && Inv(s)
    ensures Signs(Apply(s, step)) && Apply(s, step).returned <= Apply(s, step).accepted
  {
    if step.At? {
      SharedKeepsSigns(s, s.insts[step.i], step.act);
      ReturnedAccepted(s, step.i, step.act);
    }
  }

  lemma ReturnedAccepted(s: State, i: nat, act: Act)
    requires Enabled(s, At(i, act)) && InstanceOk(s.insts[i], s) && s.returned <= s.accepted
    ensures Shared(s, s.insts[i], act).returned <= Shared(s, s.insts[i], act).accepted
  {
  }

  lemma {:induction false} IdleCountsNothing(insts: seq<Instance>, q: Query)
    requires forall i :: 0 <= i < |insts| ==> Idle(insts[i])
    ensures Total(insts, LiveWeight(q)) == 0
    ensures q.OfFile? ==> Total(insts, OwedWeight(q.file)) == 0
  {
    if |insts| > 0 {
      IdleCountsNothing(insts[1..], q);
      assert Idle(insts[0]);
    }
  }

  lemma InitialInv(s: State)
    requires Initial(s)
    ensures Inv(s)
  {
    forall file ensures Balanced(s, file) && Accounted(s, file) { IdleCountsNothing(s.insts, OfFile(file)); }
  }

  /** Every run keeps the invariant, and what has been added is never taken back. */
  lemma {:induction false} RunKeepsInv(s: State, steps: seq<Step>)
    requires Inv(s) && Runs(s, steps)
    ensures var t := After(s, steps);
      && Inv(t) && Extends(s.rows, t.rows) && s.failed <= t.failed
      && s.accepted <= t.accepted && s.lost <= t.lost
    decreases |steps|
  {
    if |steps| > 0 {
      StepKeepsInv(s, steps[0]);
      StepOnlyAdds(s, steps[0]);
      RunKeepsInv(Apply(s, steps[0]), steps[1..]);
    }
  }

  lemma ReachableInv(s: State)
    requires Reachable(s)
    ensures Inv(s)
  {
    var s0, steps :| Initial(s0) && Runs(s0, steps) && After(s0, steps) == s;
    InitialInv(s0);
    RunKeepsInv(s0, steps);
  }
}
