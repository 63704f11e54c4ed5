/** Every job is decremented exactly once. */
module DrainJobs {
  // Jobs are told apart by their number.  The account is kept over runs: what has been enqueued under a
  // number is live, or has been decremented, or has succeeded without a decrement.

  import opened Sums
  import opened ChunkRows
  import opened Drain
  import opened DrainProofs
  import opened DrainRuns

  // ---------------------------------------------------------------- what a step does to one job

  /** How often the step enqueues a job with the number. */
  function Entries(s: State, step: Step, id: nat): nat
    requires Enabled(s, step)
  {
    match step
    case At(_, Enqueue(job)) => if job.id == id then 1 else 0
    case _ => 0
  }

  /**
   How much the step takes off the counter for the job: a job that was given up takes one, and a flush
   that has grouped its batch will take what the batch holds of it.
   */
  function Decrements(s: State, step: Step, id: nat): nat
    requires Enabled(s, step)
  {
    match step
    case At(i, Drop(k)) => if s.insts[i].dropping[k].id == id then 1 else 0
    case At(i, Group(k)) => Count(s.insts[i].flushes[k].batch, OfJob(id))
    case _ => 0
  }

  /** How often the step ends the job without a decrement. */
  function Leaks(s: State, step: Step, id: nat): nat
    requires Enabled(s, step)
  {
    match step
    case At(i, Succeed(k)) => if !s.insts[i].flight[k].chunked && s.insts[i].flight[k].id == id then 1 else 0
    case _ => 0
  }

  lemma StepAccount(s: State, step: Step, id: nat)
    requires Enabled(s, step)
    ensures Live(Apply(s, step), OfJob(id)) + Decrements(s, step, id) + Leaks(s, step, id)
      == Live(s, OfJob(id)) + Entries(s, step, id)
  {
    match step
    case At(i, act) => StateDelta(s, i, act, OfJob(id));
    case _ =>
  }

  // ---------------------------------------------------------------- runs

  function AllEntries(s: State, steps: seq<Step>, id: nat): nat
    requires Runs(s, steps)
    decreases |steps|
  {
    if |steps| == 0 then 0 else Entries(s, steps[0], id) + AllEntries(Apply(s, steps[0]), steps[1..], id)
  }

  function AllDecrements(s: State, steps: seq<Step>, id: nat): nat
    requires Runs(s, steps)
    decreases |steps|
  {
    if |steps| == 0 then 0 else Decrements(s, steps[0], id) + AllDecrements(Apply(s, steps[0]), steps[1..], id)
  }

  function AllLeaks(s: State, steps: seq<Step>, id: nat): nat
    requires Runs(s, steps)
    decreases |steps|
  {
    if |steps| == 0 then 0 else Leaks(s, steps[0], id) + AllLeaks(Apply(s, steps[0]), steps[1..], id)
  }

  lemma {:induction false} RunAccount(s: State, steps: seq<Step>, id: nat)
    requires Runs(s, steps)
    ensures Live(After(s, steps), OfJob(id)) + AllDecrements(s, steps, id) + AllLeaks(s, steps, id)
      == Live(s, OfJob(id)) + AllEntries(s, steps, id)
    decreases |steps|
  {
    if |steps| > 0 {
      StepAccount(s, steps[0], id);
      RunAccount(Apply(s, steps[0]), steps[1..], id);
    }
  }

  /**
   In every run, a job that was enqueued once is in exactly one of three places: it is live, or it has
   been decremented once, or it has succeeded without a decrement.
   */
  lemma JobDecrementedOnce(s0: State, steps: seq<Step>, id: nat)
    requires Initial(s0) && Runs(s0, steps) && AllEntries(s0, steps, id) == 1
    ensures Live(After(s0, steps), OfJob(id)) + AllDecrements(s0, steps, id) + AllLeaks(s0, steps, id) == 1
  {
    RunAccount(s0, steps, id);
    IdleCountsNothing(s0.insts, OfJob(id));
  }

  /** What a flush then takes off a file is the number of its batch's jobs of that file. */
  lemma GroupedAmounts(s: State, i: nat, k: nat, file: FileId)
    requires Enabled(s, At(i, Group(k)))
    ensures var todo := Apply(s, At(i, Group(k))).insts[i].flushes[k].todo;
      var n := Count(s.insts[i].flushes[k].batch, OfFile(file));
      (file in todo <==> n > 0) && (file in todo ==> todo[file] == n)
  {
    CountsOfRight(s.insts[i].flushes[k].batch, file);
  }
}
