/** When a chunked file becomes complete. */
module Convergence {
  // In runs without failures and aborts, exactly when all its chunks have landed, whichever of the
  // concurrent calls comes last.

  import opened Sums
  import opened ChunkRows
  import opened Completion

  predicate AllLanded(db: Db, f: FileId)
    requires f < |db.files|
  {
    LandedCount(db, f) == db.files[f].total
  }

  /** A report that still has to look whether `f` is finished. */
  predicate Owes(call: Call, f: FileId) {
    match call
    case Reporting(todo, touched) => f in touched || exists k :: 0 <= k < |todo| && todo[k].file == f
    case Checking(files) => f in files
    case Counting(files) => f in files
    case Flipping(files) => f in files
    case Charging(files, _, _) => |files| > 0 && f in files[1..]
    case _ => false
  }

  /** What a call has seen: it only flips a file all of whose chunks had landed. */
  ghost predicate SawAll(db: Db, call: Call)
    requires CallOk(db, call)
  {
    match call
    case Flipping(files) => AllLanded(db, files[0])
    case Winning(f) => AllLanded(db, f)
    case _ => true
  }

  ghost predicate SomeoneOwes(s: State, f: FileId) {
    exists k :: 0 <= k < |s.calls| && Owes(s.calls[k], f)
  }

  ghost predicate Healthy(file: File) {
    file.status.Uploading? || file.status.Parked? || file.status.Complete?
  }

  ghost predicate Inv(s: State) {
    && Sound(s)
    && (forall k :: 0 <= k < |s.calls| ==> SawAll(s.db, s.calls[k]))
    && (forall f :: 0 <= f < |s.db.files| ==>
         && Healthy(s.db.files[f])
         && (s.db.files[f].status.Complete? ==> AllLanded(s.db, f))
         && (AllLanded(s.db, f) ==> s.db.files[f].status.Complete? || SomeoneOwes(s, f)))
  }

  lemma LandedGrows(db: Db, later: Db, f: FileId)
    requires SameFiles(db, later) && Extends(db.rows, later.rows) && f < |db.files|
    ensures LandedCount(db, f) <= LandedCount(later, f) <= db.files[f].total
    ensures AllLanded(db, f) ==> AllLanded(later, f)
  {
    LandedBelowMonotone(db.rows, later.rows, f, db.files[f].total);
  }

  /** A stored row only changes the count of its own file. */
  lemma LandedElsewhere(db: Db, key: Key, f: FileId)
    requires f < |db.files| && f != key.file
    ensures LandedCount(db.(rows := UpsertResult(db.rows, key)), f) == LandedCount(db, f)
  {
    LandedBelowSame(db.rows, UpsertResult(db.rows, key), f, db.files[f].total);
  }

  lemma {:induction false} LandedBelowSame(rows: Rows, later: Rows, f: FileId, n: nat)
    requires forall i :: 0 <= i < n ==> (HasLanded(rows, Key(f, i)) <==> HasLanded(later, Key(f, i)))
    ensures LandedBelow(rows, f, n) == LandedBelow(later, f, n)
  {
    if n > 0 { LandedBelowSame(rows, later, f, n - 1); }
  }

  /** One statement: what the call saw stays true, and flips only complete landed files. */
  lemma StatementSaw(db: Db, call: Call)
    requires CallOk(db, call) && SawAll(db, call)
    requires forall f :: 0 <= f < |db.files| ==> FlipsOnce(db.files[f])
    ensures CallOk(Executed(db, call).0, Executed(db, call).1)
    ensures SawAll(Executed(db, call).0, Executed(db, call).1)
  {
    StatementIsSound(db, call);
    if call.Counting? { LandedBelowFull(db.rows, call.files[0], db.files[call.files[0]].total); }
    if call.Deciding? { LandedBelowFull(db.rows, call.f, db.files[call.f].total); }
  }

  lemma StatementStatus(db: Db, call: Call, f: FileId)
    requires CallOk(db, call) && SawAll(db, call) && f < |db.files| && Healthy(db.files[f])
    requires db.files[f].status.Complete? ==> AllLanded(db, f)
    requires forall g :: 0 <= g < |db.files| ==> FlipsOnce(db.files[g])
    ensures var db' := Executed(db, call).0;
      && f < |db'.files| && Healthy(db'.files[f])
      && (db'.files[f].status.Complete? ==> AllLanded(db', f))
      && (db.files[f].status.Complete? ==> db'.files[f].status.Complete?)
  {
    StatementIsSound(db, call);
    LandedGrows(db, Executed(db, call).0, f);
  }

  /** If all chunks of `f` have landed after the statement, it is complete or the finalize is still owed. */
  lemma StatementOwes(db: Db, call: Call, f: FileId)
    requires CallOk(db, call) && f < |db.files| && Healthy(db.files[f])
    requires forall g :: 0 <= g < |db.files| ==> FlipsOnce(db.files[g])
    requires Owes(call, f) || (AllLanded(db, f) ==> db.files[f].status.Complete?)
    ensures var (db', call') := Executed(db, call);
      f < |db'.files| && (AllLanded(db', f) ==> db'.files[f].status.Complete? || Owes(call', f))
  {
    match call
    case Reporting(todo, touched) =>
      if |todo| > 0 {
        if todo[0].file != f {
          LandedElsewhere(db, todo[0], f);
          if k :| 0 <= k < |todo| && todo[k].file == f { assert todo[1..][k - 1].file == f; }
        }
      }
    case Counting(files) => LandedBelowFull(db.rows, files[0], db.files[files[0]].total);
    case _ =>
  }

  /** A call that does not owe `f` keeps the others' duty alive; one that does passes it on. */
  lemma ResumeKeepsDuty(s: State, k: nat, f: FileId)
    requires Inv(s) && Enabled(s, Resume(k)) && f < |s.db.files|
    ensures var t := Apply(s, Resume(k));
      f < |t.db.files| && (AllLanded(t.db, f) ==> t.db.files[f].status.Complete? || SomeoneOwes(t, f))
  {
    var call := s.calls[k];
    var t := Apply(s, Resume(k));
    StatementIsSound(s.db, call);
    StatementStatus(s.db, call, f);
    if Owes(call, f) || (AllLanded(s.db, f) ==> s.db.files[f].status.Complete?) {
      StatementOwes(s.db, call, f);
      assert t.calls[k] == Executed(s.db, call).1;
    } else {
      var j :| 0 <= j < |s.calls| && Owes(s.calls[j], f);
      assert t.calls[j] == s.calls[j];
    }
  }

  predicate Benign(step: Step) {
    !step.UploadFailed? && !step.Abort?
  }

  lemma OtherStepKeepsDuty(s: State, step: Step, f: FileId)
    requires Inv(s) && Enabled(s, step) && Benign(step) && !step.Resume? && f < |s.db.files|
    ensures var t := Apply(s, step);
      f < |t.db.files| && (AllLanded(t.db, f) ==> t.db.files[f].status.Complete? || SomeoneOwes(t, f))
  {
    var t := Apply(s, step);
    if step.Buffer? { LandedBelowSame(s.db.rows, t.db.rows, f, s.db.files[f].total); }
    if AllLanded(s.db, f) && SomeoneOwes(s, f) {
      var j :| 0 <= j < |s.calls| && Owes(s.calls[j], f);
      assert t.calls[j] == s.calls[j];
    }
  }

  lemma StepKeepsInv(s: State, step: Step)
    requires Inv(s) && Enabled(s, step) && Benign(step)
    ensures Inv(Apply(s, step))
  {
    var t := Apply(s, step);
    StepKeepsSound(s, step);
    forall k | 0 <= k < |t.calls| ensures SawAll(t.db, t.calls[k]) {
      assert CallOk(t.db, t.calls[k]);
      if step.Resume? && step.k == k {
        StatementSaw(s.db, s.calls[k]);
      } else if k < |s.calls| {
        assert SawAll(s.db, s.calls[k]);
        StaysSeen(s.db, t.db, s.calls[k]);
      }
    }
    forall f | 0 <= f < |t.db.files|
      ensures Healthy(t.db.files[f])
      ensures t.db.files[f].status.Complete? ==> AllLanded(t.db, f)
      ensures AllLanded(t.db, f) ==> t.db.files[f].status.Complete? || SomeoneOwes(t, f)
    {
      LandedGrows(s.db, t.db, f);
      if step.Resume? {
        StatementStatus(s.db, s.calls[step.k], f);
        ResumeKeepsDuty(s, step.k, f);
      } else {
        OtherStepKeepsDuty(s, step, f);
      }
    }
  }

  lemma StaysSeen(db: Db, later: Db, call: Call)
    requires CallOk(db, call) && SawAll(db, call) && CallOk(later, call)
    requires SameFiles(db, later) && Extends(db.rows, later.rows)
    ensures SawAll(later, call)
  {
    if call.Flipping? { LandedGrows(db, later, call.files[0]); }
    if call.Winning? { LandedGrows(db, later, call.f); }
  }

  lemma InitialInv(s: State)
    requires Initial(s)
    ensures Inv(s)
  {
    forall f | 0 <= f < |s.db.files| ensures !AllLanded(s.db, f) {
      LandedBelowFull(s.db.rows, f, s.db.files[f].total);
      assert !HasLanded(s.db.rows, Key(f, 0));
    }
  }

  lemma {:induction false} RunKeepsInv(s: State, steps: seq<Step>)
    requires Inv(s) && Runs(s, steps) && forall step :: step in steps ==> Benign(step)
    ensures Inv(After(s, steps)) && SameFiles(s.db, After(s, steps).db)
    decreases |steps|
  {
    if |steps| > 0 {
      StepKeepsInv(s, steps[0]);
      StepKeepsSound(s, steps[0]);
      RunKeepsInv(Apply(s, steps[0]), steps[1..]);
    }
  }

  /**
   Convergence: whenever no report owes the finalize of a file, the file is complete exactly
   when every one of its indices has landed.  The call of /complete plays no part in this.
   */
  lemma CompleteExactlyWhenLanded(s0: State, steps: seq<Step>, f: FileId)
    requires Initial(s0) && Runs(s0, steps) && f < |s0.db.files|
    requires forall step :: step in steps ==> Benign(step)
    requires !SomeoneOwes(After(s0, steps), f)
    ensures var db := After(s0, steps).db;
      && f < |db.files|
      && (db.files[f].status.Complete? <==> forall i :: 0 <= i < s0.db.files[f].total ==> HasLanded(db.rows, Key(f, i)))
  {
    InitialInv(s0);
    RunKeepsInv(s0, steps);
    var db := After(s0, steps).db;
    LandedBelowFull(db.rows, f, db.files[f].total);
  }

  /** Complete is final unless a failure report or an abort overwrites it: nobody parks over it. */
  lemma CompleteIsStable(s: State, step: Step, f: FileId)
    requires Sound(s) && Enabled(s, step) && Benign(step) && f < |s.db.files| && s.db.files[f].status.Complete?
    ensures f < |Apply(s, step).db.files| && Apply(s, step).db.files[f].status.Complete?
  {
    if step.Resume? { StatementIsSound(s.db, s.calls[step.k]); }
  }

  /** No call at all is left that could complete a file once an upload of it was reported failed. */
  lemma {:induction false} FailedNeverCompletes(s: State, steps: seq<Step>, f: FileId)
    requires Sound(s) && Runs(s, steps) && f < |s.db.files|
    requires s.db.files[f].status.BufferFailed? || s.db.files[f].status.Aborted?
    ensures f < |After(s, steps).db.files|
    ensures var status := After(s, steps).db.files[f].status; status.BufferFailed? || status.Aborted?
    decreases |steps|
  {
    if |steps| > 0 {
      StepKeepsSound(s, steps[0]);
      var t := Apply(s, steps[0]);
      assert t.db.files[f].status.BufferFailed? || t.db.files[f].status.Aborted? by {
        if steps[0].Resume? { FailedIsClosed(s.db, s.calls[steps[0].k], f); }
      }
      FailedNeverCompletes(t, steps[1..], f);
    }
  }

  lemma FailedIsClosed(db: Db, call: Call, f: FileId)
    requires CallOk(db, call) && f < |db.files| && !Healthy(db.files[f])
    ensures f < |Executed(db, call).0.files| && Executed(db, call).0.files[f] == db.files[f]
  {
  }
}
