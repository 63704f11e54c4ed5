/** Completing a chunked file and charging its owner. */
module Completion {
  // Any number of `reportChunkResults` and `completeChunkedUpload` calls, interleaved statement by
  // statement (backend/src/grpc/grpc-core.controller.ts, backend/src/file/upload-session.service.ts).

  import opened Sums
  import opened ChunkRows

  datatype Status = Uploading | Parked | Complete | BufferFailed | Aborted

  /** A FileRecord; `flipped` is history: some call has won the flip to complete. */
  datatype File = File(status: Status, total: nat, size: nat, owner: nat, flipped: bool)

  /** `files` is indexed by file number, `used` is the quota counter of each user. */
  datatype Db = Db(files: seq<File>, rows: Rows, used: map<nat, int>)

  function Used(db: Db, user: nat): int {
    if user in db.used then db.used[user] else 0
  }

  // ---------------------------------------------------------------- single statements

  /** `fileRecord.updateMany` with the guard `status in (uploading, buffered)`. */
  predicate CanFlip(file: File) {
    file.status.Uploading? || file.status.Parked?
  }

  function Flip(db: Db, f: FileId): Db
    requires f < |db.files|
  {
    if CanFlip(db.files[f]) then db.(files := db.files[f := db.files[f].(status := Complete, flipped := true)]) else db
  }

  /** `fileRecord.updateMany` with the guard `status = uploading`. */
  function Park(db: Db, f: FileId): Db
    requires f < |db.files|
  {
    if db.files[f].status.Uploading? then db.(files := db.files[f := db.files[f].(status := Parked)]) else db
  }

  /** `user.update` with `usedSpace: increment`. */
  function Charge(db: Db, user: nat, size: nat): Db {
    db.(used := db.used[user := Used(db, user) + size])
  }

  /** The two statements that store a status without looking at the old one. */
  function Mark(db: Db, f: FileId, status: Status): Db
    requires f < |db.files|
  {
    db.(files := db.files[f := db.files[f].(status := status)])
  }

  /** `fileChunk.count` of landed rows; row indices lie below the declared total. */
  function LandedCount(db: Db, f: FileId): nat
    requires f < |db.files|
  {
    LandedBelow(db.rows, f, db.files[f].total)
  }

  // ---------------------------------------------------------------- calls in progress

  /** Where a call is: the statement it executes next. */
  datatype Call =
    | Reporting(todo: seq<Key>, touched: seq<FileId>)  // upserts left, files touched so far
    | Checking(files: seq<FileId>)                     // next: read the record of files[0]
    | Counting(files: seq<FileId>)                     // next: count the landed rows of files[0]
    | Flipping(files: seq<FileId>)                     // next: the guarded flip of files[0]
    | Charging(files: seq<FileId>, user: nat, size: nat)  // won files[0]; next: charge its owner
    | Rereading(f: FileId)                             // /complete, all received: read the record
    | Deciding(f: FileId)                              // /complete: read the rows
    | Winning(f: FileId)                               // /complete: the guarded flip
    | Parking(f: FileId)                               // /complete: the guarded park
    | Paying(user: nat, size: nat)                     // /complete: charge the owner

  datatype State = State(db: Db, calls: seq<Call>)

  datatype Step =
    | Report(results: seq<Key>)           // a reportChunkResults call arrives
    | Confirmed(f: FileId)                // a /complete call has been told "all received"
    | Resume(k: nat)                      // call k executes its next statement
    | Buffer(key: Key)                    // reportChunkBuffered stores one row
    | UploadFailed(f: FileId)             // reportUploadFailed overwrites the status
    | Abort(f: FileId)                    // abortUpload overwrites the status

  predicate KeyOk(db: Db, key: Key) {
    key.file < |db.files| && key.index < db.files[key.file].total
  }

  predicate Enabled(s: State, step: Step) {
    match step
    case Report(results) => forall k :: 0 <= k < |results| ==> KeyOk(s.db, results[k])
    case Confirmed(f) => f < |s.db.files| && !s.db.files[f].status.Complete?
    case Resume(k) => k < |s.calls| && CallOk(s.db, s.calls[k])
    case Buffer(key) => KeyOk(s.db, key)
    case UploadFailed(f) => f < |s.db.files|
    case Abort(f) => f < |s.db.files|
  }

  predicate Known(db: Db, files: seq<FileId>) {
    forall k :: 0 <= k < |files| ==> files[k] < |db.files|
  }

  /** The files a call mentions exist. */
  predicate CallOk(db: Db, call: Call) {
    match call
    case Reporting(todo, touched) =>
      (forall k :: 0 <= k < |todo| ==> KeyOk(db, todo[k])) && Known(db, touched)
    case Checking(files) => Known(db, files)
    case Counting(files) => |files| > 0 && Known(db, files)
    case Flipping(files) => |files| > 0 && Known(db, files)
    case Charging(files, _, _) => |files| > 0 && Known(db, files)
    case Rereading(f) => f < |db.files|
    case Deciding(f) => f < |db.files|
    case Winning(f) => f < |db.files|
    case Parking(f) => f < |db.files|
    case Paying(_, _) => true
  }

  function AddOnce(files: seq<FileId>, f: FileId): seq<FileId> {
    if f in files then files else files + [f]
  }

  /** The statement call `call` executes, and where it continues; a finished call checks nothing. */
  function Executed(db: Db, call: Call): (Db, Call)
    requires CallOk(db, call)
  {
    match call
    case Reporting(todo, touched) =>
      if |todo| == 0 then (db, Checking(touched))
      else (db.(rows := UpsertResult(db.rows, todo[0])), Reporting(todo[1..], AddOnce(touched, todo[0].file)))
    case Checking(files) =>
      if |files| == 0 then (db, call)
      else
        var status := db.files[files[0]].status;
        if status.Complete? || status.Aborted? then (db, Checking(files[1..])) else (db, Counting(files))
    case Counting(files) =>
      var f := files[0];
      if LandedCount(db, f) < db.files[f].total then (db, Checking(files[1..])) else (db, Flipping(files))
    case Flipping(files) =>
      var f := files[0];
      if CanFlip(db.files[f]) then (Flip(db, f), Charging(files, db.files[f].owner, db.files[f].size))
      else (Flip(db, f), Checking(files[1..]))
    case Charging(files, user, size) => (Charge(db, user, size), Checking(files[1..]))
    case Rereading(f) =>
      (db, if db.files[f].status.Complete? then Checking([]) else Deciding(f))
    case Deciding(f) =>
      (db, if LandedCount(db, f) >= db.files[f].total then Winning(f) else Parking(f))
    case Winning(f) =>
      (Flip(db, f), if CanFlip(db.files[f]) then Paying(db.files[f].owner, db.files[f].size) else Checking([]))
    case Parking(f) => (Park(db, f), Checking([]))
    case Paying(user, size) => (Charge(db, user, size), Checking([]))
  }

  function Apply(s: State, step: Step): State
    requires Enabled(s, step)
  {
    match step
    case Report(results) => s.(calls := s.calls + [Reporting(results, [])])
    case Confirmed(f) => s.(calls := s.calls + [Rereading(f)])
    case Resume(k) =>
      var (db, call) := Executed(s.db, s.calls[k]);
      State(db, s.calls[k := call])
    case Buffer(key) => s.(db := s.db.(rows := UpsertBuffered(s.db.rows, key)))
    case UploadFailed(f) => s.(db := Mark(s.db, f, BufferFailed))
    case Abort(f) => s.(db := Mark(s.db, f, Aborted))
  }

  /** Fresh chunked uploads (`initChunkedUpload`), no call in progress. */
  predicate Initial(s: State) {
    && (forall f :: 0 <= f < |s.db.files| ==>
         s.db.files[f].status.Uploading? && !s.db.files[f].flipped && s.db.files[f].total > 0)
    && s.db.rows == map[]
    && s.calls == []
  }

  predicate Runs(s: State, steps: seq<Step>)
    decreases |steps|
  {
    |steps| > 0 ==> Enabled(s, steps[0]) && Runs(Apply(s, steps[0]), steps[1..])
  }

  function After(s: State, steps: seq<Step>): State
    requires Runs(s, steps)
    decreases |steps|
  {
    if |steps| == 0 then s else After(Apply(s, steps[0]), steps[1..])
  }

  // ---------------------------------------------------------------- exactly-once charging

  /** Bytes a call has won the right to charge `user` for, but not charged yet. */
  function PendingWeight(user: nat): Call -> nat {
    (call: Call) => if (call.Charging? || call.Paying?) && call.user == user then call.size else 0
  }

  /** Bytes of the files of `user` that were flipped to complete. */
  function FlippedWeight(user: nat): File -> nat {
    (file: File) => if file.flipped && file.owner == user then file.size else 0
  }

  /** What `user` has been charged, plus what is about to be charged, is what was completed. */
  ghost predicate ChargedOnce(s: State, base: map<nat, int>, user: nat) {
    Used(s.db, user) + Total(s.calls, PendingWeight(user))
      == (if user in base then base[user] else 0) + Total(s.db.files, FlippedWeight(user))
  }

  /** A flipped file can never be flipped again, and only a flip completes a file. */
  ghost predicate FlipsOnce(file: File) {
    (file.flipped ==> !CanFlip(file)) && (file.status.Complete? ==> file.flipped)
  }

  ghost predicate Sound(s: State) {
    && (forall k :: 0 <= k < |s.calls| ==> CallOk(s.db, s.calls[k]))
    && (forall f :: 0 <= f < |s.db.files| ==> FlipsOnce(s.db.files[f]))
  }

  lemma FlipCharges(db: Db, f: FileId, user: nat)
    requires f < |db.files| && FlipsOnce(db.files[f])
    ensures Total(Flip(db, f).files, FlippedWeight(user)) == Total(db.files, FlippedWeight(user))
      + if CanFlip(db.files[f]) && db.files[f].owner == user then db.files[f].size else 0
  {
    TotalUpdate(db.files, f, db.files[f].(status := Complete, flipped := true), FlippedWeight(user));
  }

  lemma MarkCharges(db: Db, f: FileId, status: Status, user: nat)
    requires f < |db.files|
    ensures Total(Mark(db, f, status).files, FlippedWeight(user)) == Total(db.files, FlippedWeight(user))
  {
    TotalUpdate(db.files, f, db.files[f].(status := status), FlippedWeight(user));
  }

  /** One statement moves bytes from "flipped" to "pending" to "charged" without loss. */
  lemma StatementCharges(db: Db, call: Call, user: nat)
    requires CallOk(db, call) && forall f :: 0 <= f < |db.files| ==> FlipsOnce(db.files[f])
    ensures var (db', call') := Executed(db, call);
      Used(db', user) + PendingWeight(user)(call') - Total(db'.files, FlippedWeight(user))
        == Used(db, user) + PendingWeight(user)(call) - Total(db.files, FlippedWeight(user))
  {
    match call
    case Flipping(files) => FlipCharges(db, files[0], user);
    case Winning(f) => FlipCharges(db, f, user);
    case Parking(f) => MarkCharges(db, f, Parked, user);
    case _ =>
  }

  lemma StepKeepsCharges(s: State, step: Step, base: map<nat, int>, user: nat)
    requires Enabled(s, step) && Sound(s) && ChargedOnce(s, base, user)
    ensures ChargedOnce(Apply(s, step), base, user)
  {
    match step
    case Report(results) => TotalAppend(s.calls, Reporting(results, []), PendingWeight(user));
    case Confirmed(f) => TotalAppend(s.calls, Rereading(f), PendingWeight(user));
    case Resume(k) =>
      StatementCharges(s.db, s.calls[k], user);
      TotalUpdate(s.calls, k, Executed(s.db, s.calls[k]).1, PendingWeight(user));
    case Buffer(_) =>
    case UploadFailed(f) => MarkCharges(s.db, f, BufferFailed, user);
    case Abort(f) => MarkCharges(s.db, f, Aborted, user);
  }

  /** The same files, with the same owners and sizes. */
  ghost predicate SameFiles(db: Db, later: Db) {
    && |db.files| == |later.files|
    && forall f :: 0 <= f < |db.files| ==>
         var a, b := db.files[f], later.files[f];
         a.total == b.total && a.size == b.size && a.owner == b.owner
  }

  lemma StatementIsSound(db: Db, call: Call)
    requires CallOk(db, call) && forall f :: 0 <= f < |db.files| ==> FlipsOnce(db.files[f])
    ensures var (db', call') := Executed(db, call);
      && SameFiles(db, db') && Extends(db.rows, db'.rows) && CallOk(db', call')
      && forall f :: 0 <= f < |db'.files| ==> FlipsOnce(db'.files[f])
  {
  }

  lemma StepKeepsSound(s: State, step: Step)
    requires Enabled(s, step) && Sound(s)
    ensures Sound(Apply(s, step)) && SameFiles(s.db, Apply(s, step).db) && Extends(s.db.rows, Apply(s, step).db.rows)
  {
    var t := Apply(s, step);
    if step.Resume? { StatementIsSound(s.db, s.calls[step.k]); }
    forall k | 0 <= k < |t.calls| ensures CallOk(t.db, t.calls[k]) {
      if k < |s.calls| && !(step.Resume? && step.k == k) { assert CallOk(s.db, s.calls[k]); }
    }
  }

  lemma {:induction false} RunCharges(s: State, steps: seq<Step>, base: map<nat, int>, user: nat)
    requires Runs(s, steps) && Sound(s) && ChargedOnce(s, base, user)
    ensures Sound(After(s, steps)) && ChargedOnce(After(s, steps), base, user)
    decreases |steps|
  {
    if |steps| > 0 {
      StepKeepsSound(s, steps[0]);
      StepKeepsCharges(s, steps[0], base, user);
      RunCharges(Apply(s, steps[0]), steps[1..], base, user);
    }
  }

  lemma {:induction false} NothingFlipped(files: seq<File>, user: nat)
    requires forall f :: 0 <= f < |files| ==> !files[f].flipped
    ensures Total(files, FlippedWeight(user)) == 0
  {
    if |files| > 0 { NothingFlipped(files[1..], user); }
  }

  /**
   Over every run, failures and aborts included: a user's quota counter has grown by the sizes
   of the files flipped to complete, each counted once, less what winning calls still owe; and
   no flipped file is ever open for a second flip.
   */
  lemma StorageChargedExactlyOnce(s0: State, steps: seq<Step>, user: nat)
    requires Initial(s0) && Runs(s0, steps)
    ensures var s := After(s0, steps);
      && Used(s.db, user)
         == Used(s0.db, user) + Total(s.db.files, FlippedWeight(user)) - Total(s.calls, PendingWeight(user))
      && forall f :: 0 <= f < |s.db.files| ==> FlipsOnce(s.db.files[f])
  {
    NothingFlipped(s0.db.files, user);
    RunCharges(s0, steps, s0.db.used, user);
  }
}
