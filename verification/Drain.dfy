/**
 The drain protocol of a chunked upload: any number of transfer instances take chunks from
 clients, push them to Telegram and report them in batches, while a shared counter per file
 says how many accepted chunks are not yet durable.

 One `Step` is one atomic action of the original: a channel send, a Redis command, one row
 upsert, one temp-file deletion.  Everything between two steps may be interleaved with the
 steps of any other goroutine or instance.
 */
module Drain {
  import opened Sums
  import opened ChunkRows

  /**
   `queue.ChunkJob`.  The last two fields are history: how often a worker has processed the job, and a
   number that tells it from other jobs of the same chunk.
   */
  datatype Job = Job(file: FileId, index: nat, chunked: bool, attempt: nat, runs: nat, id: nat) {
    function ChunkKey(): Key { Key(file, index) }
    function Temp(): TempKey { if chunked then ChunkTemp(ChunkKey()) else FileTemp(file) }
  }

  /** Names of temp files: `chunk/{file}/{index}.tmp`, or the single blob of a whole file. */
  datatype TempKey = ChunkTemp(key: Key) | FileTemp(file: FileId)

  /** A running call of `BatchReporter.Flush`, after it has taken the buffer. */
  datatype Flush =
    | Sending(batch: seq<Job>)
    | Deleting(batch: seq<Job>, removed: nat)
    | Settling(todo: map<FileId, nat>)

  /** One transfer process.  The last three fields are history. */
  datatype Instance = Instance(
    workers: nat,
    jobs: seq<Job>,          // WorkerPool.jobs
    owed: seq<Job>,          // AddJob calls that have enqueued but not yet incremented
    flight: seq<Job>,        // jobs held by workers
    dropping: seq<Job>,      // reported as failed, not yet decremented
    delayedQueue: seq<Job>,  // WorkerPool.delayedQueue
    delayed: seq<Job>,       // the local slice of manageDelayedQueue
    buffer: seq<Job>,        // BatchReporter.buffer
    flushes: seq<Flush>,
    temp: set<TempKey>,
    written: set<TempKey>,   // ever written
    spoiled: set<TempKey>,   // deleted by a failed attempt
    rewritten: set<TempKey>) // written again after that

  /** The counter tables and sets after `rows` are history, except `counter` itself. */
  datatype State = State(
    insts: seq<Instance>,
    counter: map<FileId, int>,   // the Redis keys upload:outstanding:{file}
    rows: Rows,
    sent: set<Key>,              // chunks some flush has put into an RPC
    accepted: set<Key>,          // chunks some AddJob has enqueued
    returned: set<Key>,          // chunks for which some AddJob has returned
    failed: set<FileId>,         // files for which ReportUploadFailed was sent
    lost: set<Key>,              // chunks whose report was answered although their row had not landed
    enqueued: map<FileId, int>,
    settled: map<FileId, int>,   // jobs whose decrement has been sent
    leaked: map<FileId, int>,    // non-chunked jobs that succeeded
    clipped: map<FileId, int>)   // how much decrements lost to the delete-at-zero rule

  const QUEUE_SOFT_LIMIT: nat := 900
  const QUEUE_CAPACITY: nat := 1000
  const MAX_ATTEMPT: nat := 5
  const MAX_INT32: int := 0x7fff_ffff

  // ---------------------------------------------------------------- the Redis counter

  /** A missing key reads as zero. */
  function Get(m: map<FileId, int>, file: FileId): int {
    if file in m then m[file] else 0
  }

  function Bump(m: map<FileId, int>, file: FileId, n: int): map<FileId, int> {
    m[file := Get(m, file) + n]
  }

  /** `decrOutstandingScript`: decrement, and delete the key once it is not positive. */
  function Decremented(m: map<FileId, int>, file: FileId, n: nat): map<FileId, int> {
    var v := Get(m, file) - n;
    if v <= 0 then m - {file} else m[file := v]
  }

  /** `getOutstanding`: clamped to the range of a non-negative int32. */
  function Outstanding(m: map<FileId, int>, file: FileId): int {
    var v := Get(m, file);
    if v < 0 then 0 else if v > MAX_INT32 then MAX_INT32 else v
  }

  function Max(a: int, b: int): int { if a > b then a else b }

  // ---------------------------------------------------------------- counting jobs

  datatype Query = OfFile(file: FileId) | OfChunks(file: FileId, lo: nat, hi: nat) | OfJob(id: nat)

  predicate Matches(q: Query, j: Job) {
    match q
    case OfFile(file) => j.file == file
    case OfChunks(file, lo, hi) => j.chunked && j.file == file && lo <= j.index < hi
    case OfJob(id) => j.id == id
  }

  function OfChunk(key: Key): Query {
    OfChunks(key.file, key.index, key.index + 1)
  }

  function JobWeight(q: Query): Job -> nat {
    (j: Job) => if Matches(q, j) then 1 else 0
  }

  function Count(s: seq<Job>, q: Query): nat {
    Total(s, JobWeight(q))
  }

  function FlushWeight(q: Query): Flush -> nat {
    (f: Flush) =>
      match f
      case Sending(batch) => Count(batch, q)
      case Deleting(batch, _) => Count(batch, q)
      case Settling(todo) => if q.OfFile? && q.file in todo then todo[q.file] else 0
  }

  /** Jobs of an instance that have not been decremented yet, wherever they are. */
  function InstLive(inst: Instance, q: Query): nat {
    Count(inst.jobs, q) + Count(inst.flight, q) + Count(inst.dropping, q) + Count(inst.delayedQueue, q)
    + Count(inst.delayed, q) + Count(inst.buffer, q) + Total(inst.flushes, FlushWeight(q))
  }

  function LiveWeight(q: Query): Instance -> nat {
    (inst: Instance) => InstLive(inst, q)
  }

  function Live(s: State, q: Query): nat {
    Total(s.insts, LiveWeight(q))
  }

  function OwedWeight(file: FileId): Instance -> nat {
    (inst: Instance) => Count(inst.owed, OfFile(file))
  }

  /** AddJob calls for `file` that are between the channel send and the increment. */
  function Owed(s: State, file: FileId): nat {
    Total(s.insts, OwedWeight(file))
  }

  // ---------------------------------------------------------------- steps

  /** What one goroutine does on one instance. */
  datatype Act =
    | WriteTemp(name: TempKey)   // the upload handler stores the body
    | Enqueue(job: Job)          // AddJob: p.jobs <- job; the length check came before
    | Incr(k: nat)               // AddJob: incrOutstanding
    | Take                       // worker: job := <-p.jobs
    | Succeed(k: nat)            // ProcessInternalChunk returns nil
    | Fail(k: nat)               // ProcessInternalChunk returns an error
    | Drop(k: nat)               // worker: decrOutstanding after ReportFailure
    | Collect                    // manager: job := <-p.delayedQueue
    | Promote(k: nat)            // manager tick: p.jobs <- item.job
    | BeginFlush                 // Flush takes the buffer
    | RpcFailed(k: nat)          // ReportChunkResults returned an error
    | RpcAnswered(k: nat)        // ReportChunkResults returned
    | RemoveTemp(k: nat)         // Flush deletes the next temp file of its batch
    | Group(k: nat)              // Flush has grouped the batch per file
    | Settle(k: nat, file: FileId)  // Flush: decrOutstanding(file, n)

  datatype Step =
    | At(i: nat, act: Act)
    | Upsert(key: Key)           // the server stores one reported row
    | PlaceHolder(key: Key)      // reportChunkBuffered stores one row
    | DirectReport(key: Key)     // a streamed chunk is reported without a job

  /** The per-file sizes of a batch. */
  function CountsOf(batch: seq<Job>): map<FileId, nat> {
    map file | file in (set k | 0 <= k < |batch| :: batch[k].file) :: Count(batch, OfFile(file))
  }

  function KeysOf(batch: seq<Job>): set<Key> {
    set k | 0 <= k < |batch| :: batch[k].ChunkKey()
  }

  /** The chunks of a batch that have no landed row: the server skips an upsert that fails. */
  function Unstored(batch: seq<Job>, rows: Rows): set<Key> {
    set key | key in KeysOf(batch) && !HasLanded(rows, key)
  }

  predicate Enabled(s: State, step: Step) {
    match step
    case At(i, act) => i < |s.insts| && CanAct(s.insts[i], s.rows, act)
    case Upsert(key) => key in s.sent
    case PlaceHolder(_) => true
    case DirectReport(_) => true
  }

  predicate CanAct(inst: Instance, rows: Rows, act: Act) {
    match act
    case WriteTemp(_) => true
    case Enqueue(job) => |inst.jobs| < QUEUE_CAPACITY && job.attempt == 0 && job.runs == 0
    case Incr(k) => k < |inst.owed|
    case Take => |inst.jobs| > 0 && |inst.flight| < inst.workers
    case Succeed(k) => k < |inst.flight| && inst.flight[k].Temp() in inst.temp
    case Fail(k) => k < |inst.flight|
    case Drop(k) => k < |inst.dropping|
    case Collect => |inst.delayedQueue| > 0
    case Promote(k) => k < |inst.delayed| && |inst.jobs| < QUEUE_CAPACITY
    case BeginFlush => |inst.buffer| > 0
    case RpcFailed(k) => k < |inst.flushes| && inst.flushes[k].Sending?
    case RpcAnswered(k) => k < |inst.flushes| && inst.flushes[k].Sending?
    case RemoveTemp(k) =>
      && k < |inst.flushes| && inst.flushes[k].Deleting?
      && inst.flushes[k].removed < |inst.flushes[k].batch|
    case Group(k) =>
      && k < |inst.flushes| && inst.flushes[k].Deleting?
      && inst.flushes[k].removed == |inst.flushes[k].batch|
    case Settle(k, file) =>
      k < |inst.flushes| && inst.flushes[k].Settling? && file in inst.flushes[k].todo
  }

  /** What an act does to its instance. */
  function Acted(inst: Instance, rows: Rows, act: Act): Instance
    requires CanAct(inst, rows, act)
  {
    match act
    case WriteTemp(name) =>
      inst.(temp := inst.temp + {name}, written := inst.written + {name},
            rewritten := if name in inst.spoiled then inst.rewritten + {name} else inst.rewritten)
    case Enqueue(job) => inst.(jobs := inst.jobs + [job], owed := inst.owed + [job])
    case Incr(k) => inst.(owed := Without(inst.owed, k))
    case Take =>
      var job := inst.jobs[0];
      inst.(jobs := inst.jobs[1..], flight := inst.flight + [job.(runs := job.runs + 1)])
    case Succeed(k) => Succeeded(inst, k)
    case Fail(k) => Failed(inst, k)
    case Drop(k) => inst.(dropping := Without(inst.dropping, k))
    case Collect =>
      inst.(delayedQueue := inst.delayedQueue[1..], delayed := inst.delayed + [inst.delayedQueue[0]])
    case Promote(k) =>
      inst.(delayed := Without(inst.delayed, k), jobs := inst.jobs + [inst.delayed[k]])
    case BeginFlush => inst.(buffer := [], flushes := inst.flushes + [Sending(inst.buffer)])
    case RpcFailed(k) =>
      inst.(flushes := Without(inst.flushes, k), buffer := inst.flushes[k].batch + inst.buffer)
    case RpcAnswered(k) =>
      inst.(flushes := inst.flushes[k := Deleting(inst.flushes[k].batch, 0)])
    case RemoveTemp(k) =>
      var fl := inst.flushes[k];
      inst.(flushes := inst.flushes[k := fl.(removed := fl.removed + 1)],
            temp := inst.temp - {fl.batch[fl.removed].Temp()})
    case Group(k) =>
      inst.(flushes := inst.flushes[k := Settling(CountsOf(inst.flushes[k].batch))])
    case Settle(k, file) =>
      inst.(flushes := inst.flushes[k := Settling(inst.flushes[k].todo - {file})])
  }

  /** A chunk's result and temp file go to the reporter; any other temp file is deleted. */
  function Succeeded(inst: Instance, k: nat): Instance
    requires k < |inst.flight|
  {
    var job := inst.flight[k];
    var left := inst.(flight := Without(inst.flight, k));
    if job.chunked then left.(buffer := inst.buffer + [job]) else left.(temp := inst.temp - {job.Temp()})
  }

  /**
   A failed attempt: the deferred clean-up has deleted the temp file; the worker retries
   through the delayed queue, or gives the job up when that is full or the attempts are used.
   */
  function Failed(inst: Instance, k: nat): Instance
    requires k < |inst.flight|
  {
    var job := inst.flight[k];
    var left := inst.(flight := Without(inst.flight, k),
                      temp := inst.temp - {job.Temp()}, spoiled := inst.spoiled + {job.Temp()});
    if GivesUp(inst, job) then left.(dropping := inst.dropping + [job])
    else left.(delayedQueue := inst.delayedQueue + [job.(attempt := job.attempt + 1)])
  }

  predicate GivesUp(inst: Instance, job: Job) {
    job.attempt >= MAX_ATTEMPT || |inst.delayedQueue| >= QUEUE_CAPACITY
  }

  /** What an act on `inst` does outside the instance. */
  function Shared(s: State, inst: Instance, act: Act): State
    requires CanAct(inst, s.rows, act)
  {
    match act
    case Enqueue(job) =>
      s.(enqueued := Bump(s.enqueued, job.file, 1),
         accepted := if job.chunked then s.accepted + {job.ChunkKey()} else s.accepted)
    case Incr(k) =>
      var job := inst.owed[k];
      s.(counter := Bump(s.counter, job.file, 1),
         returned := if job.chunked then s.returned + {job.ChunkKey()} else s.returned)
    case Succeed(k) =>
      if inst.flight[k].chunked then s else s.(leaked := Bump(s.leaked, inst.flight[k].file, 1))
    case Fail(k) =>
      if GivesUp(inst, inst.flight[k]) then s.(failed := s.failed + {inst.flight[k].file}) else s
    case Drop(k) => Decrement(s, inst.dropping[k].file, 1)
    case BeginFlush => s.(sent := s.sent + KeysOf(inst.buffer))
    case RpcAnswered(k) => s.(lost := s.lost + Unstored(inst.flushes[k].batch, s.rows))
    case Settle(k, file) => Decrement(s, file, inst.flushes[k].todo[file])
    case _ => s
  }

  /** One run of the decrement script, with its bookkeeping. */
  function Decrement(s: State, file: FileId, n: nat): State {
    s.(counter := Decremented(s.counter, file, n), settled := Bump(s.settled, file, n),
       clipped := Bump(s.clipped, file, Max(0, n - Get(s.counter, file))))
  }

  function Apply(s: State, step: Step): State
    requires Enabled(s, step)
  {
    match step
    case At(i, act) => Shared(s, s.insts[i], act).(insts := s.insts[i := Acted(s.insts[i], s.rows, act)])
    case Upsert(key) => s.(rows := UpsertResult(s.rows, key))
    case PlaceHolder(key) => s.(rows := UpsertBuffered(s.rows, key))
    case DirectReport(key) => s.(rows := UpsertResult(s.rows, key))
  }

  // ---------------------------------------------------------------- runs

  predicate Idle(inst: Instance) {
    && inst.jobs == inst.owed == inst.flight == inst.dropping == inst.delayedQueue == inst.delayed == inst.buffer == []
    && inst.flushes == []
    && inst.temp == inst.written == inst.spoiled == inst.rewritten == {}
  }

  /** Nothing has been uploaded yet; rows of earlier, finished uploads may exist. */
  predicate Initial(s: State) {
    && (forall i :: 0 <= i < |s.insts| ==> Idle(s.insts[i]))
    && s.counter == s.enqueued == s.settled == s.leaked == s.clipped == map[]
    && s.sent == s.accepted == s.returned == s.lost == {} && s.failed == {}
  }

  /** Every step of `steps` is enabled in turn. */
  predicate Runs(s: State, steps: seq<Step>)
    decreases |steps|
  {
    |steps| > 0 ==> Enabled(s, steps[0]) && Runs(Apply(s, steps[0]), steps[1..])
  }

  function After(s: State, steps: seq<Step>): State
    requires Runs(s, steps)
    decreases |steps|
  {
    if |steps| == 0 then s else After(Apply(s, steps[0]), steps[1..])
  }

  /** A state some run from an initial state ends in. */
  ghost predicate Reachable(s: State) {
    exists s0, steps :: Initial(s0) && Runs(s0, steps) && After(s0, steps) == s
  }

  // ---------------------------------------------------------------- FlushAndConfirm

  datatype Confirmation = Confirmation(completed: int, received: int, allComplete: bool, allReceived: bool)

  /** The answer computed from the counter and from the rows, which are read at different times. */
  function Confirm(outstanding: int, completed: int, total: int): Confirmation {
    var received := if completed + outstanding > total then total else completed + outstanding;
    Confirmation(completed, received, completed == total, received == total)
  }
}
