/**
 The objects of one transfer instance, each method run without interference, tied to the
 functions the protocol model uses for the same code.
 */
module TransferService {
  import opened Wrappers
  import opened Sums
  import opened ChunkRows
  import opened Drain

  /** The Redis keys of outstanding_counter.go. */
  class OutstandingCounter {
    var keys: map<FileId, int>

    constructor ()
      ensures keys == map[]
    {
      keys := map[];
    }

    method Incr(file: FileId)
      modifies this
      ensures keys == Bump(old(keys), file, 1)
    {
      keys := keys[file := (if file in keys then keys[file] else 0) + 1];
    }

    /** `decrOutstanding`: the script writes the difference and deletes a key that is not positive. */
    method Decr(file: FileId, n: int)
      modifies this
      ensures n <= 0 ==> keys == old(keys)
      ensures n > 0 ==> keys == Decremented(old(keys), file, n)
      ensures n > 0 && Get(old(keys), file) >= 0 ==> Get(keys, file) == Max(0, Get(old(keys), file) - n)
      ensures n > 0 ==> (file in keys <==> Get(old(keys), file) > n) && keys - {file} == old(keys) - {file}
    {
      if n <= 0 {
        return;
      }
      var v := (if file in keys then keys[file] else 0) - n;
      keys := keys[file := v];
      if v <= 0 {
        keys := keys - {file};
      }
    }

    method Read(file: FileId) returns (r: int)
      ensures r == Outstanding(keys, file) && 0 <= r <= 0x7fff_ffff
      ensures file !in keys ==> r == 0
      ensures file in keys ==>
        r == if keys[file] < 0 then 0 else if keys[file] > 0x7fff_ffff then 0x7fff_ffff else keys[file]
    {
      if file !in keys {
        return 0;
      }
      r := keys[file];
      if r < 0 {
        r := 0;
      } else if r > MAX_INT32 {
        r := MAX_INT32;
      }
    }
  }

  datatype DelayedItem = DelayedItem(job: Job, at: nat)

  function JobsOf(items: seq<DelayedItem>): seq<Job> {
    seq(|items|, k requires 0 <= k < |items| => items[k].job)
  }

  /** The jobs whose delay is over, in order. */
  function DueJobs(items: seq<DelayedItem>, now: nat): seq<Job> {
    if |items| == 0 then []
    else if now > items[0].at then [items[0].job] + DueJobs(items[1..], now)
    else DueJobs(items[1..], now)
  }

  /** The items that stay when the channel has room for `room` more jobs. */
  function Leftover(items: seq<DelayedItem>, now: nat, room: nat): seq<DelayedItem> {
    if |items| == 0 then []
    else if now > items[0].at && room > 0 then Leftover(items[1..], now, room - 1)
    else [items[0]] + Leftover(items[1..], now, room)
  }

  function Prefix(s: seq<Job>, n: nat): seq<Job> {
    if n < |s| then s[..n] else s
  }

  class WorkerPool {
    const counter: OutstandingCounter
    var jobs: seq<Job>
    var delayedQueue: seq<Job>
    var delayed: seq<DelayedItem>

    constructor (counter: OutstandingCounter)
      ensures this.counter == counter && jobs == [] && delayedQueue == [] && delayed == []
    {
      this.counter := counter;
      jobs, delayedQueue, delayed := [], [], [];
    }

    method AddJob(job: Job) returns (accepted: bool)
      modifies this`jobs, counter
      ensures accepted <==> |old(jobs)| < 900
      ensures accepted ==> jobs == old(jobs) + [job] && counter.keys == Bump(old(counter.keys), job.file, 1)
      ensures !accepted ==> jobs == old(jobs) && counter.keys == old(counter.keys)
    {
      if |jobs| >= QUEUE_SOFT_LIMIT {
        return false;
      }
      jobs := jobs + [job];
      counter.Incr(job.file);
      return true;
    }

    /** The worker's error branch: one more attempt, or the job is given up and decremented. */
    method Retry(job: Job) returns (reported: bool)
      modifies this`delayedQueue, counter
      ensures reported <==> job.attempt >= 5 || |old(delayedQueue)| >= 1000
      ensures !reported ==> delayedQueue == old(delayedQueue) + [job.(attempt := job.attempt + 1)]
                            && counter.keys == old(counter.keys)
      ensures reported ==>
        delayedQueue == old(delayedQueue) && counter.keys == Decremented(old(counter.keys), job.file, 1)
    {
      if job.attempt < MAX_ATTEMPT {
        var again := job.(attempt := job.attempt + 1);
        if |delayedQueue| < QUEUE_CAPACITY {
          delayedQueue := delayedQueue + [again];
          return false;
        }
      }
      counter.Decr(job.file, 1);
      return true;
    }

    /** manageDelayedQueue, first case: the delay doubles with every attempt. */
    method Collect(now: nat)
      requires |delayedQueue| > 0
      modifies this`delayedQueue, this`delayed
      ensures delayedQueue == old(delayedQueue)[1..]
      ensures var job := old(delayedQueue)[0];
        delayed == old(delayed) + [DelayedItem(job, now + Power2(job.attempt) * 1000)]
      ensures var delays := [1000, 2000, 4000, 8000, 16000, 32000];
        var job := old(delayedQueue)[0];
        job.attempt < |delays| ==> delayed[|delayed| - 1].at == now + delays[job.attempt]
    {
      FirstPowers();
      var job := delayedQueue[0];
      delayedQueue := delayedQueue[1..];
      var factor := 1;
      for a := 0 to job.attempt
        invariant factor == Power2(a)
      {
        factor := factor * 2;
      }
      delayed := delayed + [DelayedItem(job, now + factor * 1000)];
    }

    /** manageDelayedQueue, ticker case: due items go to the channel while it has room. */
    method Tick(now: nat)
      requires |jobs| <= QUEUE_CAPACITY
      modifies this`jobs, this`delayed
      ensures jobs == old(jobs) + Prefix(DueJobs(old(delayed), now), QUEUE_CAPACITY - |old(jobs)|)
      ensures delayed == Leftover(old(delayed), now, QUEUE_CAPACITY - |old(jobs)|)
      ensures |jobs| <= 1000
      ensures |jobs| - |old(jobs)| + |delayed| == |old(delayed)|
      ensures forall item :: item in old(delayed) && now <= item.at ==> item in delayed
      ensures |jobs| < 1000 ==> forall item :: item in delayed ==> now <= item.at
    {
      TickMeans(delayed, now, QUEUE_CAPACITY - |jobs|);
      Promote(now);
    }

    /** The loop of a tick. */
    method Promote(now: nat)
      requires |jobs| <= QUEUE_CAPACITY
      modifies this`jobs, this`delayed
      ensures jobs == old(jobs) + Prefix(DueJobs(old(delayed), now), QUEUE_CAPACITY - |old(jobs)|)
      ensures delayed == Leftover(old(delayed), now, QUEUE_CAPACITY - |old(jobs)|)
    {
      var remaining: seq<DelayedItem> := [];
      var items := delayed;
      for k := 0 to |items|
        invariant |jobs| <= QUEUE_CAPACITY && delayed == items
        invariant jobs + Prefix(DueJobs(items[k..], now), QUEUE_CAPACITY - |jobs|)
          == old(jobs) + Prefix(DueJobs(items, now), QUEUE_CAPACITY - |old(jobs)|)
        invariant remaining + Leftover(items[k..], now, QUEUE_CAPACITY - |jobs|)
          == Leftover(items, now, QUEUE_CAPACITY - |old(jobs)|)
      {
        var item := items[k];
        assert items[k..][0] == item && items[k..][1..] == items[k + 1..];
        ghost var room: nat := QUEUE_CAPACITY - |jobs|;
        if now > item.at {
          if |jobs| < QUEUE_CAPACITY {
            ghost var due := DueJobs(items[k + 1..], now);
            assert jobs + Prefix([item.job] + due, room) == jobs + [item.job] + Prefix(due, room - 1);
            jobs := jobs + [item.job];
          } else {
            remaining := remaining + [item];
          }
        } else {
          remaining := remaining + [item];
        }
      }
      assert items[|items|..] == [];
      delayed := remaining;
    }
  }

  function Power2(n: nat): nat {
    if n == 0 then 1 else 2 * Power2(n - 1)
  }

  lemma FirstPowers()
    ensures forall n :: 0 <= n < 6 ==> Power2(n) == [1, 2, 4, 8, 16, 32][n]
  {
    assert Power2(1) == 2 && Power2(2) == 2 * Power2(1) && Power2(3) == 2 * Power2(2);
    assert Power2(4) == 2 * Power2(3) && Power2(5) == 2 * Power2(4);
  }

  /** The due jobs, item by item. */
  lemma {:induction false} DueInTurn(a: seq<DelayedItem>, b: seq<DelayedItem>, now: nat)
    ensures DueJobs(a + b, now) == DueJobs(a, now) + DueJobs(b, now)
    ensures |a| == 1 ==> DueJobs(a, now) == if now > a[0].at then [a[0].job] else []
  {
    if |a| == 0 {
      assert a + b == b && [] + DueJobs(b, now) == DueJobs(b, now);
    } else {
      assert (a + b)[1..] == a[1..] + b;
      DueInTurn(a[1..], b, now);
      var first := [a[0].job];
      assert first + (DueJobs(a[1..], now) + DueJobs(b, now)) == first + DueJobs(a[1..], now) + DueJobs(b, now);
    }
  }

  /** Every item is promoted or left: what is not due is left, and what is due only for lack of room. */
  lemma {:induction false} TickMeans(items: seq<DelayedItem>, now: nat, room: nat)
    ensures |Prefix(DueJobs(items, now), room)| + |Leftover(items, now, room)| == |items|
    ensures forall item :: item in items && now <= item.at ==> item in Leftover(items, now, room)
    ensures |Prefix(DueJobs(items, now), room)| < room ==>
      forall item :: item in Leftover(items, now, room) ==> now <= item.at
  {
    if |items| > 0 {
      TickMeans(items[1..], now, if now > items[0].at && room > 0 then room - 1 else room);
      assert items == [items[0]] + items[1..];
    }
  }

  /** Acts of one instance in a row. */
  predicate CanPerform(inst: Instance, rows: Rows, acts: seq<Act>)
    decreases |acts|
  {
    |acts| > 0 ==> CanAct(inst, rows, acts[0]) && CanPerform(Acted(inst, rows, acts[0]), rows, acts[1..])
  }

  function Performed(inst: Instance, rows: Rows, acts: seq<Act>): Instance
    requires CanPerform(inst, rows, acts)
    decreases |acts|
  {
    if |acts| == 0 then inst else Performed(Acted(inst, rows, acts[0]), rows, acts[1..])
  }

  /** One promotion takes the item behind `kept`. */
  lemma PromoteOne(inst: Instance, rows: Rows, kept: seq<DelayedItem>, items: seq<DelayedItem>)
    requires inst.delayed == JobsOf(kept + items) && |items| > 0 && |inst.jobs| < QUEUE_CAPACITY
    ensures CanAct(inst, rows, Promote(|kept|))
    ensures Acted(inst, rows, Promote(|kept|)) ==
      inst.(jobs := inst.jobs + [items[0].job], delayed := JobsOf(kept + items[1..]))
  {
    assert inst.delayed[|kept|] == items[0].job;
    assert Without(inst.delayed, |kept|) == JobsOf(kept + items[1..]);
  }

  lemma PrefixFront(jobs: seq<Job>, job: Job, due: seq<Job>, room: nat)
    requires room > 0
    ensures jobs + Prefix([job] + due, room) == jobs + [job] + Prefix(due, room - 1)
  {
  }

  lemma Regroup(a: seq<DelayedItem>, x: DelayedItem, b: seq<DelayedItem>)
    ensures a + ([x] + b) == a + [x] + b
  {
  }

  /** An item that is not promoted stays in its place. */
  lemma ItemStays(kept: seq<DelayedItem>, items: seq<DelayedItem>, now: nat, room: nat)
    requires |items| > 0 && (now > items[0].at ==> room == 0)
    ensures Prefix(DueJobs(items, now), room) == Prefix(DueJobs(items[1..], now), room)
    ensures kept + Leftover(items, now, room) == kept + [items[0]] + Leftover(items[1..], now, room)
    ensures kept + items == kept + [items[0]] + items[1..]
  {
    assert Leftover(items, now, room) == [items[0]] + Leftover(items[1..], now, room);
    Regroup(kept, items[0], Leftover(items[1..], now, room));
    assert items == [items[0]] + items[1..];
    Regroup(kept, items[0], items[1..]);
    if room > 0 {
      assert DueJobs(items, now) == DueJobs(items[1..], now);
    }
  }

  lemma PerformFirst(inst: Instance, rows: Rows, act: Act, rest: seq<Act>)
    requires CanAct(inst, rows, act) && CanPerform(Acted(inst, rows, act), rows, rest)
    ensures CanPerform(inst, rows, [act] + rest)
    ensures Performed(inst, rows, [act] + rest) == Performed(Acted(inst, rows, act), rows, rest)
  {
    assert ([act] + rest)[0] == act && ([act] + rest)[1..] == rest;
  }

  predicate Due(inst: Instance, item: DelayedItem, now: nat) {
    now > item.at && |inst.jobs| < QUEUE_CAPACITY
  }

  /** The instance after one promotion. */
  function Promoted(inst: Instance, kept: seq<DelayedItem>, items: seq<DelayedItem>): Instance
    requires |items| > 0
  {
    inst.(jobs := inst.jobs + [items[0].job], delayed := JobsOf(kept + items[1..]))
  }

  /** The promotions of a tick, item by item. */
  function Promotions(
    inst: Instance, kept: seq<DelayedItem>, items: seq<DelayedItem>, now: nat): seq<Act>
    decreases |items|
  {
    if |items| == 0 then []
    else if Due(inst, items[0], now) then
      [Promote(|kept|)] + Promotions(Promoted(inst, kept, items), kept, items[1..], now)
    else Promotions(inst, kept + [items[0]], items[1..], now)
  }

  /** The instance after a tick. */
  function Ticked(inst: Instance, kept: seq<DelayedItem>, items: seq<DelayedItem>, now: nat): Instance {
    var room := if |inst.jobs| < QUEUE_CAPACITY then QUEUE_CAPACITY - |inst.jobs| else 0;
    inst.(jobs := inst.jobs + Prefix(DueJobs(items, now), room), delayed := JobsOf(kept + Leftover(items, now, room)))
  }

  lemma TickedDue(inst: Instance, kept: seq<DelayedItem>, items: seq<DelayedItem>, now: nat)
    requires |items| > 0 && Due(inst, items[0], now)
    ensures Ticked(inst, kept, items, now) == Ticked(Promoted(inst, kept, items), kept, items[1..], now)
  {
    PrefixFront(inst.jobs, items[0].job, DueJobs(items[1..], now), QUEUE_CAPACITY - |inst.jobs|);
  }

  lemma TickedStays(inst: Instance, kept: seq<DelayedItem>, items: seq<DelayedItem>, now: nat)
    requires |items| > 0 && !Due(inst, items[0], now)
    ensures Ticked(inst, kept, items, now) == Ticked(inst, kept + [items[0]], items[1..], now)
    ensures kept + items == kept + [items[0]] + items[1..]
  {
    ItemStays(kept, items, now, if |inst.jobs| < QUEUE_CAPACITY then QUEUE_CAPACITY - |inst.jobs| else 0);
  }

  lemma TickedNothing(inst: Instance, kept: seq<DelayedItem>, now: nat)
    requires inst.delayed == JobsOf(kept + [])
    ensures Ticked(inst, kept, [], now) == inst
  {
    assert inst.jobs + [] == inst.jobs;
  }

  /** A tick of the delayed-queue manager is a row of promotions of the protocol. */
  lemma {:induction false} TickIsPromotions(
    inst: Instance, rows: Rows, kept: seq<DelayedItem>, items: seq<DelayedItem>, now: nat)
    requires inst.delayed == JobsOf(kept + items)
    ensures var acts := Promotions(inst, kept, items, now);
      && CanPerform(inst, rows, acts)
      && Performed(inst, rows, acts) == Ticked(inst, kept, items, now)
    decreases |items|
  {
    if |items| == 0 {
      assert kept + items == kept + [];
      TickedNothing(inst, kept, now);
    } else if Due(inst, items[0], now) {
      PromoteOne(inst, rows, kept, items);
      var next := Promoted(inst, kept, items);
      TickIsPromotions(next, rows, kept, items[1..], now);
      PerformFirst(inst, rows, Promote(|kept|), Promotions(next, kept, items[1..], now));
      TickedDue(inst, kept, items, now);
    } else {
      TickedStays(inst, kept, items, now);
      TickIsPromotions(inst, rows, kept + [items[0]], items[1..], now);
    }
  }

  class TempStorage {
    var files: set<TempKey>

    method Delete(name: TempKey)
      modifies this
      ensures files == old(files) - {name}
    {
      files := files - {name};
    }
  }

  function TempsOf(batch: seq<Job>): set<TempKey> {
    set k | 0 <= k < |batch| :: batch[k].Temp()
  }

  class BatchReporter {
    const counter: OutstandingCounter
    const disk: TempStorage
    const batchSize: nat
    var buffer: seq<Job>

    constructor (counter: OutstandingCounter, disk: TempStorage, batchSize: nat)
      ensures this.counter == counter && this.disk == disk && this.batchSize == batchSize && buffer == []
    {
      this.counter, this.disk, this.batchSize, buffer := counter, disk, batchSize, [];
    }

    /** A result is buffered, and the whole buffer is flushed once it has the batch size. */
    method Report(result: Job, reply: Option<nat>)
      requires forall file :: file in counter.keys ==> counter.keys[file] > 0
      modifies this, counter, disk
      ensures var all := old(buffer) + [result];
        var flushed := |all| >= batchSize && reply.Some?;
        && buffer == (if flushed then [] else all)
        && disk.files == old(disk.files) - (if flushed then TempsOf(all) else {})
        && forall file ::
             Get(counter.keys, file)
             == if flushed then Max(0, Get(old(counter.keys), file) - Count(all, OfFile(file)))
                else Get(old(counter.keys), file)
    {
      buffer := buffer + [result];
      if |buffer| >= batchSize {
        Flush(reply);
      }
    }

    /** The batch leaves the buffer; after a failed RPC it goes back to the front. */
    method TakeBatch() returns (batch: seq<Job>)
      modifies this
      ensures batch == old(buffer) && buffer == []
    {
      batch := buffer;
      buffer := [];
    }

    method PutBack(batch: seq<Job>)
      modifies this
      ensures buffer == batch + old(buffer)
    {
      buffer := batch + buffer;
    }

    /**
     `Flush`, with the outcome of the RPC as a parameter: None if it failed, otherwise the number of
     rows the server says it stored, which makes no difference.
     */
    method Flush(reply: Option<nat>)
      requires forall file :: file in counter.keys ==> counter.keys[file] > 0
      modifies this, counter, disk
      ensures reply.None? ==>
        buffer == old(buffer) && counter.keys == old(counter.keys) && disk.files == old(disk.files)
      ensures reply.Some? ==> buffer == [] && disk.files == old(disk.files) - TempsOf(old(buffer))
      ensures reply.Some? ==> forall file ::
        Get(counter.keys, file) == Max(0, Get(old(counter.keys), file) - Count(old(buffer), OfFile(file)))
    {
      if |buffer| == 0 {
        return;
      }
      var batch := TakeBatch();
      if reply.None? {
        PutBack(batch);
        assert buffer == batch;
        return;
      }
      DeleteTemps(batch);
      var counts := CountPerFile(batch);
      SettleAll(counts);
    }

    /** One decrement for every file of the batch, in any order. */
    method SettleAll(counts: map<FileId, nat>)
      requires forall file :: file in counter.keys ==> counter.keys[file] > 0
      modifies counter
      ensures forall file ::
        Get(counter.keys, file) == (if file in counts
                                    then Max(0, Get(old(counter.keys), file) - counts[file])
                                    else Get(old(counter.keys), file))
    {
      var todo := counts.Keys;
      while todo != {}
        invariant todo <= counts.Keys
        invariant forall file ::
          Get(counter.keys, file) == (if file in counts && file !in todo
                                      then Max(0, Get(old(counter.keys), file) - counts[file])
                                      else Get(old(counter.keys), file))
        decreases |todo|
      {
        var file :| file in todo;
        counter.Decr(file, counts[file]);
        todo := todo - {file};
      }
    }

    method DeleteTemps(batch: seq<Job>)
      modifies disk
      ensures disk.files == old(disk.files) - TempsOf(batch)
    {
      for k := 0 to |batch|
        invariant disk.files == old(disk.files) - TempsOf(batch[..k])
      {
        disk.Delete(batch[k].Temp());
        assert batch[..k + 1] == batch[..k] + [batch[k]];
        assert TempsOf(batch[..k + 1]) == TempsOf(batch[..k]) + {batch[k].Temp()} by {
          assert batch[..k + 1][k].Temp() in TempsOf(batch[..k + 1]);
          assert forall t :: t in TempsOf(batch[..k]) ==> t in TempsOf(batch[..k + 1]) by {
            forall t | t in TempsOf(batch[..k]) ensures t in TempsOf(batch[..k + 1]) {
              var j :| 0 <= j < k && batch[..k][j].Temp() == t;
              assert batch[..k + 1][j].Temp() == t;
            }
          }
        }
      }
      assert batch[..|batch|] == batch;
    }

    /** The grouping loop: one positive count for every file of the batch, and for no other. */
    static method CountPerFile(batch: seq<Job>) returns (counts: map<FileId, nat>)
      ensures forall file :: file in counts <==> Count(batch, OfFile(file)) > 0
      ensures forall file :: file in counts ==> counts[file] == Count(batch, OfFile(file))
    {
      counts := map[];
      for k := 0 to |batch|
        invariant forall file :: file in counts <==> Count(batch[..k], OfFile(file)) > 0
        invariant forall file :: file in counts ==> counts[file] == Count(batch[..k], OfFile(file))
      {
        var file := batch[k].file;
        counts := counts[file := (if file in counts then counts[file] else 0) + 1];
        assert batch[..k + 1] == batch[..k] + [batch[k]];
        forall f
          ensures Count(batch[..k + 1], OfFile(f)) == Count(batch[..k], OfFile(f)) + JobWeight(OfFile(f))(batch[k])
        {
          TotalAppend(batch[..k], batch[k], JobWeight(OfFile(f)));
        }
      }
      assert batch[..|batch|] == batch;
    }
  }

  /** A chunk of GetFileMetadata; the Telegram id is empty while the row is buffered. */
  datatype ChunkMeta = ChunkMeta(index: nat, telegramFileId: string)

  function LandedIn(chunks: seq<ChunkMeta>): nat {
    if |chunks| == 0 then 0
    else LandedIn(chunks[..|chunks| - 1]) + if chunks[|chunks| - 1].telegramFileId != "" then 1 else 0
  }

  /** The chunk list of a file whose rows all have an index below `n`, in index order. */
  function MetadataOf(rows: Rows, file: FileId, n: nat): seq<ChunkMeta> {
    if n == 0 then []
    else
      var key := Key(file, n - 1);
      MetadataOf(rows, file, n - 1)
      + if key !in rows then [] else [ChunkMeta(n - 1, if rows[key].Landed? then "telegram-id" else "")]
  }

  /** Counting the list counts the landed rows. */
  lemma {:induction false} MetadataCountsRows(rows: Rows, file: FileId, n: nat)
    ensures LandedIn(MetadataOf(rows, file, n)) == LandedBelow(rows, file, n)
  {
    if n > 0 {
      MetadataCountsRows(rows, file, n - 1);
      var before, all := MetadataOf(rows, file, n - 1), MetadataOf(rows, file, n);
      if Key(file, n - 1) in rows {
        assert all[..|all| - 1] == before;
      } else {
        assert all == before;
      }
    }
  }

  /** `FlushAndConfirm` after its two reads: the counting loop and the answer. */
  method FlushAndConfirm(outstanding: int, chunks: seq<ChunkMeta>, total: nat)
    returns (answer: Confirmation, confirmed: seq<ChunkMeta>)
    ensures answer == Confirm(outstanding, LandedIn(chunks), total)
    ensures |confirmed| == LandedIn(chunks)
    ensures forall c :: multiset(confirmed)[c] == if c.telegramFileId != "" then multiset(chunks)[c] else 0
    ensures answer.completed == |confirmed| && (answer.allComplete <==> |confirmed| == total)
    ensures answer.received <= total && answer.received <= |confirmed| + outstanding
    ensures answer.received == total || answer.received == |confirmed| + outstanding
    ensures answer.allReceived <==> |confirmed| + outstanding >= total
  {
    var completed := 0;
    confirmed := [];
    for k := 0 to |chunks|
      invariant completed == |confirmed| == LandedIn(chunks[..k])
      invariant forall c :: multiset(confirmed)[c] == if c.telegramFileId != "" then multiset(chunks[..k])[c] else 0
    {
      assert chunks[..k + 1][..k] == chunks[..k] && chunks[..k + 1] == chunks[..k] + [chunks[k]];
      if chunks[k].telegramFileId != "" {
        completed := completed + 1;
        confirmed := confirmed + [chunks[k]];
      }
    }
    assert chunks[..|chunks|] == chunks;
    var received := completed + outstanding;
    if received > total {
      received := total;
    }
    answer := Confirmation(completed, received, completed == total, received == total);
  }
}
