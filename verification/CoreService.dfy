/**
 The handlers of the metadata service, each run without interference: every one does what its
 call of the interleaving model does when it is resumed until it is finished.
 */
module CoreService {
  import opened Sums
  import opened ChunkRows
  import opened Completion

  /** How many statements a call has left at most. */
  function Rank(call: Call): nat {
    match call
    case Reporting(todo, touched) => 5 * |todo| + 4 * |touched| + 1
    case Checking(files) => 4 * |files|
    case Counting(files) => if |files| > 0 then 4 * |files| - 1 else 0
    case Flipping(files) => if |files| > 0 then 4 * |files| - 2 else 0
    case Charging(files, _, _) => if |files| > 0 then 4 * |files| - 3 else 0
    case Rereading(_) => 4
    case Deciding(_) => 3
    case Winning(_) => 2
    case Parking(_) => 1
    case Paying(_, _) => 1
  }

  predicate Done(call: Call) {
    call == Checking([])
  }

  /** The database after the call has run to its end with nothing in between. */
  function Finish(db: Db, call: Call): Db
    requires CallOk(db, call)
    decreases Rank(call)
  {
    if Done(call) then db
    else
      var (next, rest) := Executed(db, call);
      StillOk(db, call);
      Finish(next, rest)
  }

  lemma StillOk(db: Db, call: Call)
    requires CallOk(db, call)
    ensures CallOk(Executed(db, call).0, Executed(db, call).1)
    ensures |Executed(db, call).0.files| == |db.files|
    ensures !Done(call) ==> Rank(Executed(db, call).1) < Rank(call)
  {
  }

  /** Finishing file by file: a list of files is finalized from the front. */
  lemma FinishFront(db: Db, files: seq<FileId>)
    requires Known(db, files) && |files| > 0
    ensures Known(db, [files[0]]) && |Finish(db, Checking([files[0]])).files| == |db.files|
    ensures Known(Finish(db, Checking([files[0]])), files[1..])
    ensures Finish(db, Checking(files)) == Finish(Finish(db, Checking([files[0]])), Checking(files[1..]))
  {
    var f := files[0];
    assert [f][1..] == [];
    if db.files[f].status.Complete? || db.files[f].status.Aborted? {
    } else if LandedCount(db, f) < db.files[f].total {
      assert Finish(db, Counting(files)) == Finish(db, Checking(files[1..]));
      assert Finish(db, Counting([f])) == Finish(db, Checking([])) == db;
    } else {
      FlipFront(db, files);
    }
  }

  lemma FlipFront(db: Db, files: seq<FileId>)
    requires Known(db, files) && |files| > 0
    ensures Known(db, [files[0]]) && |Finish(db, Flipping([files[0]])).files| == |db.files|
    ensures Known(Finish(db, Flipping([files[0]])), files[1..])
    ensures Finish(db, Flipping(files)) == Finish(Finish(db, Flipping([files[0]])), Checking(files[1..]))
  {
    var f := files[0];
    assert [f][1..] == [];
    if CanFlip(db.files[f]) {
      var won, user, size := Flip(db, f), db.files[f].owner, db.files[f].size;
      assert Executed(won, Charging([f], user, size)).1 == Checking([]);
      assert Finish(won, Charging([f], user, size)) == Charge(won, user, size);
      assert Finish(won, Charging(files, user, size)) == Finish(Charge(won, user, size), Checking(files[1..]));
    }
  }

  // ---------------------------------------------------------------- upserts that fail

  /** The keys whose upsert succeeds. */
  function Stored(results: seq<Key>, stores: seq<bool>): seq<Key>
    requires |stores| == |results|
  {
    if |results| == 0 then []
    else (if stores[0] then [results[0]] else []) + Stored(results[1..], stores[1..])
  }

  lemma {:induction false} StoredAreResults(results: seq<Key>, stores: seq<bool>)
    requires |stores| == |results|
    ensures forall key :: key in Stored(results, stores) ==> key in results
  {
    if |results| > 0 { StoredAreResults(results[1..], stores[1..]); }
  }

  lemma StoredOk(db: Db, results: seq<Key>, stores: seq<bool>)
    requires |stores| == |results| && forall k :: 0 <= k < |results| ==> KeyOk(db, results[k])
    ensures CallOk(db, Reporting(Stored(results, stores), []))
  {
    StoredAreResults(results, stores);
    var stored := Stored(results, stores);
    forall k | 0 <= k < |stored| ensures KeyOk(db, stored[k]) {
      assert stored[k] in results;
    }
  }

  lemma StoredStep(results: seq<Key>, stores: seq<bool>, k: nat)
    requires |stores| == |results| && k < |results|
    ensures var left := Stored(results[k + 1..], stores[k + 1..]);
      Stored(results[k..], stores[k..]) == if stores[k] then [results[k]] + left else left
  {
    assert results[k..][1..] == results[k + 1..] && stores[k..][1..] == stores[k + 1..];
  }

  /** The first upsert of a report. */
  lemma StoreFront(db: Db, key: Key, left: seq<Key>, touched: seq<FileId>)
    requires CallOk(db, Reporting([key] + left, touched))
    ensures var next := db.(rows := UpsertResult(db.rows, key));
      var rest := Reporting(left, AddOnce(touched, key.file));
      CallOk(next, rest) && Finish(db, Reporting([key] + left, touched)) == Finish(next, rest)
  {
    assert ([key] + left)[1..] == left;
    assert ([key] + left)[0] == key;
    StillOk(db, Reporting([key] + left, touched));
  }

  lemma {:induction false} StoredCount(results: seq<Key>, stores: seq<bool>)
    requires |stores| == |results|
    ensures |Stored(results, stores)| <= |results|
    ensures |Stored(results, stores)| == |results| ==> Stored(results, stores) == results
    ensures |Stored(results, stores)| < |results| ==> exists k :: 0 <= k < |stores| && !stores[k]
  {
    if |results| > 0 {
      StoredCount(results[1..], stores[1..]);
      assert results == [results[0]] + results[1..];
      if stores[0] && |Stored(results, stores)| < |results| {
        var k :| 0 <= k < |stores[1..]| && !stores[1..][k];
        assert !stores[k + 1];
      }
    }
  }

  predicate AllDifferent(results: seq<Key>) {
    forall i, j :: 0 <= i < j < |results| ==> results[i] != results[j]
  }

  lemma {:induction false} SkippedIsNotStored(results: seq<Key>, stores: seq<bool>, k: nat)
    requires |stores| == |results| && k < |results| && !stores[k] && AllDifferent(results)
    ensures results[k] !in Stored(results, stores)
  {
    if k == 0 {
      StoredAreResults(results[1..], stores[1..]);
      assert forall i :: 0 <= i < |results[1..]| ==> results[1..][i] == results[i + 1];
    } else {
      assert forall i :: 0 <= i < |results[1..]| ==> results[1..][i] == results[i + 1];
      SkippedIsNotStored(results[1..], stores[1..], k - 1);
    }
  }

  /**
   What the number answered says about the database.  If it is the number of results, all their rows
   have landed; and if it is less, for different results none of which had landed before, some row
   has not.  The caller could compare the two numbers and does not.
   */
  lemma AcceptedTells(db: Db, results: seq<Key>, stores: seq<bool>)
    requires |stores| == |results| && forall k :: 0 <= k < |results| ==> KeyOk(db, results[k])
    ensures CallOk(db, Reporting(Stored(results, stores), []))
    ensures var rows := Finish(db, Reporting(Stored(results, stores), [])).rows;
      var all := forall k :: 0 <= k < |results| ==> HasLanded(rows, results[k]);
      && (|Stored(results, stores)| == |results| ==> all)
      && (AllDifferent(results) && (forall k :: 0 <= k < |results| ==> !HasLanded(db.rows, results[k])) ==>
           (all <==> |Stored(results, stores)| == |results|))
  {
    var stored := Stored(results, stores);
    StoredOk(db, results, stores);
    FinishLands(db, Reporting(stored, []));
    StoredLand(db.rows, stored);
    StoredCount(results, stores);
    if |stored| < |results| && AllDifferent(results) {
      var k :| 0 <= k < |stores| && !stores[k];
      SkippedIsNotStored(results, stores, k);
      assert results[k] !in stored;
    }
  }

  /** Executing the upserts of a report lands every stored key. */
  lemma {:induction false} StoredLand(rows: Rows, stored: seq<Key>)
    ensures forall key :: HasLanded(UpsertAll(rows, stored), key) <==> HasLanded(rows, key) || key in stored
    decreases |stored|
  {
    if |stored| > 0 { StoredLand(UpsertResult(rows, stored[0]), stored[1..]); }
  }

  function UpsertAll(rows: Rows, stored: seq<Key>): Rows
    decreases |stored|
  {
    if |stored| == 0 then rows else UpsertAll(UpsertResult(rows, stored[0]), stored[1..])
  }

  /** Finishing a report stores exactly these rows, whatever else it does. */
  lemma {:induction false} FinishLands(db: Db, call: Call)
    requires CallOk(db, call)
    ensures Finish(db, call).rows == if call.Reporting? then UpsertAll(db.rows, call.todo) else db.rows
    decreases Rank(call)
  {
    if !Done(call) {
      var (next, rest) := Executed(db, call);
      StillOk(db, call);
      FinishLands(next, rest);
    }
  }

  /**
   The file is completed and its owner charged its size, if it was uploading or parked and all its rows
   have landed; otherwise nothing has changed, and no other file, row or owner has in any case.
   */
  predicate Completes(was: Db, now: Db, f: FileId)
    requires f < |was.files|
  {
    var file := was.files[f];
    if file.status in {Uploading, Parked} && (forall i :: 0 <= i < file.total ==> HasLanded(was.rows, Key(f, i))) then
      && now.files == was.files[f := file.(status := Complete, flipped := true)] && now.rows == was.rows
      && Used(now, file.owner) == Used(was, file.owner) + file.size
      && now.used - {file.owner} == was.used - {file.owner}
    else now == was
  }

  lemma CompletesIs(db: Db, f: FileId)
    requires f < |db.files|
    ensures CanFlip(db.files[f]) && LandedCount(db, f) >= db.files[f].total ==>
      Completes(db, Charge(Flip(db, f), db.files[f].owner, db.files[f].size), f)
    ensures !(CanFlip(db.files[f]) && LandedCount(db, f) >= db.files[f].total) ==> Completes(db, db, f)
  {
    LandedBelowFull(db.rows, f, db.files[f].total);
  }

  class CoreDatabase {
    var files: seq<File>
    var rows: Rows
    var used: map<nat, int>

    function Value(): Db
      reads this
    {
      Db(files, rows, used)
    }

    constructor (db: Db)
      ensures Value() == db
    {
      files, rows, used := db.files, db.rows, db.used;
    }

    /** `fileRecord.updateMany({ where: { id, status: { in: from } }, data: { status: to } })`. */
    method UpdateStatus(f: FileId, from: set<Status>, to: Status) returns (count: nat)
      requires f < |files|
      modifies this`files
      ensures count == if old(files[f].status) in from then 1 else 0
      ensures count == 1 ==>
        files == old(files)[f := old(files[f]).(status := to, flipped := to.Complete? || old(files[f]).flipped)]
      ensures count == 0 ==> files == old(files)
    {
      if files[f].status !in from {
        return 0;
      }
      files := files[f := files[f].(status := to, flipped := to.Complete? || files[f].flipped)];
      return 1;
    }

    method IncrementUsed(user: nat, size: nat)
      modifies this`used
      ensures Value() == Charge(old(Value()), user, size)
    {
      used := used[user := (if user in used then used[user] else 0) + size];
    }

    /** `fileChunk.count` over the indices of the file. */
    method CountLanded(f: FileId) returns (landed: nat)
      requires f < |files|
      ensures landed == LandedCount(Value(), f)
    {
      landed := 0;
      for i := 0 to files[f].total
        invariant landed == LandedBelow(rows, f, i)
      {
        if HasLanded(rows, Key(f, i)) {
          landed := landed + 1;
        }
      }
    }

    /** The file is completed and its owner charged, or nothing happens at all. */
    method FinalizeChunkedFileIfLanded(f: FileId)
      requires f < |files|
      modifies this
      ensures Value() == Finish(old(Value()), Checking([f]))
      ensures CanFlip(old(files[f])) && LandedCount(old(Value()), f) >= old(files[f]).total ==>
        Value() == Charge(Flip(old(Value()), f), old(files[f]).owner, old(files[f]).size)
      ensures !(CanFlip(old(files[f])) && LandedCount(old(Value()), f) >= old(files[f]).total) ==>
        Value() == old(Value())
      ensures Completes(old(Value()), Value(), f)
    {
      ghost var db := Value();
      CompletesIs(db, f);
      assert [f][1..] == [];
      var record := files[f];
      if record.status == Complete || record.status == Aborted {
        assert Finish(db, Checking([f])) == Finish(db, Checking([]));
        return;
      }
      var landed := CountLanded(f);
      if landed < record.total {
        assert Finish(db, Counting([f])) == Finish(db, Checking([]));
        return;
      }
      var count := UpdateStatus(f, {Uploading, Parked}, Complete);
      assert Value() == Flip(db, f);
      if count != 1 {
        assert Finish(db, Flipping([f])) == Finish(db, Checking([]));
        return;
      }
      IncrementUsed(record.owner, record.size);
      assert Finish(Flip(db, f), Charging([f], record.owner, record.size))
        == Charge(Flip(db, f), record.owner, record.size);
      assert Finish(db, Flipping([f])) == Finish(Flip(db, f), Charging([f], record.owner, record.size));
    }

    /**
     Every row is stored unless its upsert fails, which `stores` says; then every touched file is
     finalized if it can be.
     */
    method ReportChunkResults(results: seq<Key>, stores: seq<bool>) returns (accepted: nat)
      requires |stores| == |results| && forall k :: 0 <= k < |results| ==> KeyOk(Value(), results[k])
      modifies this
      ensures CallOk(old(Value()), Reporting(Stored(results, stores), []))
      ensures Value() == Finish(old(Value()), Reporting(Stored(results, stores), []))
      ensures accepted == |Stored(results, stores)|
      ensures forall key :: HasLanded(rows, key) <==> HasLanded(old(rows), key) || key in Stored(results, stores)
    {
      ghost var start := Value();
      StoredOk(start, results, stores);
      ghost var todo := Stored(results, stores);
      assert results[0..] == results && stores[0..] == stores;
      var touched;
      accepted, touched := StoreRows(results, stores, todo);
      FinalizeTouched(touched);
      FinishLands(start, Reporting(todo, []));
      StoredLand(start.rows, todo);
    }

    /** The upsert loop. */
    method StoreRows(results: seq<Key>, stores: seq<bool>, ghost todo: seq<Key>)
      returns (accepted: nat, touched: seq<FileId>)
      requires |stores| == |results| && todo == Stored(results, stores) && CallOk(Value(), Reporting(todo, []))
      modifies this`rows
      ensures Known(Value(), touched) && accepted == |todo|
      ensures Finish(Value(), Checking(touched)) == Finish(old(Value()), Reporting(todo, []))
    {
      ghost var start := Value();
      ghost var left := todo;
      assert results[0..] == results && stores[0..] == stores;
      accepted, touched := 0, [];
      for k := 0 to |results|
        invariant files == start.files && left == Stored(results[k..], stores[k..])
        invariant accepted + |left| == |todo|
        invariant CallOk(Value(), Reporting(left, touched))
        invariant Finish(Value(), Reporting(left, touched)) == Finish(start, Reporting(todo, []))
      {
        StoredStep(results, stores, k);
        if stores[k] {
          left := left[1..];
          StoreFront(Value(), results[k], left, touched);
          rows := UpsertResult(rows, results[k]);
          accepted := accepted + 1;
          touched := AddOnce(touched, results[k].file);
        }
      }
    }

    /** The loop over the touched files. */
    method FinalizeTouched(touched: seq<FileId>)
      requires Known(Value(), touched)
      modifies this
      ensures Value() == Finish(old(Value()), Checking(touched))
    {
      ghost var start := Value();
      var k := 0;
      assert touched[0..] == touched;
      while k < |touched|
        invariant k <= |touched| && |files| == |start.files| && Known(Value(), touched[k..])
        invariant Finish(Value(), Checking(touched[k..])) == Finish(start, Checking(touched))
      {
        FinishFront(Value(), touched[k..]);
        assert touched[k..][0] == touched[k] && touched[k..][1..] == touched[k + 1..];
        FinalizeChunkedFileIfLanded(touched[k]);
        k := k + 1;
      }
      assert touched[|touched|..] == [];
    }

    /** The row is created if it is missing, unless that fails; an existing row is left alone. */
    method ReportChunkBuffered(chunks: seq<Key>, stores: seq<bool>) returns (accepted: nat)
      requires |stores| == |chunks|
      modifies this`rows
      ensures accepted == |Stored(chunks, stores)|
      ensures forall key :: key in rows <==> key in old(rows) || key in Stored(chunks, stores)
      ensures forall key :: key in old(rows) ==> rows[key] == old(rows[key])
      ensures forall key :: HasLanded(rows, key) <==> HasLanded(old(rows), key)
    {
      accepted := 0;
      assert chunks[0..] == chunks && stores[0..] == stores;
      for k := 0 to |chunks|
        invariant accepted + |Stored(chunks[k..], stores[k..])| == |Stored(chunks, stores)|
        invariant forall key :: key in rows || key in Stored(chunks[k..], stores[k..])
                            <==> key in old(rows) || key in Stored(chunks, stores)
        invariant forall key :: key in old(rows) ==> key in rows && rows[key] == old(rows[key])
        invariant forall key :: HasLanded(rows, key) <==> HasLanded(old(rows), key)
      {
        assert chunks[k..][1..] == chunks[k + 1..] && stores[k..][1..] == stores[k + 1..];
        if stores[k] {
          rows := UpsertBuffered(rows, chunks[k]);
          accepted := accepted + 1;
        }
      }
    }

    /** `completeChunkedUpload`, with the verdict of FlushAndConfirm as a parameter. */
    method CompleteChunkedUpload(f: FileId, allReceived: bool) returns (accepted: bool)
      requires f < |files|
      modifies this
      ensures accepted <==> old(files[f]).status.Complete? || allReceived
      ensures !accepted || old(files[f]).status.Complete? ==> Value() == old(Value())
      ensures accepted ==> Value() == Finish(old(Value()), Rereading(f))
      ensures |files| == |old(files)|
      ensures accepted && CanFlip(old(files[f])) ==>
        files[f].status == if LandedCount(old(Value()), f) >= old(files[f]).total then Complete else Parked
      ensures accepted && files[f].status == Complete ==> Completes(old(Value()), Value(), f)
    {
      ghost var db := Value();
      CompletesIs(db, f);
      if files[f].status == Complete {
        assert Finish(db, Rereading(f)) == Finish(db, Checking([]));
        return true;
      }
      if !allReceived {
        return false;
      }
      var record := files[f];
      var landed := CountLanded(f);
      if landed >= record.total {
        var count := UpdateStatus(f, {Uploading, Parked}, Complete);
        assert Value() == Flip(db, f);
        if count == 1 {
          IncrementUsed(record.owner, record.size);
          assert Finish(Flip(db, f), Paying(record.owner, record.size))
            == Charge(Flip(db, f), record.owner, record.size);
        }
        assert Finish(db, Winning(f)) == Value();
      } else {
        var _ := UpdateStatus(f, {Uploading}, Parked);
        assert Value() == Park(db, f);
        assert Finish(db, Parking(f)) == Value();
      }
      assert Finish(db, Deciding(f)) == Value();
      return true;
    }
  }
}
