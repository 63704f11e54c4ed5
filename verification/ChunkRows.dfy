/**
 The FileChunk rows of the metadata database, as the two chunk reports write them
 (backend/src/grpc/grpc-core.controller.ts).  Rows are unique per (file, index).
 */
module ChunkRows {

  /** Files are numbered; a number stands for the file's UUID. */
  type FileId = nat

  datatype Key = Key(file: FileId, index: nat)

  /** A row holds a temp key while buffered, and a Telegram id once it has landed. */
  datatype Row = Buffered | Landed

  type Rows = map<Key, Row>

  predicate HasLanded(rows: Rows, key: Key) {
    key in rows && rows[key].Landed?
  }

  /** The upsert of `reportChunkResults`: both arms store the Telegram coordinates. */
  function UpsertResult(rows: Rows, key: Key): Rows {
    rows[key := Landed]
  }

  /** The upsert of `reportChunkBuffered`: the update arm is empty. */
  function UpsertBuffered(rows: Rows, key: Key): Rows {
    if key in rows then rows else rows[key := Buffered]
  }

  /** `later` has every landed row of `rows`: no row is ever downgraded. */
  ghost predicate Extends(rows: Rows, later: Rows) {
    forall key :: HasLanded(rows, key) ==> HasLanded(later, key)
  }

  /** How many of the indices below `n` have landed. */
  function LandedBelow(rows: Rows, file: FileId, n: nat): nat {
    if n == 0 then 0
    else LandedBelow(rows, file, n - 1) + if HasLanded(rows, Key(file, n - 1)) then 1 else 0
  }

  lemma {:induction false} LandedBelowMonotone(rows: Rows, later: Rows, file: FileId, n: nat)
    requires Extends(rows, later)
    ensures LandedBelow(rows, file, n) <= LandedBelow(later, file, n) <= n
  {
    if n > 0 {
      LandedBelowMonotone(rows, later, file, n - 1);
    }
  }

  /** The count reaches `n` exactly when every index below `n` has landed. */
  lemma {:induction false} LandedBelowFull(rows: Rows, file: FileId, n: nat)
    ensures LandedBelow(rows, file, n) <= n
    ensures LandedBelow(rows, file, n) == n <==> forall i :: 0 <= i < n ==> HasLanded(rows, Key(file, i))
  {
    if n > 0 {
      LandedBelowFull(rows, file, n - 1);
    }
  }

  /** Neither report ever takes a landed row back, and each touches one row only. */
  lemma UpsertsExtend(rows: Rows, key: Key)
    ensures Extends(rows, UpsertResult(rows, key)) && HasLanded(UpsertResult(rows, key), key)
    ensures Extends(rows, UpsertBuffered(rows, key)) && key in UpsertBuffered(rows, key)
    ensures forall other :: HasLanded(UpsertBuffered(rows, key), other) ==> HasLanded(rows, other)
    ensures forall other :: other != key && HasLanded(UpsertResult(rows, key), other) ==> HasLanded(rows, other)
  {
  }
}
