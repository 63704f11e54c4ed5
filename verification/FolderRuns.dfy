/** Runs of folder operations: in every state they reach, parents form a forest. */
module FolderRuns {
  import opened Wrappers
  import opened Forest
  import opened FolderMerge
  import opened MergeSafety
  import opened FolderMoves
  import opened Trash
  import opened FolderService

  /** The operations that create, hang, merge, trash, restore or delete folder rows. */
  datatype Op =
    | Create(id: Id, name: string, parent: Option<Id>, user: Id)
    | Move(id: Id, newParent: Option<Id>, user: Id)
    | MoveOnto(id: Id, newParent: Option<Id>, user: Id, target: Id)
    | SoftDelete(id: Id, user: Id, now: int)
    | RestoreTree(id: Id, t: int)
    | HardDelete(id: Id)

  /** The guards of the service in front of its writes. */
  predicate Allowed(d: Drive, op: Op) {
    match op
    case Create(id, _, parent, user) =>
      id !in d.folders && (parent.Some? ==> Active(d.folders, parent.value, user))
    case Move(id, newParent, user) => Refusal(d.folders, id, newParent, user) == None
    case MoveOnto(id, newParent, user, target) =>
      && Refusal(d.folders, id, newParent, user) == None
      && target in Conflicts(d.folders, newParent, d.folders[id].name, user, id)
    case SoftDelete(_, _, _) => true
    case RestoreTree(_, _) => true
    case HardDelete(_) => true
  }

  function Performed(d: Drive, op: Op, order: Order): Drive
    requires Lists(order) && Allowed(d, op)
  {
    match op
    case Create(id, name, parent, user) => d.(folders := d.folders[id := Folder(name, parent, user, None)])
    case Move(id, newParent, _) => d.(folders := d.folders[id := d.folders[id].(parent := newParent)])
    case MoveOnto(id, _, user, target) => MovedOnto(d, id, target, user, order)
    case SoftDelete(id, user, now) => SoftDeleted(d, id, user, now)
    case RestoreTree(id, t) => Restored(d, id, t)
    case HardDelete(id) => Delete(d, id)
  }

  predicate CanRun(d: Drive, ops: seq<Op>, order: Order)
    requires Lists(order)
    decreases |ops|
  {
    |ops| > 0 ==> Allowed(d, ops[0]) && CanRun(Performed(d, ops[0], order), ops[1..], order)
  }

  function After(d: Drive, ops: seq<Op>, order: Order): Drive
    requires Lists(order) && CanRun(d, ops, order)
    decreases |ops|
  {
    if |ops| == 0 then d else After(Performed(d, ops[0], order), ops[1..], order)
  }

  /** Changing anything but ids and parents does not change the shape. */
  lemma SameParentsSameShape(fs: Folders, after: Folders)
    requires IsForest(fs) && after.Keys == fs.Keys
    requires forall x :: x in fs ==> after[x].parent == fs[x].parent
    ensures IsForest(after)
  {
    forall x
      ensures x in Parents(after) <==> x in Parents(fs)
      ensures x in Parents(fs) ==> Parents(after)[x] == Parents(fs)[x]
    {
      if x in fs { assert after[x].parent == fs[x].parent; }
    }
    var rank :| Ranks(Parents(fs), rank) && fs.Keys <= rank.Keys;
    assert Ranks(Parents(after), rank) && after.Keys <= rank.Keys;
    forall x | x in after && after[x].parent.Some? ensures after[x].parent.value in after {
      assert fs[x].parent == after[x].parent;
    }
  }

  lemma CreateKeepsForest(fs: Folders, id: Id, folder: Folder)
    requires IsForest(fs) && id !in fs && (folder.parent.Some? ==> folder.parent.value in fs)
    ensures IsForest(fs[id := folder])
  {
    var rank :| Ranks(Parents(fs), rank) && fs.Keys <= rank.Keys;
    var top: nat := if folder.parent.Some? then rank[folder.parent.value] + 1 else 0;
    LongerRanks(fs, id, folder, rank, top);
  }

  lemma LongerRanks(fs: Folders, id: Id, folder: Folder, rank: map<Id, nat>, top: nat)
    requires Ranks(Parents(fs), rank) && fs.Keys <= rank.Keys && id !in fs
    requires forall x :: x in fs && fs[x].parent.Some? ==> fs[x].parent.value in fs
    requires folder.parent.Some? ==> folder.parent.value in fs && rank[folder.parent.value] < top
    ensures Ranks(Parents(fs[id := folder]), rank[id := top]) && IsForest(fs[id := folder])
  {
    var after := fs[id := folder];
    forall x | x in Parents(after)
      ensures Parents(after)[x] in rank[id := top] && rank[id := top][Parents(after)[x]] < rank[id := top][x]
    {
      if x != id { assert x in Parents(fs) && Parents(fs)[x] == Parents(after)[x] && Parents(fs)[x] in fs; }
    }
    assert after.Keys <= rank[id := top].Keys;
  }

  lemma OpKeepsForest(d: Drive, op: Op, order: Order)
    requires Lists(order) && IsForest(d.folders) && Allowed(d, op)
    ensures IsForest(Performed(d, op, order).folders)
  {
    match op
    case Create(id, name, parent, user) => CreateKeepsForest(d.folders, id, Folder(name, parent, user, None));
    case Move(id, newParent, _) => MoveKeepsForest(d.folders, id, newParent);
    case MoveOnto(id, newParent, user, target) =>
      ConflictOutside(d.folders, id, newParent, user, target);
      MovedOntoKeeps(d, id, target, user, order);
    case SoftDelete(id, user, now) => SameParentsSameShape(d.folders, SoftDeleted(d, id, user, now).folders);
    case RestoreTree(id, t) => SameParentsSameShape(d.folders, Restored(d, id, t).folders);
    case HardDelete(id) => DeleteForest(d, id);
  }

  /**
   In every state that a run of the service reaches from a forest, no folder is below itself
   and every parent exists; so the walks towards the root, and restoring, terminate there.
   */
  lemma {:induction false} EveryRunKeepsForest(d: Drive, ops: seq<Op>, order: Order)
    requires Lists(order) && IsForest(d.folders) && CanRun(d, ops, order)
    ensures IsForest(After(d, ops, order).folders)
    decreases |ops|
  {
    if |ops| > 0 {
      OpKeepsForest(d, ops[0], order);
      EveryRunKeepsForest(Performed(d, ops[0], order), ops[1..], order);
    }
  }
}
