/** Soft deletion and restoring of folder trees. */
module Trash {
  // The queries of backend/src/folder/folder-deletion-queries.ts and the methods of
  // backend/src/folder/folder.service.ts that use them.

  import opened Wrappers
  import opened Forest
  import opened UniqueNames

  // ---------------------------------------------------------------- soft deletion

  function Tree(fs: Folders, id: Id, user: Id): set<Id> {
    if Active(fs, id, user) then Reach(ActiveUp(fs, user), {id}) else {}
  }

  function TrashFolders(fs: Folders, tree: set<Id>, t: int): Folders {
    map x | x in fs :: if x in tree && fs[x].deletedAt == None then fs[x].(deletedAt := Some(t)) else fs[x]
  }

  function TrashFiles(files: Files, tree: set<Id>, user: Id, t: int): Files {
    map f | f in files ::
      if InFolders(files[f], tree) && files[f].owner == user && files[f].deletedAt == None
      then files[f].(deletedAt := Some(t)) else files[f]
  }

  /** `softDeleteFolderTree`. */
  function SoftDeleted(d: Drive, id: Id, user: Id, t: int): Drive {
    var tree := Tree(d.folders, id, user);
    Drive(TrashFolders(d.folders, tree, t), TrashFiles(d.files, tree, user, t))
  }

  // ---------------------------------------------------------------- restoring

  /** The folders a restore descends into: those trashed at the very same time. */
  function MarkedUp(fs: Folders, t: int): Up {
    map x | x in fs && fs[x].deletedAt == Some(t) && fs[x].parent.Some? :: fs[x].parent.value
  }

  function RestoreFolders(fs: Folders, tree: set<Id>): Folders {
    map x | x in fs :: if x in tree then fs[x].(deletedAt := None) else fs[x]
  }

  function RestoreFiles(files: Files, tree: set<Id>, t: int): Files {
    map f | f in files ::
      if InFolders(files[f], tree) && files[f].deletedAt == Some(t)
      then files[f].(deletedAt := None) else files[f]
  }

  /** `restoreRecursive`. */
  function Restored(d: Drive, id: Id, t: int): Drive {
    var tree := Reach(MarkedUp(d.folders, t), {id});
    Drive(RestoreFolders(d.folders, tree), RestoreFiles(d.files, tree, t))
  }

  // ---------------------------------------------------------------- restoring undoes deleting

  lemma TreeIsActive(fs: Folders, id: Id, user: Id)
    ensures forall x :: x in Tree(fs, id, user) ==> Active(fs, x, user)
  {
    if Active(fs, id, user) {
      ReachLeast(ActiveUp(fs, user), {id}, set x | x in fs && Active(fs, x, user));
    }
  }

  predicate HangsIn(folder: Folder, tree: set<Id>) {
    folder.parent.Some? && folder.parent.value in tree
  }

  /** Nothing next to the tree carries the timestamp already: the millisecond is a fresh one there. */
  predicate FreshTime(d: Drive, id: Id, user: Id, t: int) {
    var tree := Tree(d.folders, id, user);
    && (forall x :: x in d.folders && d.folders[x].deletedAt == Some(t) ==> !HangsIn(d.folders[x], tree))
    && (forall f :: f in d.files && d.files[f].deletedAt == Some(t) ==> !InFolders(d.files[f], tree))
  }

  /** A restore reaches everything the deletion reached. */
  lemma RestoreReachesTree(d: Drive, id: Id, user: Id, t: int)
    requires Active(d.folders, id, user)
    ensures Tree(d.folders, id, user) <= Reach(MarkedUp(SoftDeleted(d, id, user, t).folders, t), {id})
  {
    var up := ActiveUp(d.folders, user);
    var marked := MarkedUp(SoftDeleted(d, id, user, t).folders, t);
    ReachClosed(up, {id});
    forall x | x in up && up[x] in Reach(up, {id}) ensures x in marked && marked[x] == up[x] {
      assert x in Reach(up, {id});
    }
    ReachAgrees(up, marked, {id});
  }

  /** And, if the timestamp is fresh, nothing else. */
  lemma RestoreReachesOnlyTree(d: Drive, id: Id, user: Id, t: int)
    requires Active(d.folders, id, user) && FreshTime(d, id, user, t)
    ensures Reach(MarkedUp(SoftDeleted(d, id, user, t).folders, t), {id}) == Tree(d.folders, id, user)
  {
    var tree := Tree(d.folders, id, user);
    var marked := MarkedUp(SoftDeleted(d, id, user, t).folders, t);
    RestoreReachesTree(d, id, user, t);
    ReachClosed(ActiveUp(d.folders, user), {id});
    ReachLeast(marked, {id}, tree);
  }

  /**
   Restoring right after deleting gives back the drive exactly as it was, folders and files
   trashed earlier included, if and only if the timestamp is fresh next to the tree.
   */
  lemma RestoreUndoesSoftDelete(d: Drive, id: Id, user: Id, t: int)
    requires Active(d.folders, id, user)
    ensures Restored(SoftDeleted(d, id, user, t), id, t) == d <==> FreshTime(d, id, user, t)
  {
    var tree := Tree(d.folders, id, user);
    TreeIsActive(d.folders, id, user);
    if FreshTime(d, id, user, t) {
      RestoreReachesOnlyTree(d, id, user, t);
      var back := Restored(SoftDeleted(d, id, user, t), id, t);
      forall x | x in d.folders ensures back.folders[x] == d.folders[x] {
        assert x in tree ==> Active(d.folders, x, user);
      }
      forall f | f in d.files ensures back.files[f] == d.files[f] {
      }
      assert back.folders == d.folders && back.files == d.files;
    } else {
      StaleTimeShows(d, id, user, t);
    }
  }

  /** What carried the timestamp before comes out of the trash with the tree. */
  lemma StaleTimeShows(d: Drive, id: Id, user: Id, t: int)
    requires Active(d.folders, id, user) && !FreshTime(d, id, user, t)
    ensures Restored(SoftDeleted(d, id, user, t), id, t) != d
  {
    var tree := Tree(d.folders, id, user);
    var gone := SoftDeleted(d, id, user, t);
    var back := Restored(gone, id, t);
    RestoreReachesTree(d, id, user, t);
    var marked := MarkedUp(gone.folders, t);
    ReachClosed(marked, {id});
    if x :| x in d.folders && d.folders[x].deletedAt == Some(t) && HangsIn(d.folders[x], tree) {
      assert gone.folders[x] == d.folders[x];
      assert x in marked && marked[x] in tree;
      assert back.folders[x].deletedAt == None;
    } else {
      var f :| f in d.files && d.files[f].deletedAt == Some(t) && InFolders(d.files[f], tree);
      assert gone.files[f] == d.files[f];
      assert back.files[f].deletedAt == None;
    }
  }

  const OUTER := Folder("a", None, 7, None)
  const INNER := Folder("b", Some(1), 7, Some(5))

  /** Where the condition fails: a folder trashed before at the same millisecond comes out as well. */
  lemma RestoreGivesBackMore()
    ensures var d := Drive(map[1 := OUTER, 2 := INNER], map[]);
      && Active(d.folders, 1, 7) && !FreshTime(d, 1, 7, 5)
      && Restored(SoftDeleted(d, 1, 7, 5), 1, 5).folders[2].deletedAt == None
  {
    var d := Drive(map[1 := OUTER, 2 := INNER], map[]);
    var gone := SoftDeleted(d, 1, 7, 5);
    ReachClosed(ActiveUp(d.folders, 7), {1});
    RestoreReachesTree(d, 1, 7, 5);
    assert HangsIn(INNER, Tree(d.folders, 1, 7)) && d.folders[2] == INNER;
    assert gone.folders[2] == INNER;
    var marked := MarkedUp(gone.folders, 5);
    assert 2 in marked && marked[2] == 1;
    ReachClosed(marked, {1});
  }

  /** A subtree trashed on its own before stays in the trash when the tree around it comes back. */
  lemma NestedTrashComesBackInTurn(d: Drive, inner: Id, outer: Id, user: Id, t: int, u: int)
    requires Active(d.folders, inner, user) && FreshTime(d, inner, user, t)
    requires Active(SoftDeleted(d, inner, user, t).folders, outer, user)
    requires FreshTime(SoftDeleted(d, inner, user, t), outer, user, u)
    ensures var both := SoftDeleted(SoftDeleted(d, inner, user, t), outer, user, u);
      Restored(Restored(both, outer, u), inner, t) == d
  {
    RestoreUndoesSoftDelete(d, inner, user, t);
    RestoreUndoesSoftDelete(SoftDeleted(d, inner, user, t), outer, user, u);
  }

  // ---------------------------------------------------------------- how the recursion computes it

  /** Restoring the subtrees of some children leaves the subtree of another one as it was. */
  lemma OtherChildUnaffected(fs: Folders, rank: map<Id, nat>, id: Id, t: int, done: set<Id>, c: Id)
    requires Ranks(MarkedUp(fs, t), rank)
    requires done + {c} <= Children(MarkedUp(fs, t), {id}) && c !in done
    ensures var after := RestoreFolders(fs, Reach(MarkedUp(fs, t), done));
      Reach(MarkedUp(after, t), {c}) == Reach(MarkedUp(fs, t), {c})
  {
    var up := MarkedUp(fs, t);
    var after := MarkedUp(RestoreFolders(fs, Reach(up, done)), t);
    SubtreesApart(up, rank, id, done, c);
    ReachClosed(up, {c});
    ReachAgrees(up, after, {c});
    ReachLeast(after, {c}, Reach(up, {c}));
  }

  // ---------------------------------------------------------------- the service

  datatype RestoreResult = NotInTrash | RestoredAs(name: string, autoRenamed: bool)

  class TrashService {
    var folders: Folders
    var files: Files

    function Value(): Drive
      reads this
    {
      Drive(folders, files)
    }

    constructor (d: Drive)
      ensures Value() == d
    {
      folders, files := d.folders, d.files;
    }

    /** `softDelete`, with the closure the recursive query builds. */
    method SoftDelete(id: Id, user: Id, now: int) returns (found: bool)
      modifies this
      ensures found <==> Active(old(folders), id, user)
      ensures Value() == SoftDeleted(old(Value()), id, user, now)
      ensures found ==>
        var tree := Reach(ActiveUp(old(folders), user), {id});
        && folders.Keys == old(folders).Keys && files.Keys == old(files).Keys
        && (forall x :: x in folders ==>
             folders[x] == if x in tree then old(folders)[x].(deletedAt := Some(now)) else old(folders)[x])
        && (forall f :: f in files ==>
             var file := old(files)[f];
             files[f] == if file.folder.Some? && file.folder.value in tree && file.owner == user
                           && file.deletedAt == None then file.(deletedAt := Some(now)) else file)
    {
      TreeIsActive(folders, id, user);
      found := Active(folders, id, user);
      if !found {
        NothingTrashed(folders, files, user, now);
        return;
      }
      var up := ActiveUp(folders, user);
      var tree := {id};
      while !(Children(up, tree) <= tree)
        invariant Reach(up, tree) == Reach(up, {id})
        decreases up.Keys - tree
      {
        tree := tree + Children(up, tree);
      }
      folders, files := TrashFolders(folders, tree, now), TrashFiles(files, tree, user, now);
    }

    /** `restore`: a name taken meanwhile is replaced by a numbered one. */
    method Restore(id: Id, user: Id) returns (r: RestoreResult)
      requires IsForest(folders)
      modifies this
      ensures r.NotInTrash? <==>
        !(id in old(folders) && old(folders)[id].owner == user && old(folders)[id].deletedAt.Some?)
      ensures r.NotInTrash? ==> Value() == old(Value())
      ensures r.RestoredAs? ==>
        var d := Restored(old(Value()), id, old(folders)[id].deletedAt.value);
        Value() == Drive(d.folders[id := d.folders[id].(name := r.name)], d.files)
      ensures r.RestoredAs? ==> Conflicts(old(folders), old(folders)[id].parent, r.name, user, id) == {}
      ensures r.RestoredAs? && !r.autoRenamed ==> r.name == old(folders)[id].name
    {
      if !(id in folders && folders[id].owner == user && folders[id].deletedAt.Some?) {
        return NotInTrash;
      }
      var folder := folders[id];
      var finalName, autoRenamed := folder.name, false;
      if Conflicts(folders, folder.parent, folder.name, user, id) != {} {
        finalName, autoRenamed := UniqueName(folder.name, ExistingNames(folders, files, folder.parent, user)), true;
        UniqueNameIsFree(folders, files, folder.parent, folder.name, user, id);
      }
      ghost var rank :| Ranks(Parents(folders), rank) && folders.Keys <= rank.Keys;
      var t := folder.deletedAt.value;
      WithinFolders(folders, t, id, rank);
      RestoreRecursive(id, t, rank, folders.Keys);
      if autoRenamed {
        folders := folders[id := folders[id].(name := finalName)];
      } else {
        NameStays(old(folders), Reach(MarkedUp(old(folders), t), {id}), id);
      }
      r := RestoredAs(finalName, autoRenamed);
    }

    /** `restoreRecursive`; `pool` holds the folders that may still be visited. */
    method RestoreRecursive(id: Id, t: int, ghost rank: map<Id, nat>, ghost pool: set<Id>)
      requires id in folders && Ranks(MarkedUp(folders, t), rank) && id in rank
      requires Reach(MarkedUp(folders, t), {id}) <= pool
      modifies this
      ensures Value() == Restored(old(Value()), id, t)
      decreases pool
    {
      ghost var start := Value();
      files := RestoreFiles(files, {id}, t);
      var children := set x | x in folders && folders[x].deletedAt == Some(t) && folders[x].parent == Some(id);
      assert children == Children(MarkedUp(folders, t), {id});
      NothingYet(start, id, t, children);
      var todo := children;
      while |todo| > 0
        invariant todo <= children && Value() == PartlyRestored(start, id, t, children - todo)
        decreases todo
      {
        ghost var some := SomeOf(todo);
        var child :| child in todo;
        NextChild(start, rank, id, t, children, todo, child, pool);
        RestoreRecursive(child, t, rank, pool - {id});
        todo := todo - {child};
      }
      AllRestored(start, id, t, children, todo);
      folders := folders[id := folders[id].(deletedAt := None)];
    }
  }

  // ---------------------------------------------------------------- the steps of the recursion

  /** The drive once the files of `id` and the subtrees of its children `done` are restored. */
  function PartlyRestored(d: Drive, id: Id, t: int, done: set<Id>): Drive {
    var tree := Reach(MarkedUp(d.folders, t), done);
    Drive(RestoreFolders(d.folders, tree), RestoreFiles(d.files, {id} + tree, t))
  }

  lemma NothingYet(d: Drive, id: Id, t: int, children: set<Id>)
    ensures Drive(d.folders, RestoreFiles(d.files, {id}, t)) == PartlyRestored(d, id, t, children - children)
  {
    ReachNothing(MarkedUp(d.folders, t), children - children);
    assert {id} + {} == {id};
    assert RestoreFolders(d.folders, {}) == d.folders;
  }

  lemma ChildRestored(d: Drive, rank: map<Id, nat>, id: Id, t: int, done: set<Id>, child: Id)
    requires Ranks(MarkedUp(d.folders, t), rank)
    requires done + {child} <= Children(MarkedUp(d.folders, t), {id}) && child !in done
    ensures Restored(PartlyRestored(d, id, t, done), child, t) == PartlyRestored(d, id, t, done + {child})
  {
    var up := MarkedUp(d.folders, t);
    OtherChildUnaffected(d.folders, rank, id, t, done, child);
    ReachUnion(up, done, {child});
    RestoreTwice(d.folders, d.files, Reach(up, done), Reach(up, {child}), id, t);
  }

  lemma RestoreTwice(fs: Folders, files: Files, a: set<Id>, b: set<Id>, id: Id, t: int)
    ensures RestoreFolders(RestoreFolders(fs, a), b) == RestoreFolders(fs, a + b)
    ensures RestoreFiles(RestoreFiles(files, {id} + a, t), b, t) == RestoreFiles(files, {id} + (a + b), t)
  {
    forall f | f in files
      ensures RestoreFiles(RestoreFiles(files, {id} + a, t), b, t)[f] == RestoreFiles(files, {id} + (a + b), t)[f]
    {
      assert InFolders(files[f], {id} + (a + b)) <==> InFolders(files[f], {id} + a) || InFolders(files[f], b);
    }
  }

  /** One round of the loop over the children. */
  lemma NextChild(
    d: Drive, rank: map<Id, nat>, id: Id, t: int, children: set<Id>, todo: set<Id>, child: Id, pool: set<Id>)
    requires Ranks(MarkedUp(d.folders, t), rank) && id in rank && id in d.folders
    requires children == Children(MarkedUp(d.folders, t), {id}) && child in todo && todo <= children
    requires Reach(MarkedUp(d.folders, t), {id}) <= pool
    ensures var now := PartlyRestored(d, id, t, children - todo);
      && child in now.folders && child in rank && Ranks(MarkedUp(now.folders, t), rank)
      && id in pool && Reach(MarkedUp(now.folders, t), {child}) <= pool - {id}
      && Restored(now, child, t) == PartlyRestored(d, id, t, children - (todo - {child}))
  {
    var done := children - todo;
    ChildPrepared(d.folders, rank, id, t, done, child, pool);
    ChildRestored(d, rank, id, t, done, child);
    assert children - (todo - {child}) == done + {child};
  }

  lemma AllRestored(d: Drive, id: Id, t: int, children: set<Id>, todo: set<Id>)
    requires id in d.folders && children == Children(MarkedUp(d.folders, t), {id}) && |todo| == 0
    ensures var all := PartlyRestored(d, id, t, children - todo);
      && id in all.folders
      && Drive(all.folders[id := all.folders[id].(deletedAt := None)], all.files) == Restored(d, id, t)
  {
    assert children - todo == children;
    ReachSplits(MarkedUp(d.folders, t), id);
  }

  /** The state in which a restore descends into `child`, after the children `done`. */
  lemma ChildPrepared(fs: Folders, rank: map<Id, nat>, id: Id, t: int, done: set<Id>, child: Id, pool: set<Id>)
    requires Ranks(MarkedUp(fs, t), rank) && id in rank
    requires done + {child} <= Children(MarkedUp(fs, t), {id}) && child !in done
    requires Reach(MarkedUp(fs, t), {id}) <= pool
    ensures var now := RestoreFolders(fs, Reach(MarkedUp(fs, t), done));
      && child in now && child in rank && Ranks(MarkedUp(now, t), rank) && id in pool
      && Reach(MarkedUp(now, t), {child}) == Reach(MarkedUp(fs, t), {child})
      && Reach(MarkedUp(now, t), {child}) <= pool - {id}
  {
    var up := MarkedUp(fs, t);
    OtherChildUnaffected(fs, rank, id, t, done, child);
    ReachClosed(up, {id});
    ReachLeast(up, {child}, Reach(up, {id}));
    if id in Reach(up, {child}) { ReachRanks(up, rank, child, id); }
  }

  lemma NothingTrashed(fs: Folders, files: Files, user: Id, t: int)
    ensures TrashFolders(fs, {}, t) == fs && TrashFiles(files, {}, user, t) == files
  {
    forall f | f in files ensures TrashFiles(files, {}, user, t)[f] == files[f] {
    }
  }

  lemma WithinFolders(fs: Folders, t: int, id: Id, rank: map<Id, nat>)
    requires id in fs && Ranks(Parents(fs), rank)
    ensures Ranks(MarkedUp(fs, t), rank) && Reach(MarkedUp(fs, t), {id}) <= fs.Keys
  {
    forall x | x in MarkedUp(fs, t) ensures x in Parents(fs) && Parents(fs)[x] == MarkedUp(fs, t)[x] {
    }
    ReachLeast(MarkedUp(fs, t), {id}, fs.Keys);
  }

  // ---------------------------------------------------------------- names at the old place

  function ExistingNames(fs: Folders, files: Files, parent: Option<Id>, user: Id): set<string> {
    (set x | x in fs && Active(fs, x, user) && fs[x].parent == parent :: fs[x].name)
    + (set f | f in files && files[f].owner == user && files[f].deletedAt == None && files[f].folder == parent
         :: files[f].name)
  }

  /** A name that no file or folder at the place has is no folder's name there. */
  lemma UniqueNameIsFree(fs: Folders, files: Files, parent: Option<Id>, name: string, user: Id, except: Id)
    ensures Conflicts(fs, parent, UniqueName(name, ExistingNames(fs, files, parent, user)), user, except) == {}
  {
    var free := UniqueName(name, ExistingNames(fs, files, parent, user));
    assert forall x :: x in fs && Active(fs, x, user) && fs[x].parent == parent ==>
      fs[x].name in ExistingNames(fs, files, parent, user);
  }

  lemma NameStays(fs: Folders, tree: set<Id>, id: Id)
    requires id in fs
    ensures var after := RestoreFolders(fs, tree); after[id := after[id].(name := fs[id].name)] == after
  {
  }
}
