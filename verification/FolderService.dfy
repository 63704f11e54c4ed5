/** The folder service object. */
module FolderService {
  // `move` with its merge branch, and the walks towards the root (backend/src/folder/folder.service.ts,
  // backend/src/common/name-conflict.service.ts).

  import opened Wrappers
  import opened Forest
  import opened UniqueNames
  import opened FolderMerge
  import opened MergeSafety
  import opened FolderMoves

  datatype ConflictAction = Skip | Overwrite | Rename | MergeInto

  datatype MoveResult =
    | Moved(id: Id)
    | NotFound
    | IntoItself
    | IntoSubfolder
    | NoDestination
    | NameTaken(id: Id)

  /** The verdict on a move before names are compared. */
  function Refusal(fs: Folders, id: Id, newParent: Option<Id>, user: Id): Option<MoveResult> {
    if !Active(fs, id, user) then Some(NotFound)
    else if newParent.None? then None
    else if newParent.value == id then Some(IntoItself)
    else if newParent.value in Below(fs, id) then Some(IntoSubfolder)
    else if !Active(fs, newParent.value, user) then Some(NoDestination)
    else None
  }

  /** The folders that are not in the trash, whoever owns them. */
  function UntrashedUp(fs: Folders): Up {
    map x | x in fs && fs[x].deletedAt == None && fs[x].parent.Some? :: fs[x].parent.value
  }

  /** A folder of the destination's name clash is never inside the folder that moves. */
  lemma ConflictOutside(fs: Folders, id: Id, newParent: Option<Id>, user: Id, t: Id)
    requires Refusal(fs, id, newParent, user) == None
    requires t in Conflicts(fs, newParent, fs[id].name, user, id)
    ensures t !in Below(fs, id)
  {
    var p := Parents(fs);
    if t in Below(fs, id) { ReachParent(p, {id}, t); }
  }

  /** One level up on a walk: reaching `a` from `x` is reaching it from the parent of `x`. */
  lemma WalkUp(up: Up, a: Id, x: Id)
    requires x != a
    ensures x in Reach(up, {a}) <==> x in up && up[x] in Reach(up, {a})
  {
    ReachClosed(up, {a});
    if x in Reach(up, {a}) { ReachParent(up, {a}, x); }
  }

  lemma WalkHit(up: Up, a: Id)
    ensures a in Reach(up, {a})
  {
    ReachClosed(up, {a});
  }

  /** A path of folders, each the parent of the next. */
  predicate IsTrail(fs: Folders, user: Id, trail: seq<Id>) {
    && (forall i :: 0 <= i < |trail| ==> Active(fs, trail[i], user))
    && (forall i :: 0 < i < |trail| ==> fs[trail[i]].parent == Some(trail[i - 1]))
  }

  /** A folder of the user, not in the trash, with that name at that place. */
  predicate SameNameAt(fs: Folders, x: Id, name: string, parent: Option<Id>, user: Id) {
    x in fs && fs[x].owner == user && fs[x].deletedAt == None && fs[x].parent == parent && fs[x].name == name
  }

  lemma ConflictsAre(fs: Folders, parent: Option<Id>, name: string, user: Id, except: Id)
    ensures forall x :: x in Conflicts(fs, parent, name, user, except) <==>
      x != except && SameNameAt(fs, x, name, parent, user)
  {
  }

  class FolderService {
    var folders: Folders
    var files: Files
    const order: Order

    function Value(): Drive
      reads this
    {
      Drive(folders, files)
    }

    constructor (d: Drive, o: Order)
      ensures Value() == d && order == o
    {
      folders, files, order := d.folders, d.files, o;
    }

    /** The walk of `move` from the destination to the root. */
    method IsInside(start: Id, id: Id) returns (inside: bool)
      requires IsForest(folders)
      ensures inside <==> start in Below(folders, id)
    {
      ghost var p := Parents(folders);
      ghost var rank :| Ranks(p, rank) && folders.Keys <= rank.Keys;
      var current := Some(start);
      while current.Some?
        invariant start in Below(folders, id) <==> current.Some? && current.value in Below(folders, id)
        decreases if current.Some? && current.value in p then 2 + rank[current.value]
                  else if current.Some? then 1 else 0
      {
        if current.value == id {
          WalkHit(p, id);
          return true;
        }
        WalkUp(p, id, current.value);
        current := if current.value in folders then folders[current.value].parent else None;
      }
      inside := false;
    }

    /** `isDescendantOf`: up through folders that are not in the trash. */
    method IsDescendantOf(folderId: Id, ancestorId: Id) returns (r: bool)
      requires IsForest(folders)
      ensures r <==> folderId in Reach(UntrashedUp(folders), {ancestorId})
    {
      ghost var up := UntrashedUp(folders);
      ghost var rank :| Ranks(Parents(folders), rank) && folders.Keys <= rank.Keys;
      var current := Some(folderId);
      while current.Some?
        invariant folderId in Reach(up, {ancestorId}) <==> current.Some? && current.value in Reach(up, {ancestorId})
        decreases if current.Some? && current.value in Parents(folders) then 2 + rank[current.value]
                  else if current.Some? then 1 else 0
      {
        if current.value == ancestorId {
          WalkHit(up, ancestorId);
          return true;
        }
        WalkUp(up, ancestorId, current.value);
        if current.value !in folders || folders[current.value].deletedAt.Some? {
          return false;
        }
        current := folders[current.value].parent;
      }
      r := false;
    }

    /** `getBreadcrumbs`: the longest trail of the user's active folders that ends at `folderId`. */
    method GetBreadcrumbs(folderId: Id, user: Id) returns (trail: seq<Id>)
      requires IsForest(folders)
      ensures IsTrail(folders, user, trail)
      ensures |trail| == 0 <==> !Active(folders, folderId, user)
      ensures |trail| > 0 ==> trail[|trail| - 1] == folderId
      ensures |trail| > 0 && folders[trail[0]].parent.Some? ==> !Active(folders, folders[trail[0]].parent.value, user)
    {
      ghost var rank :| Ranks(Parents(folders), rank) && folders.Keys <= rank.Keys;
      trail := [];
      var current := Some(folderId);
      while current.Some?
        invariant IsTrail(folders, user, trail)
        invariant |trail| == 0 ==> current == Some(folderId)
        invariant |trail| > 0 ==> trail[|trail| - 1] == folderId && folders[trail[0]].parent == current
        decreases if current.Some? && current.value in Parents(folders) then 2 + rank[current.value]
                  else if current.Some? then 1 else 0
      {
        if !Active(folders, current.value, user) {
          break;
        }
        trail := [current.value] + trail;
        current := folders[current.value].parent;
      }
    }

    /** The first loop of `mergeFolderContents`. */
    method MoveFiles(s: Id, t: Id, user: Id)
      requires Lists(order)
      modifies this`files
      ensures files
        == MergeFiles(old(files), Listed(order, FilesIn(old(files), s, user)), t, FileNames(old(files), t, user))
    {
      var todo := Listed(order, FilesIn(files, s, user));
      var taken := FileNames(files, t, user);
      ghost var goal := MergeFiles(files, todo, t, taken);
      for i := 0 to |todo|
        invariant MergeFiles(files, todo[i..], t, taken) == goal
      {
        assert todo[i..][1..] == todo[i + 1..];
        if todo[i] in files {
          var f := files[todo[i]];
          var uniqueName := UniqueName(f.name, taken);
          files := files[todo[i] := f.(name := uniqueName, folder := Some(t))];
          if uniqueName != f.name {
            taken := taken + {uniqueName};
          }
        }
      }
    }

    /** `mergeFolderContents`; `pool` holds the folders that may still be a source. */
    method MergeFolderContents(s: Id, t: Id, user: Id, ghost pool: set<Id>)
      requires Lists(order) && Startable(Value(), s, t) && Below(folders, s) <= pool
      modifies this`folders, this`files
      ensures Value() == Merge(old(Value()), s, t, user, order, pool)
      decreases pool
    {
      ghost var start := Value();
      var items := Items(folders, Listed(order, SubFolders(folders, s, user)));
      var targetNames := Names(folders, t, user);
      AfterFiles(start, s, t, user, order);
      WalkHit(Parents(folders), s);
      MoveFiles(s, t, user);
      ghost var rest := pool - {s};
      ghost var goal := MergeFolders(Value(), items, t, targetNames, user, order, rest);
      ghost var done: set<Id> := {};
      for i := 0 to |items|
        invariant MergeFolders(Value(), items[i..], t, targetNames, user, order, rest) == goal
        invariant Different(items[i..]) && Mid(start, Value(), s, user, done, Ids(items[i..]))
      {
        var c := items[i];
        ghost var before := Value();
        assert items[i..][0] == c && items[i..][1..] == items[i + 1..];
        TakeFirst(items[i..]);
        RoundReady(start, before, s, t, user, done, Ids(items[i..]), c.id, pool);
        if c.name in targetNames {
          var hits := Listed(order, Named(folders, t, c.name, user));
          if |hits| > 0 {
            TargetChildOutside(folders, s, t, c.id, hits[0]);
            MergeFolderContents(c.id, hits[0], user, rest);
            DeleteFolder(c.id);
          }
        } else {
          folders := Reparent(folders, c.id, t);
        }
        assert Value() == MergeOne(before, c, t, targetNames, user, order, rest);
        MergeOneKeeps(before, c, s, t, targetNames, user, order, rest);
        MidStep(start, before, Value(), s, t, user, done, Ids(items[i..]), c.id);
        done := done + {c.id};
      }
    }

    method DeleteFolder(x: Id)
      modifies this`folders, this`files
      ensures Value() == Delete(old(Value()), x)
    {
      var gone := Reach(Parents(folders), {x});
      folders, files := folders - gone, map f | f in files && !InFolders(files[f], gone) :: files[f];
    }

    /** `move`. */
    method Move(id: Id, newParent: Option<Id>, user: Id, action: Option<ConflictAction>) returns (r: MoveResult)
      requires Lists(order) && IsForest(folders)
      modifies this`folders, this`files
      ensures IsForest(folders)
      ensures r.NotFound? <==> !Active(old(folders), id, user)
      ensures r.IntoItself? <==> Active(old(folders), id, user) && newParent == Some(id)
      ensures r.IntoSubfolder? <==>
        && Active(old(folders), id, user) && newParent.Some? && newParent.value != id
        && newParent.value in Reach(Parents(old(folders)), {id})
      ensures r.NoDestination? <==>
        && Active(old(folders), id, user) && newParent.Some? && newParent.value != id
        && newParent.value !in Reach(Parents(old(folders)), {id}) && !Active(old(folders), newParent.value, user)
      ensures r.NameTaken? ==> r.id != id && SameNameAt(old(folders), r.id, old(folders)[id].name, newParent, user)
      ensures r == Moved(id) && (action == None || action == Some(Skip) || action == Some(MergeInto)) ==>
        forall x :: x in old(folders) && x != id ==>
          !SameNameAt(old(folders), x, old(folders)[id].name, newParent, user)
      ensures r.Moved? && r.id != id ==>
        action == Some(MergeInto) && SameNameAt(old(folders), r.id, old(folders)[id].name, newParent, user)
      ensures Refusal(old(folders), id, newParent, user).Some? ==>
        r == Refusal(old(folders), id, newParent, user).value && Value() == old(Value())
      ensures Refusal(old(folders), id, newParent, user).None? ==>
        var hits := Listed(order, Conflicts(old(folders), newParent, old(folders)[id].name, user, id));
        if |hits| > 0 && (action == None || action == Some(Skip)) then
          r == NameTaken(hits[0]) && Value() == old(Value())
        else if |hits| > 0 && action == Some(MergeInto) then
          r == Moved(hits[0]) && Startable(old(Value()), id, hits[0])
            && Value() == MovedOnto(old(Value()), id, hits[0], user, order)
        else
          r == Moved(id) && files == old(files)
            && folders == old(folders)[id := old(folders)[id].(parent := newParent)]
    {
      if !Active(folders, id, user) {
        return NotFound;
      }
      if newParent.Some? {
        if newParent.value == id {
          return IntoItself;
        }
        var inside := IsInside(newParent.value, id);
        if inside {
          return IntoSubfolder;
        }
        if !Active(folders, newParent.value, user) {
          return NoDestination;
        }
      }
      var hits := Listed(order, Conflicts(folders, newParent, folders[id].name, user, id));
      ConflictsAre(folders, newParent, folders[id].name, user, id);
      if |hits| > 0 {
        if action == None || action == Some(Skip) {
          return NameTaken(hits[0]);
        }
        if action == Some(MergeInto) {
          ConflictOutside(folders, id, newParent, user, hits[0]);
          BelowWithin(folders, id);
          MovedOntoKeeps(Value(), id, hits[0], user, order);
          MergeFolderContents(id, hits[0], user, folders.Keys);
          DeleteFolder(id);
          return Moved(hits[0]);
        }
      }
      MoveKeepsForest(folders, id, newParent);
      folders := folders[id := folders[id].(parent := newParent)];
      r := Moved(id);
    }
  }

  lemma MoveKeepsForest(fs: Folders, id: Id, newParent: Option<Id>)
    requires IsForest(fs) && id in fs
    requires newParent.Some? ==> newParent.value in fs && newParent.value !in Below(fs, id)
    ensures IsForest(fs[id := fs[id].(parent := newParent)])
  {
    if newParent.Some? {
      ReparentForest(fs, id, newParent.value);
    } else {
      var rank :| Ranks(Parents(fs), rank) && fs.Keys <= rank.Keys;
      var after := fs[id := fs[id].(parent := None)];
      forall x | x in Parents(after) ensures x in Parents(fs) && Parents(fs)[x] == Parents(after)[x] {
      }
      assert Ranks(Parents(after), rank) && after.Keys <= rank.Keys;
    }
  }

  /** The state in which the second loop of a merge handles its next child. */
  lemma RoundReady(d0: Drive, d: Drive, s: Id, t: Id, user: Id, done: set<Id>, todo: set<Id>, c: Id, pool: set<Id>)
    requires Startable(d0, s, t) && Mid(d0, d, s, user, done, todo) && c in todo && Below(d0.folders, s) <= pool
    ensures s in pool && s != t && c in d.folders && t in d.folders && d.folders[c].parent == Some(s)
    ensures t !in Below(d.folders, c) && Below(d.folders, c) <= pool - {s}
  {
    Frontier(d0, d, s, t, user, done, todo, c);
    WalkHit(Parents(d0.folders), s);
  }
}
