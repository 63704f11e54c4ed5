/** Merging the contents of two folders. */
module FolderMerge {
  // `mergeFolderContents` (backend/src/common/name-conflict.service.ts) as a function, and what a merge
  // keeps: the tree shape, everything outside the source, and the live files under it.

  import opened Wrappers
  import opened Forest
  import opened UniqueNames

  // ---------------------------------------------------------------- the queries

  /** The order in which the database lists the rows of a query. */
  type Order = set<Id> -> seq<Id>

  ghost predicate Lists(order: Order) {
    forall s: set<Id> ::
      && (forall x :: x in order(s) <==> x in s)
      && (forall i, j :: 0 <= i < j < |order(s)| ==> order(s)[i] != order(s)[j])
  }

  function Listed(order: Order, s: set<Id>): (r: seq<Id>)
    requires Lists(order)
    ensures forall i :: 0 <= i < |r| ==> r[i] in s
    ensures forall x :: x in s ==> x in r
    ensures forall i, j :: 0 <= i < j < |r| ==> r[i] != r[j]
  {
    assert forall i :: 0 <= i < |order(s)| ==> order(s)[i] in order(s);
    order(s)
  }

  function SubFolders(fs: Folders, p: Id, user: Id): set<Id> {
    set x | x in fs && Active(fs, x, user) && fs[x].parent == Some(p)
  }

  function Named(fs: Folders, p: Id, name: string, user: Id): set<Id> {
    set x | x in fs && Active(fs, x, user) && fs[x].parent == Some(p) && fs[x].name == name
  }

  predicate Live(files: Files, f: Id, user: Id) {
    f in files && files[f].owner == user && files[f].deletedAt == None
  }

  function FilesIn(files: Files, p: Id, user: Id): set<Id> {
    set f | f in files && Live(files, f, user) && files[f].folder == Some(p)
  }

  function Names(fs: Folders, p: Id, user: Id): set<string> {
    set x | x in SubFolders(fs, p, user) :: fs[x].name
  }

  function FileNames(files: Files, p: Id, user: Id): set<string> {
    set f | f in FilesIn(files, p, user) :: files[f].name
  }

  // ---------------------------------------------------------------- the merge

  function Reparent(fs: Folders, c: Id, t: Id): Folders {
    if c in fs then fs[c := fs[c].(parent := Some(t))] else fs
  }

  /** Deleting a row deletes everything that refers to it. */
  function Delete(d: Drive, x: Id): Drive {
    var gone := Reach(Parents(d.folders), {x});
    Drive(d.folders - gone, map f | f in d.files && !InFolders(d.files[f], gone) :: d.files[f])
  }

  /** The first loop: files go over one by one, renamed where their name is taken. */
  function MergeFiles(files: Files, todo: seq<Id>, t: Id, taken: set<string>): Files
    decreases |todo|
  {
    if |todo| == 0 then files
    else if todo[0] !in files then MergeFiles(files, todo[1..], t, taken)
    else
      var f := files[todo[0]];
      var unique := UniqueName(f.name, taken);
      MergeFiles(files[todo[0] := f.(name := unique, folder := Some(t))], todo[1..], t,
                 if unique != f.name then taken + {unique} else taken)
  }

  /** A source folder as the snapshot at the start of the merge lists it. */
  datatype Item = Item(id: Id, name: string)

  function Items(fs: Folders, ids: seq<Id>): (r: seq<Item>)
    requires forall i :: 0 <= i < |ids| ==> ids[i] in fs
    ensures |r| == |ids|
  {
    seq(|ids|, i requires 0 <= i < |ids| => Item(ids[i], fs[ids[i]].name))
  }

  /** One round of the second loop: merge into the folder of the same name, or move over. */
  function MergeOne(d: Drive, c: Item, t: Id, snapshot: set<string>, user: Id, order: Order, pool: set<Id>): Drive
    requires Lists(order)
    decreases pool, 1, 0
  {
    if c.name !in snapshot then Drive(Reparent(d.folders, c.id, t), d.files)
    else
      var hits := Listed(order, Named(d.folders, t, c.name, user));
      if |hits| == 0 then d else Delete(Merge(d, c.id, hits[0], user, order, pool), c.id)
  }

  function MergeFolders(
    d: Drive, todo: seq<Item>, t: Id, snapshot: set<string>, user: Id, order: Order, pool: set<Id>): Drive
    requires Lists(order)
    decreases pool, 2, |todo|
  {
    if |todo| == 0 then d
    else MergeFolders(MergeOne(d, todo[0], t, snapshot, user, order, pool), todo[1..], t, snapshot, user, order, pool)
  }

  /** `mergeFolderContents`; `pool` bounds the folders that may still be a source. */
  function Merge(d: Drive, s: Id, t: Id, user: Id, order: Order, pool: set<Id>): Drive
    requires Lists(order)
    decreases pool, 0, 0
  {
    if s !in pool then d
    else
      var files := MergeFiles(d.files, Listed(order, FilesIn(d.files, s, user)), t, FileNames(d.files, t, user));
      MergeFolders(Drive(d.folders, files), Items(d.folders, Listed(order, SubFolders(d.folders, s, user))), t,
                   Names(d.folders, t, user), user, order, pool - {s})
  }

  function Below(fs: Folders, x: Id): set<Id> {
    Reach(Parents(fs), {x})
  }

  // ---------------------------------------------------------------- what a change leaves alone

  /** Only folders in `u`, and files in the folders `v`, have changed or gone. */
  ghost predicate Kept(d: Drive, e: Drive, u: set<Id>, v: set<Id>) {
    && e.folders.Keys <= d.folders.Keys && e.files.Keys <= d.files.Keys
    && (forall x :: x in d.folders && x !in u ==> x in e.folders && e.folders[x] == d.folders[x])
    && (forall f :: f in d.files && !InFolders(d.files[f], v) ==> f in e.files && e.files[f] == d.files[f])
  }

  lemma KeptBoth(a: Drive, b: Drive, c: Drive, u: set<Id>, v: set<Id>, u1: set<Id>, v1: set<Id>)
    requires Kept(a, b, u, v) && Kept(b, c, u1, v1) && u1 <= u && v1 <= v
    ensures Kept(a, c, u, v)
  {
  }

  lemma KeptMore(a: Drive, b: Drive, u: set<Id>, v: set<Id>, u1: set<Id>, v1: set<Id>)
    requires Kept(a, b, u, v) && u <= u1 && v <= v1
    ensures Kept(a, b, u1, v1)
  {
  }

  /** A closed set that contains all changed folders is still closed. */
  lemma StillClosed(d: Drive, e: Drive, u: set<Id>, v: set<Id>, z: set<Id>)
    requires Kept(d, e, u, v) && u <= z && Closed(Parents(d.folders), z)
    ensures Closed(Parents(e.folders), z)
  {
    forall x | x in Parents(e.folders) && Parents(e.folders)[x] in z ensures x in z {
      if x !in u { assert x in Parents(d.folders) && Parents(d.folders)[x] == Parents(e.folders)[x]; }
    }
  }

  // ---------------------------------------------------------------- the tree shape

  /** Hanging a folder under one that is not below it keeps a forest. */
  lemma ReparentForest(fs: Folders, c: Id, t: Id)
    requires IsForest(fs) && c in fs && t in fs && t !in Below(fs, c)
    ensures IsForest(Reparent(fs, c, t))
  {
    var rank :| Ranks(Parents(fs), rank) && fs.Keys <= rank.Keys;
    var below := Below(fs, c);
    ReachClosed(Parents(fs), {c});
    var lifted := map x | x in rank :: if x in below then rank[x] + rank[t] + 1 else rank[x];
    var after := Reparent(fs, c, t);
    forall x | x in Parents(after) ensures Parents(after)[x] in lifted && lifted[Parents(after)[x]] < lifted[x] {
      if x != c {
        assert x in Parents(fs) && Parents(fs)[x] == Parents(after)[x];
        if x in below { ReachParent(Parents(fs), {c}, x); }
      }
    }
    assert Ranks(Parents(after), lifted) && after.Keys <= lifted.Keys;
  }

  lemma DeleteForest(d: Drive, x: Id)
    requires IsForest(d.folders)
    ensures IsForest(Delete(d, x).folders)
    ensures Kept(d, Delete(d, x), Below(d.folders, x), Below(d.folders, x))
  {
    var rank :| Ranks(Parents(d.folders), rank) && d.folders.Keys <= rank.Keys;
    var gone, after := Below(d.folders, x), Delete(d, x).folders;
    ReachClosed(Parents(d.folders), {x});
    forall y | y in after && after[y].parent.Some? ensures after[y].parent.value in after {
      assert y in Parents(d.folders) && Parents(d.folders)[y] == after[y].parent.value;
    }
    forall y | y in Parents(after) ensures y in Parents(d.folders) && Parents(d.folders)[y] == Parents(after)[y] {
    }
    assert Ranks(Parents(after), rank) && after.Keys <= rank.Keys;
  }

  /** The file loop moves the files it was given, none onto a name of the target, and touches no other. */
  lemma {:induction false} MergeFilesMoves(files: Files, todo: seq<Id>, t: Id, taken: set<string>)
    requires forall i, j :: 0 <= i < j < |todo| ==> todo[i] != todo[j]
    ensures var after := MergeFiles(files, todo, t, taken);
      && after.Keys == files.Keys
      && (forall f :: f in files && f in todo ==>
        after[f] == files[f].(name := after[f].name, folder := Some(t)) && after[f].name !in taken)
      && (forall f :: f in files && f !in todo ==> after[f] == files[f])
    decreases |todo|
  {
    if |todo| > 0 {
      if todo[0] !in files {
        MergeFilesMoves(files, todo[1..], t, taken);
      } else {
        var f := files[todo[0]];
        var unique := UniqueName(f.name, taken);
        var next := files[todo[0] := f.(name := unique, folder := Some(t))];
        MergeFilesMoves(next, todo[1..], t, if unique != f.name then taken + {unique} else taken);
      }
      assert forall f :: f in todo <==> f == todo[0] || f in todo[1..];
    }
  }

  // ---------------------------------------------------------------- every merge keeps the shape

  /** Where a merge may start: the target is not inside the source. */
  ghost predicate Startable(d: Drive, s: Id, t: Id) {
    IsForest(d.folders) && s in d.folders && t in d.folders && t !in Below(d.folders, s)
  }

  function Ids(todo: seq<Item>): set<Id> {
    set c | c in todo :: c.id
  }

  /** Mid-way through the second loop: the children `done` are through, those of `todo` untouched. */
  ghost predicate Mid(d0: Drive, d: Drive, s: Id, user: Id, done: set<Id>, todo: set<Id>) {
    var u := Reach(Parents(d0.folders), done);
    && IsForest(d.folders) && Kept(d0, d, u, u + {s})
    && done + todo <= SubFolders(d0.folders, s, user) && done !! todo
  }

  lemma ChildrenOf(fs: Folders, s: Id, user: Id, cs: set<Id>)
    requires cs <= SubFolders(fs, s, user)
    ensures cs <= Children(Parents(fs), {s})
  {
  }

  /** The subtrees of some children of `s` lie strictly below `s`. */
  lemma UnderSource(fs: Folders, s: Id, user: Id, cs: set<Id>)
    requires IsForest(fs) && s in fs && cs <= SubFolders(fs, s, user)
    ensures Reach(Parents(fs), cs) <= Below(fs, s) - {s}
  {
    var p := Parents(fs);
    ChildrenOf(fs, s, user, cs);
    ReachSplits(p, s);
    ReachMonotone(p, cs, Children(p, {s}));
    SourceNotUnder(fs, s, cs);
  }

  lemma SourceNotUnder(fs: Folders, s: Id, cs: set<Id>)
    requires IsForest(fs) && s in fs && cs <= Children(Parents(fs), {s})
    ensures s !in Reach(Parents(fs), cs)
  {
    var p := Parents(fs);
    var rank :| Ranks(p, rank) && fs.Keys <= rank.Keys;
    var z := set y | y in rank && rank[y] > rank[s];
    forall y | y in p && p[y] in z ensures y in z {
      assert rank[p[y]] < rank[y];
    }
    forall y | y in cs ensures y in z {
      assert p[y] == s;
    }
    ReachLeast(p, cs, z);
  }

  /** The next child and its surroundings are as they were at the start. */
  lemma Frontier(d0: Drive, d: Drive, s: Id, t: Id, user: Id, done: set<Id>, todo: set<Id>, c: Id)
    requires Startable(d0, s, t) && Mid(d0, d, s, user, done, todo) && c in todo
    ensures var u1 := Reach(Parents(d0.folders), done + {c});
      && Reach(Parents(d0.folders), done) <= u1 <= Below(d0.folders, s) - {s} && c in u1
      && c in d.folders && s in d.folders && t in d.folders
      && d.folders[c] == d0.folders[c] && d.folders[t] == d0.folders[t] && d.folders[s] == d0.folders[s]
      && Below(d.folders, c) <= u1 && t !in u1
  {
    var p := Parents(d0.folders);
    var u, u1 := Reach(p, done), Reach(p, done + {c});
    var rank :| Ranks(p, rank) && d0.folders.Keys <= rank.Keys;
    UnderSource(d0.folders, s, user, done + {c});
    ReachMonotone(p, done, done + {c});
    ReachClosed(p, done + {c});
    ChildrenOf(d0.folders, s, user, done + {c});
    SubtreesApart(p, rank, s, done, c);
    ReachClosed(p, {c});
    StillClosed(d0, d, u, u + {s}, u1);
    ReachLeast(Parents(d.folders), {c}, u1);
  }

  /** A child of the target is not below the next child of the source. */
  lemma TargetChildOutside(fs: Folders, s: Id, t: Id, c: Id, t1: Id)
    requires c in fs && t1 in fs && fs[c].parent == Some(s) && fs[t1].parent == Some(t) && s != t
    requires t !in Below(fs, c)
    ensures t1 !in Below(fs, c)
  {
    if t1 in Below(fs, c) { ReachParent(Parents(fs), {c}, t1); }
  }

  lemma {:induction false} MergeOneKeeps(
    d: Drive, c: Item, s: Id, t: Id, snapshot: set<string>, user: Id, order: Order, pool: set<Id>)
    requires Lists(order) && IsForest(d.folders) && c.id in d.folders && t in d.folders && s != t
    requires d.folders[c.id].parent == Some(s) && t !in Below(d.folders, c.id)
    ensures var e := MergeOne(d, c, t, snapshot, user, order, pool);
      IsForest(e.folders) && Kept(d, e, Below(d.folders, c.id), Below(d.folders, c.id))
    decreases pool, 1, 0
  {
    var below := Below(d.folders, c.id);
    ReachClosed(Parents(d.folders), {c.id});
    if c.name !in snapshot {
      ReparentForest(d.folders, c.id, t);
    } else {
      var hits := Listed(order, Named(d.folders, t, c.name, user));
      if |hits| > 0 {
        TargetChildOutside(d.folders, s, t, c.id, hits[0]);
        MergeKeeps(d, c.id, hits[0], user, order, pool);
        var m := Merge(d, c.id, hits[0], user, order, pool);
        StillClosed(d, m, below - {c.id}, below, below);
        ReachLeast(Parents(m.folders), {c.id}, below);
        DeleteForest(m, c.id);
        KeptMore(d, m, below - {c.id}, below, below, below);
        KeptBoth(d, m, Delete(m, c.id), below, below, Below(m.folders, c.id), Below(m.folders, c.id));
      }
    }
  }

  lemma MidStep(d0: Drive, d: Drive, e: Drive, s: Id, t: Id, user: Id, done: set<Id>, todo: set<Id>, c: Id)
    requires Startable(d0, s, t) && Mid(d0, d, s, user, done, todo) && c in todo
    requires IsForest(e.folders) && Kept(d, e, Below(d.folders, c), Below(d.folders, c))
    ensures Mid(d0, e, s, user, done + {c}, todo - {c})
  {
    Frontier(d0, d, s, t, user, done, todo, c);
    var u, u1 := Reach(Parents(d0.folders), done), Reach(Parents(d0.folders), done + {c});
    KeptMore(d0, d, u, u + {s}, u1, u1 + {s});
    KeptBoth(d0, d, e, u1, u1 + {s}, Below(d.folders, c), Below(d.folders, c));
  }

  predicate Different(todo: seq<Item>) {
    forall i, j :: 0 <= i < j < |todo| ==> todo[i].id != todo[j].id
  }

  lemma TakeFirst(todo: seq<Item>)
    requires |todo| > 0 && Different(todo)
    ensures todo[0].id in Ids(todo) && Ids(todo[1..]) == Ids(todo) - {todo[0].id} && Different(todo[1..])
  {
    forall c | c in todo[1..] ensures c.id != todo[0].id {
      var j :| 0 <= j < |todo| - 1 && todo[1..][j] == c;
      assert todo[j + 1] == c;
    }
    assert forall c :: c in todo <==> c == todo[0] || c in todo[1..];
  }

  lemma {:induction false} MergeFoldersKeeps(d0: Drive, d: Drive, todo: seq<Item>, s: Id, t: Id, snapshot: set<string>,
    user: Id, order: Order, pool: set<Id>, done: set<Id>)
    requires Lists(order) && Startable(d0, s, t) && Different(todo) && Mid(d0, d, s, user, done, Ids(todo))
    ensures Mid(d0, MergeFolders(d, todo, t, snapshot, user, order, pool), s, user, done + Ids(todo), {})
    decreases pool, 2, |todo|
  {
    if |todo| == 0 {
      assert done + Ids(todo) == done;
    } else {
      var c := todo[0];
      TakeFirst(todo);
      Frontier(d0, d, s, t, user, done, Ids(todo), c.id);
      ReachClosed(Parents(d0.folders), {s});
      MergeOneKeeps(d, c, s, t, snapshot, user, order, pool);
      var e := MergeOne(d, c, t, snapshot, user, order, pool);
      MidStep(d0, d, e, s, t, user, done, Ids(todo), c.id);
      MergeFoldersKeeps(d0, e, todo[1..], s, t, snapshot, user, order, pool, done + {c.id});
      assert done + {c.id} + Ids(todo[1..]) == done + Ids(todo);
    }
  }

  /** The state after the first loop. */
  lemma AfterFiles(d: Drive, s: Id, t: Id, user: Id, order: Order)
    requires Lists(order) && Startable(d, s, t)
    ensures var files := MergeFiles(d.files, Listed(order, FilesIn(d.files, s, user)), t, FileNames(d.files, t, user));
      var items := Items(d.folders, Listed(order, SubFolders(d.folders, s, user)));
      Different(items) && Ids(items) == SubFolders(d.folders, s, user)
        && Mid(d, Drive(d.folders, files), s, user, {}, Ids(items))
  {
    var todo := Listed(order, FilesIn(d.files, s, user));
    MergeFilesMoves(d.files, todo, t, FileNames(d.files, t, user));
    ReachNothing(Parents(d.folders), {});
    var ids := Listed(order, SubFolders(d.folders, s, user));
    var items := Items(d.folders, ids);
    forall x | x in SubFolders(d.folders, s, user) ensures x in Ids(items) {
      var i :| 0 <= i < |ids| && ids[i] == x;
      assert items[i] in items;
    }
  }

  /**
   Any merge into a folder outside the source, however the names clash, keeps the folders a
   forest and changes nothing but what is below the source.
   */
  lemma {:induction false} MergeKeeps(d: Drive, s: Id, t: Id, user: Id, order: Order, pool: set<Id>)
    requires Lists(order) && Startable(d, s, t)
    ensures var e := Merge(d, s, t, user, order, pool);
      IsForest(e.folders) && Kept(d, e, Below(d.folders, s) - {s}, Below(d.folders, s))
    decreases pool, 0, 0
  {
    if s in pool {
      var files := MergeFiles(d.files, Listed(order, FilesIn(d.files, s, user)), t, FileNames(d.files, t, user));
      var items := Items(d.folders, Listed(order, SubFolders(d.folders, s, user)));
      AfterFiles(d, s, t, user, order);
      MergeFoldersKeeps(d, Drive(d.folders, files), items, s, t, Names(d.folders, t, user), user, order, pool - {s},
                        {});
      UnderSource(d.folders, s, user, Ids(items));
      ReachClosed(Parents(d.folders), {s});
      var u := Reach(Parents(d.folders), Ids(items));
      assert {} + Ids(items) == Ids(items);
      KeptMore(d, Merge(d, s, t, user, order, pool), u, u + {s}, Below(d.folders, s) - {s}, Below(d.folders, s));
    }
  }
}
