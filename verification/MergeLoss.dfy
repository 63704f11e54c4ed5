/** The other half of the verdict on merging. */
module MergeLoss {
  // When names lead a merge back into its own source, there is a folder whose live files are lost.

  import opened Wrappers
  import opened Forest
  import opened FolderMerge
  import opened MergeSafety
  import opened FolderMoves

  // ---------------------------------------------------------------- the folder whose files are lost

  /** The first of the listed children that leads back. */
  function FirstLeading(fs: Folders, s0: Id, ids: seq<Id>, t: Id, user: Id, order: Order, pool: set<Id>): (i: nat)
    requires Lists(order) && forall j :: 0 <= j < |ids| ==> ids[j] in fs
    ensures i <= |ids| && forall j :: 0 <= j < i ==> !LeadsVia(fs, s0, ids[j], t, user, order, pool)
    ensures i < |ids| ==> LeadsVia(fs, s0, ids[i], t, user, order, pool)
  {
    if |ids| == 0 || LeadsVia(fs, s0, ids[0], t, user, order, pool) then 0
    else 1 + FirstLeading(fs, s0, ids[1..], t, user, order, pool)
  }

  /** Following the first leading child at every level ends at a folder that is merged into `s0`. */
  function Swallowed(fs: Folders, s0: Id, s: Id, t: Id, user: Id, order: Order, pool: set<Id>): Id
    requires Lists(order) && LeadsBack(fs, s0, s, t, user, order, pool)
    decreases pool
  {
    var ids := Listed(order, SubFolders(fs, s, user));
    var i := FirstLeading(fs, s0, ids, t, user, order, pool - {s});
    assert i < |ids| by {
      var c :| c in SubFolders(fs, s, user) && LeadsVia(fs, s0, c, t, user, order, pool - {s});
      assert c in ids;
    }
    var h := Hit(fs, t, fs[ids[i]].name, user, order).value;
    if h == s0 then ids[i] else Swallowed(fs, s0, ids[i], h, user, order, pool - {s})
  }

  /** The chain from `s` to that folder is one of active children. */
  lemma {:induction false} SwallowedVisible(fs: Folders, s0: Id, s: Id, t: Id, user: Id, order: Order, pool: set<Id>)
    requires Lists(order) && LeadsBack(fs, s0, s, t, user, order, pool)
    ensures Swallowed(fs, s0, s, t, user, order, pool) in Reach(ActiveUp(fs, user), {s})
    decreases pool
  {
    var up := ActiveUp(fs, user);
    var ids := Listed(order, SubFolders(fs, s, user));
    var i := FirstLeading(fs, s0, ids, t, user, order, pool - {s});
    var h := Hit(fs, t, fs[ids[i]].name, user, order).value;
    ReachClosed(up, {s});
    assert ids[i] in up && up[ids[i]] == s;
    if h != s0 {
      SwallowedVisible(fs, s0, ids[i], h, user, order, pool - {s});
      ReachLeast(up, {ids[i]}, Reach(up, {s}));
    }
  }

  /** As long as only harmless things happen, it is the same folder. */
  lemma {:induction false} SwallowedSame(
    d: Drive, e: Drive, s0: Id, s: Id, t: Id, user: Id, order: Order, pool: set<Id>)
    requires Lists(order) && Steady(d, e, s0, user) && t !in Below(d.folders, s0)
    requires s in Below(e.folders, s0) && SameBelow(d, e, s) && LeadsBack(d.folders, s0, s, t, user, order, pool)
    ensures LeadsBack(e.folders, s0, s, t, user, order, pool)
    ensures Swallowed(d.folders, s0, s, t, user, order, pool) == Swallowed(e.folders, s0, s, t, user, order, pool)
    decreases pool
  {
    LeadsSame(d, e, s0, s, t, user, order, pool);
    SameChildren(d, e, s0, s, user);
    var rest := pool - {s};
    var i := FirstSame(d, e, s0, Listed(order, SubFolders(d.folders, s, user)), t, user, order, rest);
    var c := Listed(order, SubFolders(d.folders, s, user))[i];
    LeadsViaSame(d, e, s0, c, t, user, order, rest);
    var h := Hit(d.folders, t, d.folders[c].name, user, order).value;
    if h != s0 {
      assert h in Named(d.folders, t, d.folders[c].name, user);
      ChildOutside(d.folders, s0, t, h);
      SwallowedSame(d, e, s0, c, h, user, order, rest);
    }
  }

  lemma FirstSame(
    d: Drive, e: Drive, s0: Id, ids: seq<Id>, t: Id, user: Id, order: Order, pool: set<Id>) returns (i: nat)
    requires Lists(order) && Steady(d, e, s0, user) && t !in Below(d.folders, s0)
    requires forall j :: 0 <= j < |ids| ==>
      ids[j] in d.folders && ids[j] in Below(e.folders, s0) && SameBelow(d, e, ids[j])
    requires exists j :: 0 <= j < |ids| && LeadsVia(d.folders, s0, ids[j], t, user, order, pool)
    ensures i < |ids| && (forall j :: 0 <= j < |ids| ==> ids[j] in e.folders)
    ensures i == FirstLeading(d.folders, s0, ids, t, user, order, pool)
      == FirstLeading(e.folders, s0, ids, t, user, order, pool)
  {
    forall j | 0 <= j < |ids|
      ensures ids[j] in e.folders
        && LeadsVia(d.folders, s0, ids[j], t, user, order, pool)
           == LeadsVia(e.folders, s0, ids[j], t, user, order, pool)
    {
      LeadsViaSame(d, e, s0, ids[j], t, user, order, pool);
    }
    i := FirstLeading(d.folders, s0, ids, t, user, order, pool);
  }

  // ---------------------------------------------------------------- a file in the source itself stays there

  /** A file that is in `y`, outside what is merged, stays in `y`. */
  predicate In(d: Drive, f: Id, y: Id) {
    f in d.files && d.files[f].folder == Some(y)
  }

  lemma {:induction false} LoopLeaves(
    d0: Drive, d: Drive, todo: seq<Item>, s: Id, t: Id, s0: Id, user: Id, order: Order, pool: set<Id>, done: set<Id>,
    y: Id, f: Id)
    requires Lists(order) && IsForest(d0.folders) && s in d0.folders && s in Below(d0.folders, s0)
    requires t in d0.folders && t !in Below(d0.folders, s0)
    requires Different(todo) && Mid(d0, d, s, user, done, Ids(todo))
    requires y !in Below(d0.folders, s) - {s} && In(d, f, y)
    ensures In(MergeFolders(d, todo, t, Names(d0.folders, t, user), user, order, pool), f, y)
    decreases |todo|
  {
    if |todo| > 0 {
      TakeFirst(todo);
      var e := LoopStep(d0, d, todo, s, t, s0, user, order, pool, done);
      GoingStartable(d0, s, t, s0);
      Frontier(d0, d, s, t, user, done, Ids(todo), todo[0].id);
      LoopLeaves(d0, e, todo[1..], s, t, s0, user, order, pool, done + {todo[0].id}, y, f);
    }
  }

  /** Merging a folder into `s0` itself brings the folder's own files there. */
  lemma MergeIntoSource(d: Drive, c: Id, s0: Id, user: Id, order: Order, pool: set<Id>, f: Id)
    requires Lists(order) && IsForest(d.folders) && s0 in d.folders && c in d.folders && c in pool
    requires s0 !in Below(d.folders, c) && Live(d.files, f, user) && In(d, f, c)
    ensures In(Merge(d, c, s0, user, order, pool), f, s0)
  {
    var todo := Listed(order, FilesIn(d.files, c, user));
    var files := MergeFiles(d.files, todo, s0, FileNames(d.files, s0, user));
    var items := Items(d.folders, Listed(order, SubFolders(d.folders, c, user)));
    ReachClosed(Parents(d.folders), {c});
    AfterFiles(d, c, s0, user, order);
    MergeFilesMoves(d.files, todo, s0, FileNames(d.files, s0, user));
    LoopLeaves(d, Drive(d.folders, files), items, c, s0, c, user, order, pool - {c}, {}, s0, f);
  }

  // ---------------------------------------------------------------- the run that loses it

  /** The folder a leading child leads to. */
  function Through(fs: Folders, s0: Id, c: Id, t: Id, user: Id, order: Order, pool: set<Id>): Id
    requires Lists(order) && c in fs && LeadsVia(fs, s0, c, t, user, order, pool)
  {
    var h := Hit(fs, t, fs[c].name, user, order).value;
    if h == s0 then c else Swallowed(fs, s0, c, h, user, order, pool)
  }

  lemma ThroughBelow(fs: Folders, s0: Id, c: Id, t: Id, user: Id, order: Order, pool: set<Id>)
    requires Lists(order) && c in fs && LeadsVia(fs, s0, c, t, user, order, pool)
    ensures Through(fs, s0, c, t, user, order, pool) in Below(fs, c)
  {
    var h := Hit(fs, t, fs[c].name, user, order).value;
    ReachClosed(Parents(fs), {c});
    if h != s0 {
      SwallowedVisible(fs, s0, c, h, user, order, pool);
      VisibleBelow(fs, user, {c});
    }
  }

  /** The round of the leading child: the file ends in `s0`. */
  lemma {:induction false} RoundSwallows(
    d0: Drive, d: Drive, c: Item, s: Id, t: Id, s0: Id, user: Id, order: Order, pool: set<Id>, done: set<Id>,
    todo: set<Id>, f: Id)
    requires Lists(order) && Going(d0, d, s, t, s0, user, done, todo)
    requires c.id in todo && c.id in d0.folders && c.name == d0.folders[c.id].name && Below(d0.folders, s) - {s} <= pool
    requires LeadsVia(d0.folders, s0, c.id, t, user, order, pool)
    requires Live(d.files, f, user) && In(d, f, Through(d0.folders, s0, c.id, t, user, order, pool))
    ensures In(MergeOne(d, c, t, Names(d0.folders, t, user), user, order, pool), f, s0)
    decreases pool, 1
  {
    NextChild(d0, d, s, t, s0, user, done, todo, c.id);
    NoNames(d0.folders, t, c.name, user);
    assert Hit(d0.folders, t, c.name, user, order).value in Named(d0.folders, t, c.name, user);
    var h := HitOf(d0, d, s0, c, t, user, order, pool);
    ReachClosed(Parents(d.folders), {c.id});
    if h == s0 {
      MergeIntoSource(d, c.id, s0, user, order, pool, f);
    } else {
      ChildOutside(d.folders, s0, t, h);
      ChildOutside(d0.folders, s0, t, h);
      GoingStartable(d, c.id, h, s0);
      SwallowedSame(d0, d, s0, c.id, h, user, order, pool);
      MergeSwallows(d, c.id, h, s0, user, order, pool, f);
    }
    var m := Merge(d, c.id, h, user, order, pool);
    StillBelowAfterMerge(d, m, c.id, h, s0, user, order, pool);
    MergeKeeps(d, c.id, h, user, order, pool);
    DeleteForest(m, c.id);
  }

  lemma {:induction false} LoopSwallows(
    d0: Drive, d: Drive, todo: seq<Item>, s: Id, t: Id, s0: Id, user: Id, order: Order, pool: set<Id>, done: set<Id>,
    k: nat, f: Id)
    requires Lists(order) && Going(d0, d, s, t, s0, user, done, Ids(todo)) && Different(todo)
    requires NamedAs(d0.folders, todo)
    requires Below(d0.folders, s) - {s} <= pool && k < |todo|
    requires forall j :: 0 <= j < k ==> !LeadsVia(d0.folders, s0, todo[j].id, t, user, order, pool)
    requires LeadsVia(d0.folders, s0, todo[k].id, t, user, order, pool)
    requires Live(d.files, f, user) && In(d, f, Through(d0.folders, s0, todo[k].id, t, user, order, pool))
    ensures In(MergeFolders(d, todo, t, Names(d0.folders, t, user), user, order, pool), f, s0)
    decreases pool, 2, |todo|
  {
    if k == 0 {
      FirstSwallows(d0, d, todo, s, t, s0, user, order, pool, done, f);
    } else {
      var e := SafeFirst(d0, d, todo, s, t, s0, user, order, pool, done, k, f);
      LeadsShift(d0.folders, todo, t, s0, user, order, pool, k);
      LoopSwallows(d0, e, todo[1..], s, t, s0, user, order, pool, done + {todo[0].id}, k - 1, f);
    }
  }

  lemma LeadsShift(fs: Folders, todo: seq<Item>, t: Id, s0: Id, user: Id, order: Order, pool: set<Id>, k: nat)
    requires Lists(order) && NamedAs(fs, todo) && 0 < k < |todo|
    requires forall j :: 0 <= j < k ==> !LeadsVia(fs, s0, todo[j].id, t, user, order, pool)
    ensures NamedAs(fs, todo[1..]) && todo[1..][k - 1] == todo[k]
    ensures forall j :: 0 <= j < k - 1 ==> !LeadsVia(fs, s0, todo[1..][j].id, t, user, order, pool)
  {
    forall j | 0 <= j < k - 1 ensures !LeadsVia(fs, s0, todo[1..][j].id, t, user, order, pool) {
      assert todo[1..][j] == todo[j + 1];
    }
  }

  /** The next child leads back: after its round, the file stays in `s0`. */
  lemma {:induction false} FirstSwallows(
    d0: Drive, d: Drive, todo: seq<Item>, s: Id, t: Id, s0: Id, user: Id, order: Order, pool: set<Id>, done: set<Id>,
    f: Id)
    requires Lists(order) && Going(d0, d, s, t, s0, user, done, Ids(todo)) && Different(todo)
    requires NamedAs(d0.folders, todo)
    requires Below(d0.folders, s) - {s} <= pool && |todo| > 0
    requires LeadsVia(d0.folders, s0, todo[0].id, t, user, order, pool)
    requires Live(d.files, f, user) && In(d, f, Through(d0.folders, s0, todo[0].id, t, user, order, pool))
    ensures In(MergeFolders(d, todo, t, Names(d0.folders, t, user), user, order, pool), f, s0)
    decreases pool, 2, 0
  {
    TakeFirst(todo);
    var e := LoopStep(d0, d, todo, s, t, s0, user, order, pool, done);
    RoundSwallows(d0, d, todo[0], s, t, s0, user, order, pool, done, Ids(todo), f);
    if s != s0 { NotAboveItself(d0.folders, s0, s); }
    LoopLeaves(d0, e, todo[1..], s, t, s0, user, order, pool, done + {todo[0].id}, s0, f);
  }

  /** The next child does not lead back: its round is harmless and the file waits on. */
  lemma SafeFirst(d0: Drive, d: Drive, todo: seq<Item>, s: Id, t: Id, s0: Id, user: Id, order: Order,
    pool: set<Id>, done: set<Id>, k: nat, f: Id) returns (e: Drive)
    requires Lists(order) && Going(d0, d, s, t, s0, user, done, Ids(todo)) && Different(todo)
    requires NamedAs(d0.folders, todo)
    requires Below(d0.folders, s) - {s} <= pool && 0 < k < |todo|
    requires !LeadsVia(d0.folders, s0, todo[0].id, t, user, order, pool)
    requires LeadsVia(d0.folders, s0, todo[k].id, t, user, order, pool)
    requires Live(d.files, f, user) && In(d, f, Through(d0.folders, s0, todo[k].id, t, user, order, pool))
    ensures e == MergeOne(d, todo[0], t, Names(d0.folders, t, user), user, order, pool)
    ensures Going(d0, e, s, t, s0, user, done + {todo[0].id}, Ids(todo[1..])) && Different(todo[1..])
    ensures f in e.files && e.files[f] == d.files[f]
  {
    TakeFirst(todo);
    e := LoopStep(d0, d, todo, s, t, s0, user, order, pool, done);
    RoundSafe(d0, d, todo[0], s, t, s0, user, order, pool, done, Ids(todo), f);
    assert todo[k] in todo;
    FileUntouched(d0, d, e, s, t, s0, user, order, pool, done, Ids(todo), todo[0].id, todo[k].id, f);
  }

  /** The subtree that is merged now does not meet that of another child. */
  lemma OtherSubtree(
    d0: Drive, d: Drive, s: Id, t: Id, s0: Id, user: Id, done: set<Id>, todo: set<Id>, c: Id, b: Id)
    requires Going(d0, d, s, t, s0, user, done, todo) && c in todo && b in todo && b != c
    ensures Below(d0.folders, b) !! Below(d.folders, c)
  {
    var p := Parents(d0.folders);
    var rank :| Ranks(p, rank) && d0.folders.Keys <= rank.Keys;
    GoingStartable(d0, s, t, s0);
    Frontier(d0, d, s, t, user, done, todo, c);
    ChildrenOf(d0.folders, s, user, done + todo);
    assert done + {c} + {b} <= done + todo;
    SubtreesApart(p, rank, s, done + {c}, b);
  }

  /** A round for one child keeps off the files below another one. */
  lemma FileUntouched(
    d0: Drive, d: Drive, e: Drive, s: Id, t: Id, s0: Id, user: Id, order: Order, pool: set<Id>,
    done: set<Id>, todo: set<Id>, c: Id, b: Id, f: Id)
    requires Lists(order) && Going(d0, d, s, t, s0, user, done, todo) && c in todo && b in todo && b != c
    requires Kept(d, e, Below(d.folders, c), Below(d.folders, c))
    requires b in d0.folders && LeadsVia(d0.folders, s0, b, t, user, order, pool)
    requires Live(d.files, f, user) && In(d, f, Through(d0.folders, s0, b, t, user, order, pool))
    ensures f in e.files && e.files[f] == d.files[f]
  {
    OtherSubtree(d0, d, s, t, s0, user, done, todo, c, b);
    ThroughBelow(d0.folders, s0, b, t, user, order, pool);
    assert !InFolders(d.files[f], Below(d.folders, c));
  }

  /** The swallowed folder is not the source of the merge. */
  lemma SwallowedDeeper(fs: Folders, s0: Id, s: Id, c: Id, t: Id, user: Id, order: Order, pool: set<Id>)
    requires Lists(order) && IsForest(fs) && s in fs && c in SubFolders(fs, s, user)
    requires LeadsVia(fs, s0, c, t, user, order, pool)
    ensures Through(fs, s0, c, t, user, order, pool) != s
  {
    ThroughBelow(fs, s0, c, t, user, order, pool);
    ReachClosed(Parents(fs), {s});
    SourceAboveChild(fs, s, s, c);
  }

  lemma OtherFilesStay(files: Files, todo: seq<Id>, t: Id, taken: set<string>, f: Id)
    requires (forall i, j :: 0 <= i < j < |todo| ==> todo[i] != todo[j]) && f in files && f !in todo
    ensures f in MergeFiles(files, todo, t, taken) && MergeFiles(files, todo, t, taken)[f] == files[f]
  {
    MergeFilesMoves(files, todo, t, taken);
  }

  /** A merge that leads back into `s0` brings the files of the swallowed folder there. */
  lemma {:induction false} MergeSwallows(d: Drive, s: Id, t: Id, s0: Id, user: Id, order: Order, pool: set<Id>, f: Id)
    requires Lists(order) && IsForest(d.folders) && s0 in d.folders && s in d.folders && s in Below(d.folders, s0)
    requires t in d.folders && t !in Below(d.folders, s0) && Below(d.folders, s) <= pool
    requires LeadsBack(d.folders, s0, s, t, user, order, pool)
    requires Live(d.files, f, user) && In(d, f, Swallowed(d.folders, s0, s, t, user, order, pool))
    ensures In(Merge(d, s, t, user, order, pool), f, s0)
    decreases pool, 0
  {
    var files := MergeFiles(d.files, Listed(order, FilesIn(d.files, s, user)), t, FileNames(d.files, t, user));
    var items := Items(d.folders, Listed(order, SubFolders(d.folders, s, user)));
    ReachClosed(Parents(d.folders), {s});
    FilesFirst(d, s, t, s0, user, order, f);
    var i := FileWaits(d, s, t, s0, user, order, pool, f);
    LoopSwallows(d, Drive(d.folders, files), items, s, t, s0, user, order, pool - {s}, {}, i, f);
  }

  /** The file loop leaves the file alone, and its folder is below the first child that leads back. */
  lemma FileWaits(d: Drive, s: Id, t: Id, s0: Id, user: Id, order: Order, pool: set<Id>, f: Id) returns (i: nat)
    requires Lists(order) && IsForest(d.folders) && s in d.folders
    requires LeadsBack(d.folders, s0, s, t, user, order, pool)
    requires Live(d.files, f, user) && In(d, f, Swallowed(d.folders, s0, s, t, user, order, pool))
    ensures var ids := Listed(order, SubFolders(d.folders, s, user));
      && i < |ids| && (forall j :: 0 <= j < i ==> !LeadsVia(d.folders, s0, ids[j], t, user, order, pool - {s}))
      && LeadsVia(d.folders, s0, ids[i], t, user, order, pool - {s})
      && In(d, f, Through(d.folders, s0, ids[i], t, user, order, pool - {s}))
    ensures var files := MergeFiles(d.files, Listed(order, FilesIn(d.files, s, user)), t, FileNames(d.files, t, user));
      f in files && files[f] == d.files[f]
  {
    var ids := Listed(order, SubFolders(d.folders, s, user));
    i := FirstLeading(d.folders, s0, ids, t, user, order, pool - {s});
    SwallowedDeeper(d.folders, s0, s, ids[i], t, user, order, pool - {s});
    OtherFilesStay(d.files, Listed(order, FilesIn(d.files, s, user)), t, FileNames(d.files, t, user), f);
  }

  // ---------------------------------------------------------------- the verdict

  /** An entangled move loses every live file that is directly in the swallowed folder. */
  lemma EntangledLoses(d: Drive, s: Id, t: Id, user: Id, order: Order, f: Id)
    requires Lists(order) && Startable(d, s, t) && Entangled(d.folders, s, t, user, order)
    requires Live(d.files, f, user) && In(d, f, Swallowed(d.folders, s, s, t, user, order, d.folders.Keys))
    ensures f !in MovedOnto(d, s, t, user, order).files
  {
    var m := Merge(d, s, t, user, order, d.folders.Keys);
    ReachClosed(Parents(d.folders), {s});
    BelowWithin(d.folders, s);
    MergeSwallows(d, s, t, s, user, order, d.folders.Keys, f);
    ReachClosed(Parents(m.folders), {s});
  }

  /** Over the folder table `fs`, moving `s` onto `t` loses no live file, wherever files are. */
  ghost predicate LosesNothing(fs: Folders, s: Id, t: Id, user: Id, order: Order)
    requires Lists(order)
  {
    forall files: Files, f: Id :: Found(Drive(fs, files), f, s, user) ==>
      Found(MovedOnto(Drive(fs, files), s, t, user, order), f, t, user)
  }

  /**
   A move onto a folder of the same name loses no live file, wherever the files are, if and only if
   the names of the folders under the source do not lead back into the source.
   */
  lemma LosesNothingIffNotEntangled(fs: Folders, s: Id, t: Id, user: Id, order: Order)
    requires Lists(order) && Startable(Drive(fs, map[]), s, t)
    ensures LosesNothing(fs, s, t, user, order) <==> !Entangled(fs, s, t, user, order)
  {
    if Entangled(fs, s, t, user, order) {
      var x := Swallowed(fs, s, s, t, user, order, fs.Keys);
      var d := Drive(fs, map[0 := File("", Some(x), user, None)]);
      SwallowedVisible(fs, s, s, t, user, order, fs.Keys);
      EntangledLoses(d, s, t, user, order, 0);
      assert Found(d, 0, s, user) && !Found(MovedOnto(d, s, t, user, order), 0, t, user);
    } else {
      forall files: Files, f: Id | Found(Drive(fs, files), f, s, user)
        ensures Found(MovedOnto(Drive(fs, files), s, t, user, order), f, t, user)
      {
        MovedOntoLosesNothing(Drive(fs, files), s, t, user, order, f);
      }
    }
  }

  // ---------------------------------------------------------------- the smallest case

  /** Three folders of one name inside each other, and a file in the innermost. */
  const NESTED := Drive(
    map[1 := Folder("a", None, 7, None), 2 := Folder("a", Some(1), 7, None), 3 := Folder("a", Some(2), 7, None)],
    map[9 := File("f", Some(3), 7, None)])

  lemma AllSame(r: seq<Id>, x: Id)
    requires |r| > 0 && forall i :: 0 <= i < |r| ==> r[i] == x
    ensures r[0] == x && (|r| == 1 || r[0] == r[1])
  {
  }

  lemma ListedOne(order: Order, s: set<Id>, x: Id)
    requires Lists(order) && s == {x}
    ensures Listed(order, s) == [x]
  {
    var r := Listed(order, s);
    assert x in r;
    AllSame(r, x);
  }

  /** The name of the innermost folder leads to the middle one, which is the source. */
  lemma NestedLeads(order: Order)
    requires Lists(order)
    ensures Entangled(NESTED.folders, 2, 1, 7, order)
    ensures Swallowed(NESTED.folders, 2, 2, 1, 7, order, NESTED.folders.Keys) == 3
  {
    var fs := NESTED.folders;
    ListedOne(order, Named(fs, 1, "a", 7), 2);
    ListedOne(order, SubFolders(fs, 2, 7), 3);
    assert Hit(fs, 1, "a", 7, order) == Some(2);
    assert LeadsVia(fs, 2, 3, 1, 7, order, fs.Keys - {2});
    assert 3 in SubFolders(fs, 2, 7);
  }

  /**
   Moving the middle folder up next to the outer one, with merge: the outer folder is the one of
   the same name there, and the file in the innermost folder is lost.
   */
  lemma MergeIntoAncestorLosesFile(order: Order)
    requires Lists(order)
    ensures Startable(NESTED, 2, 1) && Found(NESTED, 9, 2, 7)
    ensures 9 !in MovedOnto(NESTED, 2, 1, 7, order).files
  {
    NestedIsForest();
    NestedLeads(order);
    SwallowedVisible(NESTED.folders, 2, 2, 1, 7, order, NESTED.folders.Keys);
    EntangledLoses(NESTED, 2, 1, 7, order, 9);
  }

  lemma NestedIsForest()
    ensures Startable(NESTED, 2, 1)
  {
    NestedRanks(Parents(NESTED.folders), map[1 := 0, 2 := 1, 3 := 2]);
  }

  lemma NestedRanks(p: Up, rank: map<Id, nat>)
    requires p == Parents(NESTED.folders) && rank == map[1 := 0, 2 := 1, 3 := 2]
    ensures Ranks(p, rank) && NESTED.folders.Keys <= rank.Keys && 1 !in Reach(p, {2})
  {
    ReachLeast(p, {2}, {2, 3});
  }
}
