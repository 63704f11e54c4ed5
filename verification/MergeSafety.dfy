/**
 What a merge does to the live files.  `mergeFolderContents` moves everything live under the source
 to the target, unless matching names lead it back into the source itself, which is deleted at the
 end.  Whether that happens is decided by the folders and their names alone.

 `LeadsBack` follows equal names down the source and down the target at once.  The first part shows
 that harmless rounds of the merge do not change the verdict (`LeadsSame`), the second that a file
 still to be found is found after every round, and `MergeSafe` is the induction over the recursion
 of the merge and the list of children.
 */
module MergeSafety {
  import opened Wrappers
  import opened Forest
  import opened FolderMerge

  /** The folders the user reaches from `x` through active folders. */
  function Visible(d: Drive, user: Id, x: Id): set<Id> {
    Reach(ActiveUp(d.folders, user), {x})
  }

  /** A live file the user reaches from folder `x`. */
  predicate Found(d: Drive, f: Id, x: Id, user: Id) {
    Live(d.files, f, user) && InFolders(d.files[f], Visible(d, user, x))
  }

  /** The folders the user reaches from `x` without passing through `s0`. */
  function VisibleBut(d: Drive, user: Id, x: Id, s0: Id): set<Id> {
    Reach(ActiveUp(d.folders - {s0}, user), {x})
  }

  predicate FoundBut(d: Drive, f: Id, x: Id, s0: Id, user: Id) {
    Live(d.files, f, user) && InFolders(d.files[f], VisibleBut(d, user, x, s0))
  }

  /** A file that is still where it was, below one of the children `todo`. */
  predicate Waiting(d0: Drive, d: Drive, user: Id, todo: set<Id>, f: Id) {
    && Live(d0.files, f, user) && f in d.files && d.files[f] == d0.files[f]
    && InFolders(d0.files[f], Reach(ActiveUp(d0.folders, user), todo))
  }

  // ---------------------------------------------------------------- where names lead

  /** The folder a merge into `t` picks for a source folder called `name`, if there is one. */
  function Hit(fs: Folders, t: Id, name: string, user: Id, order: Order): Option<Id>
    requires Lists(order)
  {
    var hits := Listed(order, Named(fs, t, name, user));
    if |hits| == 0 then None else Some(hits[0])
  }

  /** Merging `c` into a child of `t` leads to `s0`: directly, or further down the equal names. */
  predicate LeadsVia(fs: Folders, s0: Id, c: Id, t: Id, user: Id, order: Order, pool: set<Id>)
    requires Lists(order) && c in fs
    decreases pool, 1
  {
    var h := Hit(fs, t, fs[c].name, user, order);
    h.Some? && (h.value == s0 || LeadsBack(fs, s0, c, h.value, user, order, pool))
  }

  /** Merging `s` into `t` leads into `s0`. */
  predicate LeadsBack(fs: Folders, s0: Id, s: Id, t: Id, user: Id, order: Order, pool: set<Id>)
    requires Lists(order)
    decreases pool, 0
  {
    s in pool && exists c :: c in SubFolders(fs, s, user) && LeadsVia(fs, s0, c, t, user, order, pool - {s})
  }

  // ---------------------------------------------------------------- what a harmless merge keeps

  /** A name that stood for some folders of a parent outside `s0` stands for the same ones. */
  ghost predicate NamesStable(d: Drive, e: Drive, s0: Id, user: Id) {
    forall y, name :: y !in Below(d.folders, s0) && Named(d.folders, y, name, user) != {} ==>
      Named(e.folders, y, name, user) == Named(d.folders, y, name, user)
  }

  /** What is below `s0` in `e` was there in `d`, as it is. */
  ghost predicate NothingNewBelow(d: Drive, e: Drive, s0: Id) {
    forall x :: x in Below(e.folders, s0) ==>
      x in Below(d.folders, s0) && x in d.folders && x in e.folders && e.folders[x] == d.folders[x]
  }

  /** Folders and files have left the subtree of `s0`, and nothing else has happened. */
  ghost predicate Steady(d: Drive, e: Drive, s0: Id, user: Id) {
    && IsForest(d.folders) && IsForest(e.folders) && s0 in d.folders
    && Kept(d, e, Below(d.folders, s0) - {s0}, Below(d.folders, s0))
    && NothingNewBelow(d, e, s0) && NamesStable(d, e, s0, user)
  }

  lemma SteadyBoth(a: Drive, b: Drive, c: Drive, s0: Id, user: Id)
    requires Steady(a, b, s0, user) && Steady(b, c, s0, user)
    ensures Steady(a, c, s0, user)
  {
    forall x | x in Below(b.folders, s0) ensures x in Below(a.folders, s0) {
    }
    KeptBoth(a, b, c, Below(a.folders, s0) - {s0}, Below(a.folders, s0),
             Below(b.folders, s0) - {s0}, Below(b.folders, s0));
  }

  lemma SteadySelf(d: Drive, s0: Id, user: Id)
    requires IsForest(d.folders) && s0 in d.folders
    ensures Steady(d, d, s0, user)
  {
    BelowWithin(d.folders, s0);
  }

  lemma BelowWithin(fs: Folders, s: Id)
    requires s in fs
    ensures Below(fs, s) <= fs.Keys
  {
    ReachLeast(Parents(fs), {s}, fs.Keys);
  }

  /** What is below something below `a` is below `a`. */
  lemma BelowNested(fs: Folders, a: Id, x: Id)
    requires x in Below(fs, a)
    ensures Below(fs, x) <= Below(fs, a)
  {
    ReachClosed(Parents(fs), {a});
    ReachLeast(Parents(fs), {x}, Below(fs, a));
  }

  /** A folder's child outside `s0` is outside as well, unless it is `s0`. */
  lemma ChildOutside(fs: Folders, s0: Id, t: Id, x: Id)
    requires x in fs && fs[x].parent == Some(t) && t !in Below(fs, s0) && x != s0
    ensures x !in Below(fs, s0)
  {
    if x in Below(fs, s0) { ReachParent(Parents(fs), {s0}, x); }
  }

  /** Nobody is above and below at once. */
  lemma NotAboveItself(fs: Folders, a: Id, x: Id)
    requires IsForest(fs) && a in fs && x in Below(fs, a) && x != a
    ensures a !in Below(fs, x)
  {
    var rank :| Ranks(Parents(fs), rank) && fs.Keys <= rank.Keys;
    ReachRanks(Parents(fs), rank, a, x);
    if a in Below(fs, x) { ReachRanks(Parents(fs), rank, x, a); }
  }

  /** A change below `s0` gives `s0` no new ancestors. */
  lemma NoNewAncestor(d: Drive, e: Drive, s0: Id, m: Id)
    requires IsForest(d.folders) && s0 in d.folders
    requires Kept(d, e, Below(d.folders, s0) - {s0}, Below(d.folders, s0))
    requires s0 in Below(e.folders, m)
    ensures s0 in Below(d.folders, m)
  {
    var p := Parents(d.folders);
    var u := Below(d.folders, s0) - {s0};
    ReachClosed(p, {s0});
    ReachClosed(p, {m});
    var z := Below(d.folders, m) + u;
    forall x | x in p && p[x] in u ensures x in u {
      if x == s0 { NotAboveItself(d.folders, s0, p[s0]); ReachClosed(p, {p[s0]}); }
    }
    StillClosed(d, e, u, u + {s0}, z);
    ReachLeast(Parents(e.folders), {m}, z);
  }

  // ---------------------------------------------------------------- where names lead does not change

  /** Without `s0` under the target, no name leads to it. */
  lemma {:induction false} NoLead(fs: Folders, s0: Id, s: Id, t: Id, user: Id, order: Order, pool: set<Id>)
    requires Lists(order) && s0 !in Below(fs, t)
    ensures !LeadsBack(fs, s0, s, t, user, order, pool)
    decreases pool
  {
    if s in pool {
      forall c | c in SubFolders(fs, s, user) ensures !LeadsVia(fs, s0, c, t, user, order, pool - {s}) {
        var h := Hit(fs, t, fs[c].name, user, order);
        if h.Some? {
          ReachClosed(Parents(fs), {t});
          assert h.value in Named(fs, t, fs[c].name, user);
          assert h.value in Parents(fs) && Parents(fs)[h.value] == t;
          BelowNested(fs, t, h.value);
          NoLead(fs, s0, c, h.value, user, order, pool - {s});
        }
      }
    }
  }

  /** A folder newly called that way at the target does not lead back. */
  lemma NewHitIsHarmless(
    d: Drive, e: Drive, s0: Id, c: Id, t: Id, name: string, user: Id, order: Order, pool: set<Id>, m: Id)
    requires Lists(order) && Steady(d, e, s0, user) && t !in Below(d.folders, s0)
    requires Named(d.folders, t, name, user) == {} && m in Named(e.folders, t, name, user)
    ensures m != s0 && !LeadsBack(e.folders, s0, c, m, user, order, pool)
  {
    ReachClosed(Parents(e.folders), {s0});
    assert m !in Named(d.folders, t, name, user);
    if s0 in Below(e.folders, m) {
      NoNewAncestor(d, e, s0, m);
      AncestorUnchanged(d, e, s0, m, user);
    } else {
      NoLead(e.folders, s0, c, m, user, order, pool);
    }
  }

  lemma AncestorUnchanged(d: Drive, e: Drive, s0: Id, m: Id, user: Id)
    requires Steady(d, e, s0, user) && s0 in Below(d.folders, m)
    ensures m in d.folders && m in e.folders && e.folders[m] == d.folders[m]
  {
    var p := Parents(d.folders);
    if m != s0 {
      ReachSplits(p, m);
      if m !in d.folders {
        forall x | x in p ensures p[x] != m {
          assert d.folders[x].parent.Some?;
        }
        ReachNothing(p, Children(p, {m}));
      }
      if m in Below(d.folders, s0) { NotAboveItself(d.folders, s0, m); }
    } else {
      ReachClosed(Parents(e.folders), {s0});
    }
  }

  /** The subtree of `x` is the same in both. */
  ghost predicate SameBelow(d: Drive, e: Drive, x: Id) {
    forall y :: y in Below(d.folders, x) && y in d.folders ==> y in e.folders && e.folders[y] == d.folders[y]
  }

  lemma SameChildren(d: Drive, e: Drive, s0: Id, s: Id, user: Id)
    requires Steady(d, e, s0, user) && s in Below(e.folders, s0) && SameBelow(d, e, s)
    ensures SubFolders(e.folders, s, user) == SubFolders(d.folders, s, user)
    ensures forall c :: c in SubFolders(d.folders, s, user) ==>
      c in Below(e.folders, s0) && e.folders[c] == d.folders[c] && SameBelow(d, e, c)
  {
    var p, q := Parents(d.folders), Parents(e.folders);
    ReachClosed(q, {s0});
    ReachClosed(p, {s});
    forall c | c in SubFolders(e.folders, s, user) ensures c in SubFolders(d.folders, s, user) {
      assert c in q && q[c] == s;
    }
    forall c | c in SubFolders(d.folders, s, user)
      ensures c in SubFolders(e.folders, s, user) && c in Below(e.folders, s0) && e.folders[c] == d.folders[c]
      ensures SameBelow(d, e, c)
    {
      assert c in p && p[c] == s;
      assert e.folders[c] == d.folders[c];
      assert c in q && q[c] == s;
      BelowNested(d.folders, s, c);
    }
  }

  /** As long as only harmless things happen, names lead where they led. */
  lemma {:induction false} LeadsSame(d: Drive, e: Drive, s0: Id, s: Id, t: Id, user: Id, order: Order, pool: set<Id>)
    requires Lists(order) && Steady(d, e, s0, user) && t !in Below(d.folders, s0)
    requires s in Below(e.folders, s0) && SameBelow(d, e, s)
    ensures LeadsBack(d.folders, s0, s, t, user, order, pool) == LeadsBack(e.folders, s0, s, t, user, order, pool)
    decreases pool, 0
  {
    if s in pool {
      SameChildren(d, e, s0, s, user);
      forall c | c in SubFolders(d.folders, s, user)
        ensures LeadsVia(d.folders, s0, c, t, user, order, pool - {s})
          == LeadsVia(e.folders, s0, c, t, user, order, pool - {s})
      {
        LeadsViaSame(d, e, s0, c, t, user, order, pool - {s});
      }
    }
  }

  lemma {:induction false} LeadsViaSame(d: Drive, e: Drive, s0: Id, c: Id, t: Id, user: Id, order: Order, pool: set<Id>)
    requires Lists(order) && Steady(d, e, s0, user) && t !in Below(d.folders, s0)
    requires c in d.folders && c in Below(e.folders, s0) && SameBelow(d, e, c)
    ensures c in e.folders && e.folders[c] == d.folders[c]
    ensures LeadsVia(d.folders, s0, c, t, user, order, pool) == LeadsVia(e.folders, s0, c, t, user, order, pool)
    ensures var h := Hit(d.folders, t, d.folders[c].name, user, order);
      h.Some? ==> h == Hit(e.folders, t, d.folders[c].name, user, order)
    decreases pool, 1
  {
    var name := d.folders[c].name;
    var h, k := Hit(d.folders, t, name, user, order), Hit(e.folders, t, name, user, order);
    if h.Some? {
      assert h.value in Named(d.folders, t, name, user);
      assert h == k;
      if h.value != s0 {
        ChildOutside(d.folders, s0, t, h.value);
        LeadsSame(d, e, s0, c, h.value, user, order, pool);
      }
    } else if k.Some? {
      assert forall x :: x !in Named(d.folders, t, name, user);
      NewHitIsHarmless(d, e, s0, c, t, name, user, order, pool, k.value);
    }
  }

  // ---------------------------------------------------------------- harmless steps

  /** Deleting something below `s0`. */
  lemma SteadyDelete(d: Drive, c: Id, s0: Id, user: Id)
    requires IsForest(d.folders) && s0 in d.folders && c in Below(d.folders, s0) && c != s0
    ensures Steady(d, Delete(d, c), s0, user)
  {
    var e, gone := Delete(d, c), Below(d.folders, c);
    var p, all := Parents(d.folders), Below(d.folders, s0);
    DeleteForest(d, c);
    BelowNested(d.folders, s0, c);
    NotAboveItself(d.folders, s0, c);
    KeptMore(d, e, gone, gone, all - {s0}, all);
    ReachClosed(p, {s0});
    ReachClosed(p, {c});
    StillClosed(d, e, gone, gone, all);
    ReachLeast(Parents(e.folders), {s0}, all);
    forall x | x in Below(e.folders, s0) ensures x in e.folders {
      if x != s0 { ReachParent(Parents(e.folders), {s0}, x); }
    }
    forall y, name | y !in all && Named(d.folders, y, name, user) != {}
      ensures Named(e.folders, y, name, user) == Named(d.folders, y, name, user)
    {
      forall x | x in Named(d.folders, y, name, user) ensures x !in gone {
        if x in gone { OutsideParent(d.folders, s0, x); }
      }
    }
  }

  /** The parent of something below `s0` is below it too. */
  lemma OutsideParent(fs: Folders, s0: Id, x: Id)
    requires x in Below(fs, s0) && x != s0
    ensures x in fs && fs[x].parent.Some? && fs[x].parent.value in Below(fs, s0)
  {
    ReachParent(Parents(fs), {s0}, x);
  }

  /** Moving a child of something below `s0` out, under a name the place had no folder of. */
  lemma SteadyMove(d0: Drive, d: Drive, s: Id, t: Id, c: Id, s0: Id, user: Id)
    requires Steady(d0, d, s0, user) && s in Below(d.folders, s0) && c in SubFolders(d.folders, s, user) && c != s0
    requires t in d.folders && t !in Below(d0.folders, s0) && Named(d0.folders, t, d.folders[c].name, user) == {}
    ensures Steady(d0, Drive(Reparent(d.folders, c, t), d.files), s0, user)
  {
    var e := Drive(Reparent(d.folders, c, t), d.files);
    var p, all := Parents(d.folders), Below(d.folders, s0);
    ReachClosed(p, {s0});
    assert c in p && p[c] == s && c in all;
    BelowNested(d.folders, s0, c);
    ReparentForest(d.folders, c, t);
    assert Kept(d, e, {c}, {});
    forall x | x in all ensures x in Below(d0.folders, s0) {
    }
    KeptBoth(d0, d, e, Below(d0.folders, s0) - {s0}, Below(d0.folders, s0), {c}, {});
    MovedOut(d, c, t, s0);
    NamesAfterMove(d0, d, e, s, t, c, s0, user);
  }

  lemma NamesAfterMove(d0: Drive, d: Drive, e: Drive, s: Id, t: Id, c: Id, s0: Id, user: Id)
    requires NamesStable(d0, d, s0, user) && s in Below(d0.folders, s0) && c in d.folders
    requires d.folders[c].parent == Some(s)
    requires Named(d0.folders, t, d.folders[c].name, user) == {} && e.folders == Reparent(d.folders, c, t)
    ensures NamesStable(d0, e, s0, user)
  {
    forall y, name | y !in Below(d0.folders, s0) && Named(d0.folders, y, name, user) != {}
      ensures Named(e.folders, y, name, user) == Named(d0.folders, y, name, user)
    {
      var was, now := Named(d.folders, y, name, user), Named(e.folders, y, name, user);
      assert y != s && !(y == t && name == d.folders[c].name);
      forall x ensures x in now <==> x in was {
        if x == c { assert x !in now && x !in was; }
      }
      assert now == was;
    }
  }

  /** What moves out of the subtree of `s0` takes its own subtree along. */
  lemma MovedOut(d: Drive, c: Id, t: Id, s0: Id)
    requires IsForest(d.folders) && s0 in d.folders && c in d.folders && t !in Below(d.folders, s0)
    requires c in Below(d.folders, s0) && c != s0
    ensures var fs := Reparent(d.folders, c, t);
      forall x :: x in Below(fs, s0) ==> x in Below(d.folders, s0) && x in fs && x in d.folders && fs[x] == d.folders[x]
  {
    var fs, p := Reparent(d.folders, c, t), Parents(d.folders);
    var z := Below(d.folders, s0) - Below(d.folders, c);
    ReachClosed(p, {s0});
    ReachClosed(p, {c});
    NotAboveItself(d.folders, s0, c);
    forall x | x in Parents(fs) && Parents(fs)[x] in z ensures x in z {
      assert x != c;
      assert x in p && p[x] == Parents(fs)[x];
      if x in Below(d.folders, c) { OutsideParent(d.folders, c, x); }
    }
    ReachLeast(Parents(fs), {s0}, z);
    BelowWithin(d.folders, s0);
  }

  // ---------------------------------------------------------------- finding files without passing the source

  lemma VisibleBelow(fs: Folders, user: Id, xs: set<Id>)
    ensures Reach(ActiveUp(fs, user), xs) <= Reach(Parents(fs), xs)
  {
    ReachAgrees(ActiveUp(fs, user), Parents(fs), xs);
  }

  /** What is visible from outside without passing `s0` is outside. */
  lemma VisibleButOutside(d: Drive, user: Id, t: Id, s0: Id)
    requires t !in Below(d.folders, s0)
    ensures VisibleBut(d, user, t, s0) !! Below(d.folders, s0)
  {
    var up := ActiveUp(d.folders - {s0}, user);
    var z := VisibleBut(d, user, t, s0) - Below(d.folders, s0);
    ReachClosed(up, {t});
    forall x | x in up && up[x] in z ensures x in z {
      if x in Below(d.folders, s0) { OutsideParent(d.folders, s0, x); }
    }
    ReachLeast(up, {t}, z);
  }

  lemma StaysFoundBut(d: Drive, e: Drive, user: Id, t: Id, s0: Id, f: Id)
    requires Kept(d, e, Below(d.folders, s0) - {s0}, Below(d.folders, s0))
    requires t !in Below(d.folders, s0) && FoundBut(d, f, t, s0, user)
    ensures FoundBut(e, f, t, s0, user)
  {
    var up, after := ActiveUp(d.folders - {s0}, user), ActiveUp(e.folders - {s0}, user);
    VisibleButOutside(d, user, t, s0);
    ReachClosed(up, {t});
    forall x | x in up && up[x] in Reach(up, {t}) ensures x in after && after[x] == up[x] {
      assert x in Reach(up, {t});
    }
    ReachAgrees(up, after, {t});
  }

  /** What is found from an active child is found from its parent. */
  lemma FoundButUp(d: Drive, h: Id, t: Id, s0: Id, user: Id, f: Id)
    requires Active(d.folders, h, user) && d.folders[h].parent == Some(t) && h != s0
    requires FoundBut(d, f, h, s0, user)
    ensures FoundBut(d, f, t, s0, user)
  {
    var up := ActiveUp(d.folders - {s0}, user);
    ReachClosed(up, {t});
    assert h in up && up[h] == t;
    ReachLeast(up, {h}, Reach(up, {t}));
  }

  /** A subtree without `s0` is seen the same with and without it. */
  lemma FoundWithout(d: Drive, c: Id, s0: Id, user: Id, f: Id)
    requires Found(d, f, c, user) && s0 !in Below(d.folders, c)
    ensures FoundBut(d, f, c, s0, user)
  {
    var up := ActiveUp(d.folders, user);
    VisibleBelow(d.folders, user, {c});
    ReachClosed(up, {c});
    forall x | x in up && up[x] in Reach(up, {c})
      ensures x in ActiveUp(d.folders - {s0}, user) && ActiveUp(d.folders - {s0}, user)[x] == up[x]
    {
      assert x in Reach(up, {c});
    }
    ReachAgrees(up, ActiveUp(d.folders - {s0}, user), {c});
  }

  /** Moving a child over takes what is found from it along. */
  lemma MoveOverFinds(d: Drive, c: Id, t: Id, s0: Id, user: Id, f: Id)
    requires IsForest(d.folders) && Active(d.folders, c, user) && t !in Below(d.folders, c)
    requires s0 !in Below(d.folders, c)
    requires Found(d, f, c, user)
    ensures FoundBut(Drive(Reparent(d.folders, c, t), d.files), f, t, s0, user)
  {
    var e := Drive(Reparent(d.folders, c, t), d.files);
    var up, after := ActiveUp(d.folders, user), ActiveUp(e.folders, user);
    forall x | x in up && up[x] in Reach(up, {c}) ensures x in after && after[x] == up[x] {
      if x == c { NotUnderItself(d.folders, user, c); }
    }
    ReachAgrees(up, after, {c});
    ReachClosed(Parents(d.folders), {c});
    StillClosed(d, e, {c}, {}, Below(d.folders, c));
    ReachLeast(Parents(e.folders), {c}, Below(d.folders, c));
    FoundWithout(e, c, s0, user, f);
    ReachClosed(Parents(d.folders), {c});
    FoundButUp(e, c, t, s0, user, f);
  }

  lemma NotUnderItself(fs: Folders, user: Id, c: Id)
    requires IsForest(fs) && c in ActiveUp(fs, user)
    ensures ActiveUp(fs, user)[c] !in Reach(ActiveUp(fs, user), {c})
  {
    var rank :| Ranks(Parents(fs), rank) && fs.Keys <= rank.Keys;
    var p := ActiveUp(fs, user)[c];
    VisibleBelow(fs, user, {c});
    assert c in Parents(fs) && Parents(fs)[c] == p;
    if p in Reach(Parents(fs), {c}) { ReachRanks(Parents(fs), rank, c, p); }
  }

  // ---------------------------------------------------------------- mid-way through a merge

  /** The loop over the children of `s`, inside the merge of `s0`, with only harmless rounds so far. */
  ghost predicate Going(d0: Drive, d: Drive, s: Id, t: Id, s0: Id, user: Id, done: set<Id>, todo: set<Id>) {
    && Mid(d0, d, s, user, done, todo) && Steady(d0, d, s0, user)
    && s in d0.folders && s in Below(d0.folders, s0) && t in d0.folders && t !in Below(d0.folders, s0)
  }

  lemma GoingStartable(d0: Drive, s: Id, t: Id, s0: Id)
    requires IsForest(d0.folders) && s in d0.folders && s in Below(d0.folders, s0) && t in d0.folders
    requires t !in Below(d0.folders, s0)
    ensures Startable(d0, s, t)
  {
    BelowNested(d0.folders, s0, s);
  }

  /** What a change keeps off stays below `s0`. */
  lemma StaysBelow(d: Drive, e: Drive, u: set<Id>, v: set<Id>, s0: Id, x: Id)
    requires Kept(d, e, u, v) && Closed(Parents(d.folders), u) && x in Below(d.folders, s0) && x !in u
    ensures x in Below(e.folders, s0)
  {
    var p, q := Parents(d.folders), Parents(e.folders);
    var z := Below(e.folders, s0) + u;
    ReachClosed(q, {s0});
    forall y | y in p && p[y] in z ensures y in z {
      if y !in u { assert y in q && q[y] == p[y]; }
    }
    ReachLeast(p, {s0}, z);
  }

  /** The next child, its subtree, the source and the target are as they were. */
  lemma NextChild(d0: Drive, d: Drive, s: Id, t: Id, s0: Id, user: Id, done: set<Id>, todo: set<Id>, c: Id)
    requires Going(d0, d, s, t, s0, user, done, todo) && c in todo
    ensures c in d0.folders && c in SubFolders(d.folders, s, user) && d.folders[c] == d0.folders[c]
    ensures s in Below(d.folders, s0) && c in Below(d.folders, s0) && c != s0 && s0 !in Below(d.folders, c)
    ensures t in d.folders && t !in Below(d.folders, s0) && t !in Below(d.folders, c) && s != t
    ensures Below(d.folders, c) <= Below(d0.folders, s) - {s} && SameBelow(d0, d, c)
  {
    var p := Parents(d0.folders);
    var rank :| Ranks(p, rank) && d0.folders.Keys <= rank.Keys;
    var u := Reach(p, done);
    GoingStartable(d0, s, t, s0);
    Frontier(d0, d, s, t, user, done, todo, c);
    ReachClosed(p, done);
    UnderSource(d0.folders, s, user, done);
    StaysBelow(d0, d, u, u + {s}, s0, s);
    ReachClosed(Parents(d.folders), {s0});
    assert c in Parents(d.folders) && Parents(d.folders)[c] == s;
    ChildrenOf(d0.folders, s, user, done + {c});
    SubtreesApart(p, rank, s, done, c);
    SourceAboveChild(d.folders, s0, s, c);
  }

  /** A child of something below `s0` does not have `s0` under it. */
  lemma SourceAboveChild(fs: Folders, s0: Id, s: Id, c: Id)
    requires IsForest(fs) && s0 in fs && s in Below(fs, s0) && c in fs && fs[c].parent == Some(s)
    ensures c != s0 && s0 !in Below(fs, c)
  {
    var p := Parents(fs);
    var rank :| Ranks(p, rank) && fs.Keys <= rank.Keys;
    assert c in p && p[c] == s;
    ReachRanks(p, rank, s0, s);
    if s0 in Below(fs, c) { ReachRanks(p, rank, c, s0); }
  }

  lemma NoNames(fs: Folders, t: Id, name: string, user: Id)
    ensures name in Names(fs, t, user) <==> Named(fs, t, name, user) != {}
  {
    forall x | x in Named(fs, t, name, user) ensures name in Names(fs, t, user) {
      assert x in SubFolders(fs, t, user);
    }
    if name in Names(fs, t, user) {
      var x :| x in SubFolders(fs, t, user) && fs[x].name == name;
      assert x in Named(fs, t, name, user);
    }
  }

  /** What waits below the next child is found from it. */
  lemma WaitingFound(d0: Drive, d: Drive, user: Id, c: Id, f: Id)
    requires SameBelow(d0, d, c) && Waiting(d0, d, user, {c}, f)
    ensures Found(d, f, c, user)
  {
    var up, after := ActiveUp(d0.folders, user), ActiveUp(d.folders, user);
    VisibleBelow(d0.folders, user, {c});
    ReachClosed(up, {c});
    forall x | x in up && up[x] in Reach(up, {c}) ensures x in after && after[x] == up[x] {
      assert x in Reach(up, {c});
    }
    ReachAgrees(up, after, {c});
  }

  /** What waits below another child keeps waiting. */
  lemma StaysWaiting(d0: Drive, d: Drive, e: Drive, s: Id, t: Id, user: Id, done: set<Id>, todo: set<Id>, c: Id, f: Id)
    requires Startable(d0, s, t) && Mid(d0, d, s, user, done, todo) && c in todo
    requires Kept(d, e, Below(d.folders, c), Below(d.folders, c)) && Waiting(d0, d, user, todo - {c}, f)
    ensures Waiting(d0, e, user, todo - {c}, f)
  {
    var p := Parents(d0.folders);
    var rank :| Ranks(p, rank) && d0.folders.Keys <= rank.Keys;
    Frontier(d0, d, s, t, user, done, todo, c);
    ChildrenOf(d0.folders, s, user, done + todo);
    SetsApart(p, rank, s, done + {c}, todo - {c});
    VisibleBelow(d0.folders, user, todo - {c});
  }

  // ---------------------------------------------------------------- a merge that does not lead back

  /** A round for a child whose name is new at the target. */
  lemma RoundMoves(d0: Drive, d: Drive, c: Item, s: Id, t: Id, s0: Id, user: Id, done: set<Id>, todo: set<Id>, f: Id)
    requires Going(d0, d, s, t, s0, user, done, todo) && c.id in todo && c.id in d0.folders
    requires c.name == d0.folders[c.id].name
    requires c.name !in Names(d0.folders, t, user)
    ensures var e := Drive(Reparent(d.folders, c.id, t), d.files);
      && Steady(d0, e, s0, user)
      && (FoundBut(d, f, t, s0, user) || Waiting(d0, d, user, {c.id}, f) ==> FoundBut(e, f, t, s0, user))
  {
    var e := Drive(Reparent(d.folders, c.id, t), d.files);
    NextChild(d0, d, s, t, s0, user, done, todo, c.id);
    NoNames(d0.folders, t, c.name, user);
    SteadyMove(d0, d, s, t, c.id, s0, user);
    if FoundBut(d, f, t, s0, user) {
      StaysFoundBut(d, e, user, t, s0, f);
    } else if Waiting(d0, d, user, {c.id}, f) {
      WaitingFound(d0, d, user, c.id, f);
      MoveOverFinds(d, c.id, t, s0, user, f);
    }
  }

  /** A round for a child that is merged into the folder `h` of its name. */
  lemma {:induction false} RoundMerges(
    d: Drive, c: Id, s: Id, t: Id, h: Id, s0: Id, user: Id, order: Order, pool: set<Id>, f: Id)
    requires Lists(order) && IsForest(d.folders) && s0 in d.folders && c in SubFolders(d.folders, s, user)
    requires s in Below(d.folders, s0) && t !in Below(d.folders, s0)
    requires Active(d.folders, h, user) && d.folders[h].parent == Some(t) && h != s0
    requires !LeadsBack(d.folders, s0, c, h, user, order, pool) && Below(d.folders, c) <= pool
    ensures var e := Delete(Merge(d, c, h, user, order, pool), c);
      && Steady(d, e, s0, user)
      && (FoundBut(d, f, t, s0, user) || Found(d, f, c, user) ==> FoundBut(e, f, t, s0, user))
    decreases pool, 1
  {
    var m := Merge(d, c, h, user, order, pool);
    ReachClosed(Parents(d.folders), {s0});
    assert c in Parents(d.folders) && Parents(d.folders)[c] == s;
    SourceAboveChild(d.folders, s0, s, c);
    ChildOutside(d.folders, s0, t, h);
    MergeSafe(d, c, h, s0, user, order, pool, f);
    if FoundBut(d, f, t, s0, user) {
      StaysFoundBut(d, m, user, t, s0, f);
    } else if Found(d, f, c, user) {
      FoundButUp(m, h, t, s0, user, f);
    }
    GoingStartable(d, c, h, s0);
    StillBelowAfterMerge(d, m, c, h, s0, user, order, pool);
    SteadyDelete(m, c, s0, user);
    SteadyBoth(d, m, Delete(m, c), s0, user);
    if FoundBut(m, f, t, s0, user) { StaysFoundBut(m, Delete(m, c), user, t, s0, f); }
  }

  lemma StillBelowAfterMerge(d: Drive, m: Drive, c: Id, h: Id, s0: Id, user: Id, order: Order, pool: set<Id>)
    requires Lists(order) && Startable(d, c, h) && c in Below(d.folders, s0)
    requires m == Merge(d, c, h, user, order, pool)
    ensures c in Below(m.folders, s0) && Below(m.folders, c) <= Below(d.folders, c)
  {
    var p, below := Parents(d.folders), Below(d.folders, c);
    MergeKeeps(d, c, h, user, order, pool);
    ReachClosed(p, {c});
    forall x | x in p && p[x] in below - {c} ensures x in below - {c} {
      if x == c { NotAboveItself(d.folders, c, p[c]); ReachClosed(p, {p[c]}); }
    }
    StaysBelow(d, m, below - {c}, below, s0, c);
    StillClosed(d, m, below - {c}, below, below);
    ReachLeast(Parents(m.folders), {c}, below);
  }

  lemma {:induction false} RoundSafe(
    d0: Drive, d: Drive, c: Item, s: Id, t: Id, s0: Id, user: Id, order: Order, pool: set<Id>, done: set<Id>,
    todo: set<Id>, f: Id)
    requires Lists(order) && Going(d0, d, s, t, s0, user, done, todo)
    requires c.id in todo && c.id in d0.folders && c.name == d0.folders[c.id].name
    requires !LeadsVia(d0.folders, s0, c.id, t, user, order, pool) && Below(d0.folders, s) - {s} <= pool
    ensures var e := MergeOne(d, c, t, Names(d0.folders, t, user), user, order, pool);
      && Steady(d0, e, s0, user)
      && (FoundBut(d, f, t, s0, user) || Waiting(d0, d, user, {c.id}, f) ==> FoundBut(e, f, t, s0, user))
    decreases pool, 2
  {
    NextChild(d0, d, s, t, s0, user, done, todo, c.id);
    NoNames(d0.folders, t, c.name, user);
    if c.name !in Names(d0.folders, t, user) {
      RoundMoves(d0, d, c, s, t, s0, user, done, todo, f);
    } else {
      var h := HitOf(d0, d, s0, c, t, user, order, pool);
      if Waiting(d0, d, user, {c.id}, f) { WaitingFound(d0, d, user, c.id, f); }
      RoundMerges(d, c.id, s, t, h, s0, user, order, pool, f);
      SteadyBoth(d0, d, MergeOne(d, c, t, Names(d0.folders, t, user), user, order, pool), s0, user);
    }
  }

  /** The folder of the child's name is still the one the names led to at the start. */
  lemma HitOf(d0: Drive, d: Drive, s0: Id, c: Item, t: Id, user: Id, order: Order, pool: set<Id>) returns (h: Id)
    requires Lists(order) && Steady(d0, d, s0, user) && t !in Below(d0.folders, s0)
    requires c.id in d0.folders && c.name == d0.folders[c.id].name && c.id in Below(d.folders, s0)
    requires SameBelow(d0, d, c.id)
    requires Named(d0.folders, t, c.name, user) != {}
    ensures var hits := Listed(order, Named(d.folders, t, c.name, user)); |hits| > 0 && hits[0] == h
    ensures Active(d.folders, h, user) && d.folders[h].parent == Some(t)
    ensures Hit(d0.folders, t, c.name, user, order) == Some(h)
    ensures LeadsVia(d0.folders, s0, c.id, t, user, order, pool)
      <==> h == s0 || LeadsBack(d.folders, s0, c.id, h, user, order, pool)
  {
    LeadsViaSame(d0, d, s0, c.id, t, user, order, pool);
    var hits := Listed(order, Named(d0.folders, t, c.name, user));
    if forall x :: x !in Named(d0.folders, t, c.name, user) {
      assert false;
    }
    h := Hit(d0.folders, t, c.name, user, order).value;
    assert Hit(d.folders, t, c.name, user, order) == Some(h);
    assert h in Named(d.folders, t, c.name, user);
  }

  predicate NamedAs(fs: Folders, todo: seq<Item>) {
    forall i :: 0 <= i < |todo| ==> todo[i].id in fs && todo[i].name == fs[todo[i].id].name
  }

  lemma {:induction false} LoopSafe(d0: Drive, d: Drive, todo: seq<Item>, s: Id, t: Id, s0: Id, user: Id, order: Order,
    pool: set<Id>, done: set<Id>, f: Id)
    requires Lists(order) && Going(d0, d, s, t, s0, user, done, Ids(todo)) && Different(todo)
    requires NamedAs(d0.folders, todo)
    requires Below(d0.folders, s) - {s} <= pool
    requires forall c :: c in Ids(todo) && c in d0.folders ==> !LeadsVia(d0.folders, s0, c, t, user, order, pool)
    ensures var e := MergeFolders(d, todo, t, Names(d0.folders, t, user), user, order, pool);
      && Steady(d0, e, s0, user)
      && (FoundBut(d, f, t, s0, user) || Waiting(d0, d, user, Ids(todo), f) ==> FoundBut(e, f, t, s0, user))
    decreases pool, 3, |todo|
  {
    if |todo| == 0 {
      ReachNothing(ActiveUp(d0.folders, user), Ids(todo));
    } else {
      TakeFirst(todo);
      RoundSafe(d0, d, todo[0], s, t, s0, user, order, pool, done, Ids(todo), f);
      var e := LoopStep(d0, d, todo, s, t, s0, user, order, pool, done);
      WaitsOn(d0, d, e, todo, s, t, s0, user, done, f);
      LoopSafe(d0, e, todo[1..], s, t, s0, user, order, pool, done + {todo[0].id}, f);
    }
  }

  /** After a round, a file that waited is found from the target or still waits. */
  lemma WaitsOn(d0: Drive, d: Drive, e: Drive, todo: seq<Item>, s: Id, t: Id, s0: Id, user: Id, done: set<Id>, f: Id)
    requires Going(d0, d, s, t, s0, user, done, Ids(todo)) && |todo| > 0 && Different(todo)
    requires Kept(d, e, Below(d.folders, todo[0].id), Below(d.folders, todo[0].id))
    ensures Waiting(d0, d, user, Ids(todo), f) ==>
      Waiting(d0, d, user, {todo[0].id}, f) || Waiting(d0, e, user, Ids(todo[1..]), f)
  {
    var up, c := ActiveUp(d0.folders, user), todo[0].id;
    TakeFirst(todo);
    ReachUnion(up, {c}, Ids(todo) - {c});
    assert {c} + (Ids(todo) - {c}) == Ids(todo);
    GoingStartable(d0, s, t, s0);
    if Waiting(d0, d, user, Ids(todo) - {c}, f) {
      StaysWaiting(d0, d, e, s, t, user, done, Ids(todo), c, f);
    }
  }

  /** The loop after one more round; the shape of what is left does not depend on where names lead. */
  lemma LoopStep(
    d0: Drive, d: Drive, todo: seq<Item>, s: Id, t: Id, s0: Id, user: Id, order: Order, pool: set<Id>, done: set<Id>)
    returns (e: Drive)
    requires Lists(order) && |todo| > 0 && Different(todo)
    requires IsForest(d0.folders) && s in d0.folders && s in Below(d0.folders, s0) && t in d0.folders
    requires t !in Below(d0.folders, s0)
    requires Mid(d0, d, s, user, done, Ids(todo))
    ensures e == MergeOne(d, todo[0], t, Names(d0.folders, t, user), user, order, pool)
    ensures Kept(d, e, Below(d.folders, todo[0].id), Below(d.folders, todo[0].id))
    ensures Mid(d0, e, s, user, done + {todo[0].id}, Ids(todo[1..])) && Different(todo[1..])
  {
    var c, names := todo[0], Names(d0.folders, t, user);
    e := MergeOne(d, c, t, names, user, order, pool);
    GoingStartable(d0, s, t, s0);
    TakeFirst(todo);
    Frontier(d0, d, s, t, user, done, Ids(todo), c.id);
    ReachClosed(Parents(d0.folders), {s});
    MergeOneKeeps(d, c, s, t, names, user, order, pool);
    MidStep(d0, d, e, s, t, user, done, Ids(todo), c.id);
  }

  /** The state after the file loop, and where a file is then. */
  lemma FilesFirst(d: Drive, s: Id, t: Id, s0: Id, user: Id, order: Order, f: Id)
    requires Lists(order) && IsForest(d.folders) && s0 in d.folders && s in d.folders && s in Below(d.folders, s0)
    requires t in d.folders && t !in Below(d.folders, s0)
    ensures var files := MergeFiles(d.files, Listed(order, FilesIn(d.files, s, user)), t, FileNames(d.files, t, user));
      var items := Items(d.folders, Listed(order, SubFolders(d.folders, s, user)));
      var e := Drive(d.folders, files);
      && Going(d, e, s, t, s0, user, {}, Ids(items)) && Different(items) && NamedAs(d.folders, items)
      && Ids(items) == SubFolders(d.folders, s, user)
      && (FoundBut(d, f, t, s0, user) ==> FoundBut(e, f, t, s0, user))
      && (Found(d, f, s, user) ==> FoundBut(e, f, t, s0, user) || Waiting(d, e, user, Ids(items), f))
  {
    var up := ActiveUp(d.folders, user);
    var files := MergeFiles(d.files, Listed(order, FilesIn(d.files, s, user)), t, FileNames(d.files, t, user));
    var e := Drive(d.folders, files);
    GoingStartable(d, s, t, s0);
    AfterFiles(d, s, t, user, order);
    MergeFilesMoves(d.files, Listed(order, FilesIn(d.files, s, user)), t, FileNames(d.files, t, user));
    SteadySelf(d, s0, user);
    assert Steady(d, e, s0, user);
    if FoundBut(d, f, t, s0, user) { StaysFoundBut(d, e, user, t, s0, f); }
    ReachSplits(up, s);
    ReachClosed(ActiveUp(d.folders - {s0}, user), {t});
    assert Children(up, {s}) == SubFolders(d.folders, s, user);
  }

  /**
   A merge that does not lead back into `s0` only takes things out of the subtree of `s0`, and what
   was found from the source, or from the target, is found from the target without passing `s0`.
   */
  lemma {:induction false} MergeSafe(d: Drive, s: Id, t: Id, s0: Id, user: Id, order: Order, pool: set<Id>, f: Id)
    requires Lists(order) && IsForest(d.folders) && s0 in d.folders && s in d.folders && s in Below(d.folders, s0)
    requires t in d.folders && t !in Below(d.folders, s0) && Below(d.folders, s) <= pool
    requires !LeadsBack(d.folders, s0, s, t, user, order, pool)
    ensures var e := Merge(d, s, t, user, order, pool);
      && Steady(d, e, s0, user)
      && (FoundBut(d, f, t, s0, user) || Found(d, f, s, user) ==> FoundBut(e, f, t, s0, user))
    decreases pool, 0
  {
    var files := MergeFiles(d.files, Listed(order, FilesIn(d.files, s, user)), t, FileNames(d.files, t, user));
    var items := Items(d.folders, Listed(order, SubFolders(d.folders, s, user)));
    ReachClosed(Parents(d.folders), {s});
    FilesFirst(d, s, t, s0, user, order, f);
    LoopSafe(d, Drive(d.folders, files), items, s, t, s0, user, order, pool - {s}, {}, f);
  }
}
