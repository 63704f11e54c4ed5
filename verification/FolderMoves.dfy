/** Moving a folder onto another one of its name (backend/src/folder/folder.service.ts). */
module FolderMoves {
  import opened Wrappers
  import opened Forest
  import opened FolderMerge
  import opened MergeSafety

  // ---------------------------------------------------------------- moving onto a folder of the same name

  /** What `move` does when it merges: the contents go over, then the source is deleted. */
  function MovedOnto(d: Drive, s: Id, t: Id, user: Id, order: Order): Drive
    requires Lists(order)
  {
    Delete(Merge(d, s, t, user, order, d.folders.Keys), s)
  }

  /** Whether the names lead a move of `s` onto `t` back into `s`. */
  predicate Entangled(fs: Folders, s: Id, t: Id, user: Id, order: Order)
    requires Lists(order)
  {
    LeadsBack(fs, s, s, t, user, order, fs.Keys)
  }

  /** It takes a target above the source to be entangled. */
  lemma EntangledOnlyAbove(fs: Folders, s: Id, t: Id, user: Id, order: Order)
    requires Lists(order) && Entangled(fs, s, t, user, order)
    ensures s in Below(fs, t)
  {
    if s !in Below(fs, t) { NoLead(fs, s, s, t, user, order, fs.Keys); }
  }

  /** Moving onto a folder keeps the forest, and keeps off everything outside the source. */
  lemma MovedOntoKeeps(d: Drive, s: Id, t: Id, user: Id, order: Order)
    requires Lists(order) && Startable(d, s, t)
    ensures var e := MovedOnto(d, s, t, user, order);
      IsForest(e.folders) && Kept(d, e, Below(d.folders, s), Below(d.folders, s)) && s !in e.folders
  {
    var below := Below(d.folders, s);
    var m := Merge(d, s, t, user, order, d.folders.Keys);
    MergeKeeps(d, s, t, user, order, d.folders.Keys);
    ReachClosed(Parents(d.folders), {s});
    StillClosed(d, m, below - {s}, below, below);
    ReachLeast(Parents(m.folders), {s}, below);
    DeleteForest(m, s);
    ReachClosed(Parents(m.folders), {s});
    KeptMore(d, m, below - {s}, below, below, below);
    KeptBoth(d, m, Delete(m, s), below, below, Below(m.folders, s), Below(m.folders, s));
  }

  /** What is found from `t` is found without passing `s0`, or from `s0`. */
  lemma FoundSplits(d: Drive, t: Id, s0: Id, user: Id, f: Id)
    requires Found(d, f, t, user)
    ensures FoundBut(d, f, t, s0, user) || Found(d, f, s0, user)
  {
    var up, but := ActiveUp(d.folders, user), ActiveUp(d.folders - {s0}, user);
    var z := Reach(but, {t}) + Reach(up, {s0});
    ReachClosed(but, {t});
    ReachClosed(up, {s0});
    forall x | x in up && up[x] in z ensures x in z {
      if x != s0 { assert x in but && but[x] == up[x]; }
    }
    ReachLeast(up, {t}, z);
  }

  /** Deleting `s0` loses nothing that is found without passing it. */
  lemma FoundAfterDelete(d: Drive, t: Id, s0: Id, user: Id, f: Id)
    requires IsForest(d.folders) && t !in Below(d.folders, s0) && FoundBut(d, f, t, s0, user)
    ensures Found(Delete(d, s0), f, t, user)
  {
    var e, but := Delete(d, s0), ActiveUp(d.folders - {s0}, user);
    DeleteForest(d, s0);
    VisibleButOutside(d, user, t, s0);
    ReachClosed(but, {t});
    forall x | x in but && but[x] in Reach(but, {t})
      ensures x in ActiveUp(e.folders, user) && ActiveUp(e.folders, user)[x] == but[x]
    {
      assert x in Reach(but, {t});
    }
    ReachAgrees(but, ActiveUp(e.folders, user), {t});
  }

  /**
   A move onto a folder of the same name that is not entangled loses no live file: everything found
   from the source or from the target before is found from the target afterwards.
   */
  lemma MovedOntoLosesNothing(d: Drive, s: Id, t: Id, user: Id, order: Order, f: Id)
    requires Lists(order) && Startable(d, s, t) && !Entangled(d.folders, s, t, user, order)
    requires Found(d, f, s, user) || Found(d, f, t, user)
    ensures Found(MovedOnto(d, s, t, user, order), f, t, user)
  {
    var m := Merge(d, s, t, user, order, d.folders.Keys);
    ReachClosed(Parents(d.folders), {s});
    BelowWithin(d.folders, s);
    if !Found(d, f, s, user) { FoundSplits(d, t, s, user, f); }
    MergeSafe(d, s, t, s, user, order, d.folders.Keys, f);
    FoundAfterDelete(m, t, s, user, f);
  }
}
