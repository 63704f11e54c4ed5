/** The file names a merge produces. */
module MergeNames {
  // In `mergeFolderContents` (backend/src/common/name-conflict.service.ts) a file moved under its own name
  // is not added to the names taken, so a later file can be renamed onto it.

  import opened Wrappers
  import opened Forest
  import opened UniqueNames
  import opened FolderMerge

  // ---------------------------------------------------------------- the loop over names

  function NextTaken(name: string, taken: set<string>): set<string> {
    var unique := UniqueName(name, taken);
    if unique != name then taken + {unique} else taken
  }

  /** The names the moved files end under, in the order they are moved. */
  function Renamed(names: seq<string>, taken: set<string>): seq<string>
    decreases |names|
  {
    if |names| == 0 then []
    else [UniqueName(names[0], taken)] + Renamed(names[1..], NextTaken(names[0], taken))
  }

  /** The names that count as taken when the `i`-th file is moved. */
  function TakenAt(names: seq<string>, taken: set<string>, i: nat): set<string>
    requires i <= |names|
    decreases i
  {
    if i == 0 then taken else TakenAt(names[1..], NextTaken(names[0], taken), i - 1)
  }

  predicate Different(names: seq<string>) {
    forall i, j :: 0 <= i < j < |names| ==> names[i] != names[j]
  }

  /** A file that keeps its name is followed by one whose new name is just that. */
  predicate Overtaken(names: seq<string>, taken: set<string>) {
    exists i, j :: 0 <= i < j < |names| && Overtakes(names, taken, i, j)
  }

  predicate Overtakes(names: seq<string>, taken: set<string>, i: nat, j: nat)
    requires i < j < |names|
  {
    && names[i] !in TakenAt(names, taken, i)
    && names[j] in TakenAt(names, taken, j)
    && UniqueName(names[j], TakenAt(names, taken, j)) == names[i]
  }

  lemma {:induction false} RenamedAt(names: seq<string>, taken: set<string>, i: nat)
    requires i < |names|
    ensures |Renamed(names, taken)| == |names|
    ensures Renamed(names, taken)[i] == UniqueName(names[i], TakenAt(names, taken, i))
    decreases |names|
  {
    if |names| > 1 { RenamedAt(names[1..], NextTaken(names[0], taken), if i == 0 then 0 else i - 1); }
    if |names| == 1 { assert Renamed(names[1..], NextTaken(names[0], taken)) == []; }
  }

  /** A new name stays taken. */
  lemma {:induction false} TakenStays(names: seq<string>, taken: set<string>, i: nat, j: nat)
    requires i < j <= |names|
    ensures taken <= TakenAt(names, taken, j)
    ensures NextTaken(names[i], TakenAt(names, taken, i)) <= TakenAt(names, taken, j)
    decreases j
  {
    var next := NextTaken(names[0], taken);
    if j > 1 { TakenStays(names[1..], next, if i == 0 then 0 else i - 1, j - 1); }
  }

  /** Two moved files get one name exactly when the first keeps its own and is overtaken. */
  lemma SameNameIff(names: seq<string>, taken: set<string>, i: nat, j: nat)
    requires Different(names) && i < j < |names|
    ensures |Renamed(names, taken)| == |names|
    ensures Renamed(names, taken)[i] == Renamed(names, taken)[j] <==> Overtakes(names, taken, i, j)
  {
    RenamedAt(names, taken, i);
    RenamedAt(names, taken, j);
    TakenStays(names, taken, i, j);
    assert names[i] != names[j];
  }

  /**
   The names of the moved files are pairwise different if and only if no file that keeps its name is
   overtaken by a later one.
   */
  lemma RenamedDifferIff(names: seq<string>, taken: set<string>)
    requires Different(names)
    ensures |Renamed(names, taken)| == |names|
    ensures Different(Renamed(names, taken)) <==> !Overtaken(names, taken)
  {
    var renamed := Renamed(names, taken);
    if |names| > 0 { RenamedAt(names, taken, 0); }
    if Overtaken(names, taken) {
      var i, j :| 0 <= i < j < |names| && Overtakes(names, taken, i, j);
      SameNameIff(names, taken, i, j);
    } else {
      forall i, j | 0 <= i < j < |renamed| ensures renamed[i] != renamed[j] {
        SameNameIff(names, taken, i, j);
      }
    }
  }

  // ---------------------------------------------------------------- the loop over files

  function NamesOf(files: Files, todo: seq<Id>): seq<string>
    requires forall i :: 0 <= i < |todo| ==> todo[i] in files
  {
    seq(|todo|, i requires 0 <= i < |todo| => files[todo[i]].name)
  }

  predicate AllDifferent(todo: seq<Id>) {
    forall i, j :: 0 <= i < j < |todo| ==> todo[i] != todo[j]
  }

  lemma {:induction false} MergeFilesRename(files: Files, todo: seq<Id>, t: Id, taken: set<string>)
    requires AllDifferent(todo) && forall i :: 0 <= i < |todo| ==> todo[i] in files
    ensures var after := MergeFiles(files, todo, t, taken);
      && after.Keys == files.Keys
      && NamesOf(after, todo) == Renamed(NamesOf(files, todo), taken)
    decreases |todo|
  {
    MergeFilesMoves(files, todo, t, taken);
    if |todo| > 0 {
      var f, rest := files[todo[0]], todo[1..];
      var unique := UniqueName(f.name, taken);
      var next := files[todo[0] := f.(name := unique, folder := Some(t))];
      MergeFilesRename(next, rest, t, NextTaken(f.name, taken));
      FirstStays(next, todo, t, NextTaken(f.name, taken));
      assert NamesOf(files, todo)[1..] == NamesOf(next, rest);
    }
  }

  /** The file moved first is not touched again. */
  lemma FirstStays(next: Files, todo: seq<Id>, t: Id, taken: set<string>)
    requires AllDifferent(todo) && |todo| > 0 && forall i :: 0 <= i < |todo| ==> todo[i] in next
    ensures var after := MergeFiles(next, todo[1..], t, taken);
      && after.Keys == next.Keys && after[todo[0]] == next[todo[0]]
      && NamesOf(after, todo) == [next[todo[0]].name] + NamesOf(after, todo[1..])
  {
    MergeFilesMoves(next, todo[1..], t, taken);
    assert todo[0] !in todo[1..];
  }

  /**
   Files of the source with different names end under different names if and only if none that
   keeps its name is overtaken; and the names before the merge decide that.
   */
  lemma MergedNamesDifferIff(files: Files, todo: seq<Id>, t: Id, taken: set<string>)
    requires AllDifferent(todo) && forall i :: 0 <= i < |todo| ==> todo[i] in files
    requires Different(NamesOf(files, todo))
    ensures var after := MergeFiles(files, todo, t, taken);
      && after.Keys == files.Keys
      && (Different(NamesOf(after, todo)) <==> !Overtaken(NamesOf(files, todo), taken))
  {
    MergeFilesRename(files, todo, t, taken);
    RenamedDifferIff(NamesOf(files, todo), taken);
  }

  // ---------------------------------------------------------------- the unique index

  /**
   With a unique index on the active names of a folder, an update onto a name that is there is
   refused.  `there` holds the names in the target so far.
   */
  predicate Admitted(names: seq<string>, taken: set<string>, there: set<string>)
    decreases |names|
  {
    |names| > 0 ==>
      && UniqueName(names[0], taken) !in there
      && Admitted(names[1..], NextTaken(names[0], taken), there + {UniqueName(names[0], taken)})
  }

  lemma {:induction false} AdmittedIff(names: seq<string>, taken: set<string>, there: set<string>)
    ensures Admitted(names, taken, there) <==>
      Different(Renamed(names, taken)) && forall name :: name in Renamed(names, taken) ==> name !in there
    decreases |names|
  {
    if |names| > 0 {
      var unique, next := UniqueName(names[0], taken), NextTaken(names[0], taken);
      var rest := Renamed(names[1..], next);
      AdmittedIff(names[1..], next, there + {unique});
      assert Renamed(names, taken) == [unique] + rest;
      assert Different([unique] + rest) <==> unique !in rest && Different(rest) by { DifferentCons(unique, rest); }
    }
  }

  lemma DifferentCons(name: string, rest: seq<string>)
    ensures Different([name] + rest) <==> name !in rest && Different(rest)
  {
    var all := [name] + rest;
    if Different(all) {
      forall i, j | 0 <= i < j < |rest| ensures rest[i] != rest[j] {
        assert all[i + 1] != all[j + 1];
      }
      forall i | 0 <= i < |rest| ensures rest[i] != name {
        assert all[0] != all[i + 1];
      }
    }
  }

  /** Where the index is applied, the loop goes through exactly when no file is overtaken. */
  lemma IndexRefusesOvertaken(names: seq<string>, taken: set<string>)
    requires Different(names)
    ensures Admitted(names, taken, taken) <==> !Overtaken(names, taken)
  {
    RenamedDifferIff(names, taken);
    AdmittedIff(names, taken, taken);
    forall name | name in Renamed(names, taken) ensures name !in taken {
      var i :| 0 <= i < |Renamed(names, taken)| && Renamed(names, taken)[i] == name;
      RenamedAt(names, taken, i);
      if i > 0 { TakenStays(names, taken, 0, i); }
    }
  }

  // ---------------------------------------------------------------- the smallest case

  /** A source with `a (1).b` and `a.b`, a target with `a.b`: both files end as `a (1).b`. */
  lemma MovedNamesMayCollide()
    ensures Overtaken(["a (1).b", "a.b"], {"a.b"})
    ensures Renamed(["a (1).b", "a.b"], {"a.b"}) == ["a (1).b", "a (1).b"]
  {
    var names, taken := ["a (1).b", "a.b"], {"a.b"};
    LastIndexIs("a.b", '.', 1);
    assert Candidate("a (", 1, ").b") == "a (1).b";
    assert UniqueName("a.b", taken) == "a (1).b";
    assert names[1..] == ["a.b"] && TakenAt(names, taken, 1) == taken;
    assert Overtakes(names, taken, 0, 1);
    RenamedAt(names, taken, 0);
    RenamedAt(names, taken, 1);
  }
}
