/**
 The rows of the folder tree, and the recursive closure its queries compute
 (backend/prisma/schema.prisma, backend/src/folder/folder-deletion-queries.ts).
 */
module Forest {
  import opened Wrappers

  type Id = int

  datatype Folder = Folder(name: string, parent: Option<Id>, owner: Id, deletedAt: Option<int>)
  datatype File = File(name: string, folder: Option<Id>, owner: Id, deletedAt: Option<int>)

  type Folders = map<Id, Folder>
  type Files = map<Id, File>

  datatype Drive = Drive(folders: Folders, files: Files)

  predicate Active(fs: Folders, x: Id, user: Id) {
    x in fs && fs[x].owner == user && fs[x].deletedAt == None
  }

  predicate InFolders(f: File, tree: set<Id>) {
    f.folder.Some? && f.folder.value in tree
  }

  /** The active folders with that name at that place, `except` not counted. */
  function Conflicts(fs: Folders, parent: Option<Id>, name: string, user: Id, except: Id): set<Id> {
    set x | x in fs && Active(fs, x, user) && fs[x].parent == parent && fs[x].name == name && x != except
  }

  // ---------------------------------------------------------------- recursive closure

  /** Which child row joins on which parent. */
  type Up = map<Id, Id>

  function Children(up: Up, s: set<Id>): set<Id> {
    set x | x in up && up[x] in s
  }

  /** `WITH RECURSIVE`: join the children in until no row is new. */
  function Reach(up: Up, s: set<Id>): set<Id>
    decreases up.Keys - s
  {
    if Children(up, s) <= s then s else Reach(up, s + Children(up, s))
  }

  predicate Closed(up: Up, z: set<Id>) {
    forall x :: x in up && up[x] in z ==> x in z
  }

  lemma {:induction false} ReachClosed(up: Up, s: set<Id>)
    ensures s <= Reach(up, s) && Closed(up, Reach(up, s))
    decreases up.Keys - s
  {
    if Children(up, s) <= s {
      forall x | x in up && up[x] in s ensures x in s {
        assert x in Children(up, s);
      }
    } else {
      ReachClosed(up, s + Children(up, s));
    }
  }

  /** The closure is the least closed set. */
  lemma {:induction false} ReachLeast(up: Up, s: set<Id>, z: set<Id>)
    requires s <= z && Closed(up, z)
    ensures Reach(up, s) <= z
    decreases up.Keys - s
  {
    if !(Children(up, s) <= s) {
      forall x | x in Children(up, s) ensures x in z {
        assert up[x] in z;
      }
      ReachLeast(up, s + Children(up, s), z);
    }
  }

  /** Whoever is reached and is not a start was reached through its parent. */
  lemma {:induction false} ReachParent(up: Up, s: set<Id>, x: Id)
    requires x in Reach(up, s) && x !in s
    ensures x in up && up[x] in Reach(up, s)
    decreases up.Keys - s
  {
    if !(Children(up, s) <= s) {
      if x in s + Children(up, s) {
        ReachClosed(up, s + Children(up, s));
      } else {
        ReachParent(up, s + Children(up, s), x);
      }
    }
  }

  lemma ReachMonotone(up: Up, s: set<Id>, t: set<Id>)
    requires s <= t
    ensures Reach(up, s) <= Reach(up, t)
  {
    ReachClosed(up, t);
    ReachLeast(up, s, Reach(up, t));
  }

  /** Reaching a start and then its closure is reaching both. */
  lemma ReachUnion(up: Up, s: set<Id>, t: set<Id>)
    ensures Reach(up, s + t) == Reach(up, s) + Reach(up, t)
  {
    ReachMonotone(up, s, s + t);
    ReachMonotone(up, t, s + t);
    ReachClosed(up, s);
    ReachClosed(up, t);
    ReachLeast(up, s + t, Reach(up, s) + Reach(up, t));
  }

  lemma ReachNothing(up: Up, s: set<Id>)
    requires s == {}
    ensures Reach(up, s) == {}
  {
    ReachLeast(up, s, {});
  }

  /** A closure is its start and the closure of the children of that. */
  lemma ReachSplits(up: Up, id: Id)
    ensures Reach(up, {id}) == {id} + Reach(up, Children(up, {id}))
  {
    var cs := Children(up, {id});
    ReachClosed(up, {id});
    ReachClosed(up, cs);
    ReachLeast(up, {id}, {id} + Reach(up, cs));
    forall x | x in cs ensures x in Reach(up, {id}) {
      assert x in up && up[x] == id;
    }
    ReachLeast(up, cs, Reach(up, {id}));
  }

  /** Rows that join the same way inside a closure are closed over the same way. */
  lemma ReachAgrees(up: Up, other: Up, s: set<Id>)
    requires forall x :: x in up && up[x] in Reach(up, s) ==> x in other && other[x] == up[x]
    ensures Reach(up, s) <= Reach(other, s)
  {
    var z := Reach(up, s) * Reach(other, s);
    ReachClosed(up, s);
    ReachClosed(other, s);
    forall x | x in up && up[x] in z ensures x in z {
      assert other[x] == up[x];
    }
    ReachLeast(up, s, z);
  }

  // ---------------------------------------------------------------- acyclic parents

  predicate Ranks(up: Up, rank: map<Id, nat>) {
    forall x :: x in up ==> x in rank && up[x] in rank && rank[up[x]] < rank[x]
  }

  lemma ReachRanks(up: Up, rank: map<Id, nat>, a: Id, x: Id)
    requires Ranks(up, rank) && a in rank && x in Reach(up, {a})
    ensures x in rank && (x == a || rank[x] > rank[a])
  {
    var z := {a} + set y | y in rank && rank[y] > rank[a];
    forall y | y in up && up[y] in z ensures y in z {
      assert rank[up[y]] < rank[y];
    }
    ReachLeast(up, {a}, z);
  }

  /** The subtrees of two siblings have nothing in common. */
  lemma SiblingsApart(up: Up, rank: map<Id, nat>, p: Id, c: Id, d: Id)
    requires Ranks(up, rank) && c in up && d in up && up[c] == p && up[d] == p && c != d
    ensures Reach(up, {c}) !! Reach(up, {d})
  {
    if c in Reach(up, {d}) {
      ReachParent(up, {d}, c);
      ReachRanks(up, rank, d, p);
    }
    if d in Reach(up, {c}) {
      ReachParent(up, {c}, d);
      ReachRanks(up, rank, c, p);
    }
    TreesApart(up, c, d);
  }

  lemma SomeOf(s: set<Id>) returns (x: Id)
    requires |s| > 0
    ensures x in s
  {
    if forall y :: y !in s {
      assert false;
    }
    x :| x in s;
  }

  lemma {:induction false} SubtreesApart(up: Up, rank: map<Id, nat>, p: Id, done: set<Id>, c: Id)
    requires Ranks(up, rank) && done + {c} <= Children(up, {p}) && c !in done
    ensures Reach(up, done) !! Reach(up, {c})
    decreases done
  {
    if |done| > 0 {
      var d := SomeOf(done);
      SubtreesApart(up, rank, p, done - {d}, c);
      SiblingsApart(up, rank, p, d, c);
      ReachUnion(up, done - {d}, {d});
      assert done - {d} + {d} == done;
    } else {
      ReachNothing(up, done);
    }
  }

  lemma {:induction false} SetsApart(up: Up, rank: map<Id, nat>, p: Id, done: set<Id>, rest: set<Id>)
    requires Ranks(up, rank) && done + rest <= Children(up, {p}) && done !! rest
    ensures Reach(up, done) !! Reach(up, rest)
    decreases rest
  {
    if |rest| == 0 {
      ReachNothing(up, rest);
    } else {
      var c := SomeOf(rest);
      SubtreesApart(up, rank, p, done, c);
      SetsApart(up, rank, p, done, rest - {c});
      ReachUnion(up, rest - {c}, {c});
      assert rest - {c} + {c} == rest;
    }
  }

  lemma TreesApart(up: Up, a: Id, b: Id)
    requires a !in Reach(up, {b}) && b !in Reach(up, {a})
    ensures Reach(up, {a}) !! Reach(up, {b})
  {
    ReachClosed(up, {a});
    var z := Reach(up, {a}) - Reach(up, {b});
    forall x | x in up && up[x] in z ensures x in z {
      if x in Reach(up, {b}) { ReachParent(up, {b}, x); }
    }
    ReachLeast(up, {a}, z);
  }

  // ---------------------------------------------------------------- the edges of the folder table

  function Parents(fs: Folders): Up {
    map x | x in fs && fs[x].parent.Some? :: fs[x].parent.value
  }

  /** The join over the user's active folders only. */
  function ActiveUp(fs: Folders, user: Id): Up {
    map x | x in fs && Active(fs, x, user) && fs[x].parent.Some? :: fs[x].parent.value
  }

  /** No folder is below itself, and every parent row exists (the foreign key). */
  ghost predicate IsForest(fs: Folders) {
    && (forall x :: x in fs && fs[x].parent.Some? ==> fs[x].parent.value in fs)
    && exists rank :: Ranks(Parents(fs), rank) && fs.Keys <= rank.Keys
  }
}
