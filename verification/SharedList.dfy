/** The dual-cursor listing of shared items. */
module SharedList {
  // A page of `listShared` (backend/src/folder/folder.service.ts) carries folders and files, and the cursor
  // of one list carries the progress of the other.

  import opened Wrappers

  type Id = nat

  /** `f`: last folder seen; `fc`: last file seen; `fd`: all files seen. */
  datatype Cursor = Cursor(f: Option<Id>, fc: Option<Id>, fd: bool)

  const FIRST_PAGE := Cursor(None, None, false)

  datatype Page = Page(folders: seq<Id>, files: seq<Id>, nextFolder: Option<Cursor>, nextFile: Option<Cursor>)

  function IndexOf(list: seq<Id>, x: Id): (i: nat)
    ensures i <= |list| && (i < |list| ==> list[i] == x)
  {
    if |list| == 0 || list[0] == x then 0 else 1 + IndexOf(list[1..], x)
  }

  /** `findMany` with a cursor row skipped; a cursor that is not in the result set yields nothing. */
  function Rows(list: seq<Id>, cursor: Option<Id>, take: nat): seq<Id> {
    var rest :=
      if cursor.None? then list
      else
        var i := IndexOf(list, cursor.value);
        if i == |list| then [] else list[i + 1..];
    if |rest| <= take then rest else rest[..take]
  }

  /** One row more than the page holds is asked for, to see whether there is a next page. */
  datatype Fetched = Fetched(items: seq<Id>, hasNext: bool)

  function Fetch(list: seq<Id>, cursor: Option<Id>, limit: nat): Fetched {
    var rows := Rows(list, cursor, limit + 1);
    if |rows| > limit then Fetched(rows[..|rows| - 1], true) else Fetched(rows, false)
  }

  /** The cursor behind the items of a page that has a next one. */
  function LastItem(r: Fetched): Option<Id> {
    if |r.items| == 0 then None else Some(r.items[|r.items| - 1])
  }

  /** `listShared` over the rows of the two queries, each in its sort order. */
  function ListShared(allFolders: seq<Id>, allFiles: seq<Id>, limit: nat, cursor: Cursor): Page
    requires limit >= 1
  {
    var isQueryNextFile := cursor.fc.Some? && cursor.f.None?;
    var isQueryNextFolder := cursor.f.Some?;
    var folders := if isQueryNextFile then Fetched([], false) else Fetch(allFolders, cursor.f, limit);
    var shouldFetchFiles := !cursor.fd && (!isQueryNextFolder || !folders.hasNext);
    var files := if shouldFetchFiles then Fetch(allFiles, cursor.fc, limit) else Fetched([], false);
    var carriedFileCursor :=
      if shouldFetchFiles then if files.hasNext then LastItem(files) else None
      else cursor.fc;
    var filesDone := if shouldFetchFiles then !files.hasNext else cursor.fd;
    var nextFolder :=
      if folders.hasNext then Some(Cursor(LastItem(folders), carriedFileCursor, filesDone)) else None;
    var nextFile :=
      if files.hasNext then Some(Cursor(None, carriedFileCursor, false))
      else if !shouldFetchFiles && cursor.fc.Some? then Some(Cursor(None, cursor.fc, false))
      else None;
    Page(folders.items, files.items, nextFolder, nextFile)
  }

  // ---------------------------------------------------------------- what a cursor stands for

  predicate Distinct(list: seq<Id>) {
    forall i, j :: 0 <= i < j < |list| ==> list[i] != list[j]
  }

  function Least(m: nat, n: nat): nat {
    if m < n then m else n
  }

  lemma {:induction false} IndexAt(list: seq<Id>, i: nat)
    requires Distinct(list) && i < |list|
    ensures IndexOf(list, list[i]) == i
  {
    if i > 0 {
      assert list[0] != list[i];
      IndexAt(list[1..], i - 1);
    }
  }

  /** The last of the first `n` rows as a cursor; none before the first row. */
  function Last(list: seq<Id>, n: nat): Option<Id>
    requires n <= |list|
  {
    if n == 0 then None else Some(list[n - 1])
  }

  lemma RowsAfter(list: seq<Id>, n: nat, take: nat)
    requires Distinct(list) && n <= |list|
    ensures Rows(list, Last(list, n), take) == list[n..Least(n + take, |list|)]
  {
    if n > 0 {
      IndexAt(list, n - 1);
      assert IndexOf(list, Last(list, n).value) + 1 == n;
    }
  }

  /** A page fetched after the first `n` rows. */
  lemma FetchAfter(list: seq<Id>, n: nat, limit: nat)
    requires Distinct(list) && n <= |list| && limit >= 1
    ensures var m := Least(n + limit, |list|);
      && Fetch(list, Last(list, n), limit) == Fetched(list[n..m], m < |list|)
      && (m < |list| ==> LastItem(Fetch(list, Last(list, n), limit)) == Last(list, m))
  {
    RowsAfter(list, n, limit + 1);
    if n + limit < |list| { WithoutProbe(list, n, limit); }
  }

  /** Dropping the row that was asked for in excess. */
  lemma WithoutProbe(list: seq<Id>, n: nat, limit: nat)
    requires limit >= 1 && n + limit < |list|
    ensures var rows := list[n..n + limit + 1];
      |rows| == limit + 1 && rows[..limit] == list[n..n + limit] && rows[..limit][limit - 1] == list[n + limit - 1]
  {
  }

  /** Mid-way: `i` folders and `j` files have been delivered, and more folders are to come. */
  function FolderCursor(folders: seq<Id>, files: seq<Id>, i: nat, j: nat): Cursor
    requires i <= |folders| && j <= |files|
  {
    Cursor(Last(folders, i), if j == |files| then None else Last(files, j), j == |files|)
  }

  /** All folders and `j` files have been delivered. */
  function FileCursor(files: seq<Id>, j: nat): Cursor
    requires j <= |files|
  {
    Cursor(None, Last(files, j), false)
  }

  /** The next cursors after `i` folders and `j` files. */
  function NextFolder(folders: seq<Id>, files: seq<Id>, i: nat, j: nat): Option<Cursor>
    requires i <= |folders| && j <= |files|
  {
    if i == |folders| then None else Some(FolderCursor(folders, files, i, j))
  }

  function NextFile(files: seq<Id>, j: nat): Option<Cursor>
    requires j <= |files|
  {
    if j == |files| then None else Some(FileCursor(files, j))
  }

  /** The first page delivers the front of both lists. */
  lemma FirstPage(folders: seq<Id>, files: seq<Id>, limit: nat)
    requires Distinct(folders) && Distinct(files) && limit >= 1
    ensures var i, j := Least(limit, |folders|), Least(limit, |files|);
      ListShared(folders, files, limit, FIRST_PAGE)
        == Page(folders[..i], files[..j], NextFolder(folders, files, i, j), NextFile(files, j))
  {
    FetchAfter(folders, 0, limit);
    FetchAfter(files, 0, limit);
  }

  /** A page in the middle of the folders delivers the next of them, and carries the file progress. */
  lemma FolderPage(folders: seq<Id>, files: seq<Id>, limit: nat, i: nat, j: nat)
    requires Distinct(folders) && limit >= 1
    requires 0 < i && i + limit < |folders| && j <= |files| && (j > 0 || |files| == 0)
    ensures ListShared(folders, files, limit, FolderCursor(folders, files, i, j))
      == Page(folders[i..i + limit], [], NextFolder(folders, files, i + limit, j), NextFile(files, j))
  {
    FetchAfter(folders, i, limit);
  }

  /** The last folder page goes on with the files. */
  lemma LastFolderPage(folders: seq<Id>, files: seq<Id>, limit: nat, i: nat, j: nat)
    requires Distinct(folders) && Distinct(files) && limit >= 1
    requires 0 < i < |folders| <= i + limit && j <= |files| && (j > 0 || |files| == 0)
    ensures var j1 := Least(j + limit, |files|);
      ListShared(folders, files, limit, FolderCursor(folders, files, i, j))
        == Page(folders[i..], files[j..j1], None, NextFile(files, j1))
  {
    FetchAfter(folders, i, limit);
    FetchAfter(files, j, limit);
  }

  /** A page behind the folders delivers the next files. */
  lemma FilePage(folders: seq<Id>, files: seq<Id>, limit: nat, j: nat)
    requires Distinct(files) && limit >= 1 && 0 < j < |files|
    ensures var j1 := Least(j + limit, |files|);
      ListShared(folders, files, limit, FileCursor(files, j)) == Page([], files[j..j1], None, NextFile(files, j1))
  {
    FetchAfter(files, j, limit);
  }

  // ---------------------------------------------------------------- complete enumeration

  /** What a walk has delivered: the fronts of both lists, with the cursors that belong there. */
  predicate Delivered(folders: seq<Id>, files: seq<Id>, page: Page, i: nat, j: nat) {
    && i <= |folders| && j <= |files|
    && (i > 0 || |folders| == 0) && (j > 0 || |files| == 0)
    && page.nextFolder == NextFolder(folders, files, i, j) && page.nextFile == NextFile(files, j)
  }

  lemma FrontGrows(list: seq<Id>, i: nat, m: nat)
    requires i <= m <= |list|
    ensures list[..m] == list[..i] + list[i..m] && |list[i..m]| == m - i
  {
  }

  /** The page that follows in a walk: it extends what was delivered. */
  predicate Extends(folders: seq<Id>, files: seq<Id>, next: Page, i: nat, j: nat) {
    var i1, j1 := i + |next.folders|, j + |next.files|;
    && Delivered(folders, files, next, i1, j1)
    && folders[..i1] == folders[..i] + next.folders && files[..j1] == files[..j] + next.files
  }

  /** One more page behind the folder cursor. */
  lemma NextFolderPage(folders: seq<Id>, files: seq<Id>, limit: nat, i: nat, j: nat)
    requires Distinct(folders) && Distinct(files) && limit >= 1
    requires 0 < i < |folders| && j <= |files| && (j > 0 || |files| == 0)
    ensures var next := ListShared(folders, files, limit, FolderCursor(folders, files, i, j));
      |next.folders| > 0 && Extends(folders, files, next, i, j)
  {
    if i + limit < |folders| {
      InnerFolderPage(folders, files, limit, i, j);
    } else {
      FinalFolderPage(folders, files, limit, i, j);
    }
  }

  lemma InnerFolderPage(folders: seq<Id>, files: seq<Id>, limit: nat, i: nat, j: nat)
    requires Distinct(folders) && limit >= 1
    requires 0 < i && i + limit < |folders| && j <= |files| && (j > 0 || |files| == 0)
    ensures var next := ListShared(folders, files, limit, FolderCursor(folders, files, i, j));
      |next.folders| > 0 && Extends(folders, files, next, i, j)
  {
    FolderPage(folders, files, limit, i, j);
    PageExtends(folders, files, ListShared(folders, files, limit, FolderCursor(folders, files, i, j)), i, j,
                i + limit, j);
  }

  lemma FinalFolderPage(folders: seq<Id>, files: seq<Id>, limit: nat, i: nat, j: nat)
    requires Distinct(folders) && Distinct(files) && limit >= 1
    requires 0 < i < |folders| <= i + limit && j <= |files| && (j > 0 || |files| == 0)
    ensures var next := ListShared(folders, files, limit, FolderCursor(folders, files, i, j));
      |next.folders| > 0 && Extends(folders, files, next, i, j)
  {
    LastFolderPage(folders, files, limit, i, j);
    PageExtends(folders, files, ListShared(folders, files, limit, FolderCursor(folders, files, i, j)), i, j,
                |folders|, Least(j + limit, |files|));
  }

  lemma PageExtends(folders: seq<Id>, files: seq<Id>, next: Page, i: nat, j: nat, i1: nat, j1: nat)
    requires i <= i1 <= |folders| && j <= j1 <= |files| && (i1 > 0 || |folders| == 0) && (j1 > 0 || |files| == 0)
    requires next == Page(folders[i..i1], files[j..j1], NextFolder(folders, files, i1, j1), NextFile(files, j1))
    ensures Extends(folders, files, next, i, j)
  {
    FrontGrows(folders, i, i1);
    FrontGrows(files, j, j1);
  }

  lemma NextFilePage(folders: seq<Id>, files: seq<Id>, limit: nat, j: nat)
    requires Distinct(files) && limit >= 1 && 0 < j < |files|
    ensures var next := ListShared(folders, files, limit, FileCursor(files, j));
      |next.files| > 0 && next.folders == [] && Extends(folders, files, next, |folders|, j)
  {
    var next := ListShared(folders, files, limit, FileCursor(files, j));
    FilePage(folders, files, limit, j);
    assert folders[|folders|..|folders|] == [];
    PageExtends(folders, files, next, |folders|, j, |folders|, Least(j + limit, |files|));
  }

  predicate Fronts(folders: seq<Id>, files: seq<Id>, page: Page, gotFolders: seq<Id>, gotFiles: seq<Id>) {
    Delivered(folders, files, page, |gotFolders|, |gotFiles|) && gotFolders <= folders && gotFiles <= files
  }

  lemma FrontsGrow(folders: seq<Id>, files: seq<Id>, next: Page, gotFolders: seq<Id>, gotFiles: seq<Id>)
    requires gotFolders <= folders && gotFiles <= files && Extends(folders, files, next, |gotFolders|, |gotFiles|)
    ensures Fronts(folders, files, next, gotFolders + next.folders, gotFiles + next.files)
  {
    assert gotFolders == folders[..|gotFolders|] && gotFiles == files[..|gotFiles|];
  }

  /**
   Following the folder cursor until there is none, and then the file cursor until there is none,
   terminates and delivers every folder and every file exactly once, in order.
   */
  method FollowCursors(folders: seq<Id>, files: seq<Id>, limit: nat) returns (gotFolders: seq<Id>, gotFiles: seq<Id>)
    requires Distinct(folders) && Distinct(files) && limit >= 1
    ensures gotFolders == folders && gotFiles == files
  {
    FirstPage(folders, files, limit);
    var page := ListShared(folders, files, limit, FIRST_PAGE);
    gotFolders, gotFiles, page := FollowFolders(folders, files, limit, page);
    gotFiles := FollowFiles(folders, files, limit, page, gotFiles);
  }

  method FollowFolders(folders: seq<Id>, files: seq<Id>, limit: nat, first: Page)
    returns (gotFolders: seq<Id>, gotFiles: seq<Id>, page: Page)
    requires Distinct(folders) && Distinct(files) && limit >= 1
    requires Fronts(folders, files, first, first.folders, first.files)
    ensures gotFolders == folders && Fronts(folders, files, page, folders, gotFiles)
  {
    gotFolders, gotFiles, page := first.folders, first.files, first;
    while page.nextFolder.Some?
      invariant Fronts(folders, files, page, gotFolders, gotFiles)
      decreases |folders| - |gotFolders|
    {
      NextFolderPage(folders, files, limit, |gotFolders|, |gotFiles|);
      page := ListShared(folders, files, limit, page.nextFolder.value);
      FrontsGrow(folders, files, page, gotFolders, gotFiles);
      gotFolders, gotFiles := gotFolders + page.folders, gotFiles + page.files;
    }
  }

  method FollowFiles(
    folders: seq<Id>, files: seq<Id>, limit: nat, first: Page, got: seq<Id>) returns (gotFiles: seq<Id>)
    requires Distinct(files) && limit >= 1 && got <= files && Delivered(folders, files, first, |folders|, |got|)
    ensures gotFiles == files
  {
    gotFiles := got;
    var page := first;
    while page.nextFile.Some?
      invariant Fronts(folders, files, page, folders, gotFiles)
      decreases |files| - |gotFiles|
    {
      NextFilePage(folders, files, limit, |gotFiles|);
      page := ListShared(folders, files, limit, page.nextFile.value);
      FrontsGrow(folders, files, page, folders, gotFiles);
      assert folders + page.folders == folders;
      gotFiles := gotFiles + page.files;
    }
  }
}
