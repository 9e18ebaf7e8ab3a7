/** The `useBookmarks` store (src/hooks/useBookmarks.ts) as an object: its state hooks are the fields,
    its callbacks the methods. `uuidv4()` and `Date.now()` are parameters (`newId`, `clock`); the `URL`
    parser is the parameter `parseHost`, which yields the hostname or `None` where `new URL` throws. */
module Store {
  import opened Types
  import opened Seqs
  import opened FolderGraph
  import opened StableSort
  import opened Query
  import opened Records
  import opened Tree

  /** The folders of `generateSampleData`: "root" at the top, "work" and "personal" in it, "dev" and
      "design" in "work". The folders are built first, so folder `k` is created at the `k`-th clock
      reading. */
  function SeedFolders(clock: Clock): (r: seq<Folder>)
    ensures UniqueIds(r)
    ensures |r| == 5 && forall i :: 0 <= i < |r| ==> r[i].createdAt == clock(i) && r[i].order == i
  {
    [ Folder("root", "全部书签", None, true, clock(0), 0),
      Folder("work", "工作", Some("root"), true, clock(1), 1),
      Folder("personal", "个人", Some("root"), false, clock(2), 2),
      Folder("dev", "开发", Some("work"), false, clock(3), 3),
      Folder("design", "设计", Some("work"), false, clock(4), 4) ]
  }

  /** The bookmarks of `generateSampleData`, with the three uuids it draws. They are built after the
      five folders, and each reads the clock twice, for its creation and its update time. */
  function SeedBookmarks(clock: Clock, id1: string, id2: string, id3: string): (r: seq<Bookmark>)
    ensures |r| == 3 && r[0].starred && !r[1].starred && r[2].starred
    ensures forall i :: 0 <= i < |r| ==> r[i].createdAt == clock(5 + 2 * i) && r[i].updatedAt == clock(6 + 2 * i)
  {
    [ Bookmark(id1, "GitHub", "https://github.com", "https://github.com/favicon.ico", "dev", ["工具", "开发"], true, clock(5), clock(6)),
      Bookmark(id2, "Figma", "https://figma.com", "https://figma.com/favicon.ico", "design", ["工具", "设计"], false, clock(7), clock(8)),
      Bookmark(id3, "Stack Overflow", "https://stackoverflow.com", "https://stackoverflow.com/favicon.ico", "dev", ["学习", "参考"], true, clock(9), clock(10)) ]
  }

  /** The favicon service URL `addBookmark` builds from a hostname. */
  function FaviconUrl(host: string): string {
    "https://www.google.com/s2/favicons?domain=" + host
  }

  /** The same service asked for a 64-pixel icon, as `getFavicon` and the add form's site lookup
      build it. */
  function SiteIcon(host: string): string {
    FaviconUrl(host) + "&sz=64"
  }

  /** `getFavicon`: the sized favicon of the url's host, or the empty string when `new URL` throws.
      The result is empty exactly when the url does not parse. */
  function GetFavicon(url: string, parseHost: string -> Option<string>): (r: string)
    ensures r == "" <==> parseHost(url).None?
    ensures parseHost(url).Some? ==> r == SiteIcon(parseHost(url).value)
  {
    match parseHost(url)
    case None => ""
    case Some(host) => SiteIcon(host)
  }

  class BookmarkStore {
    var folders: seq<Folder>
    var bookmarks: seq<Bookmark>
    var selectedFolderId: Option<string>
    var selectedBookmarkIds: seq<string>
    var searchQuery: string
    var isBatchMode: bool

    /** The hook's first render: the saved collections when storage holds any (`None` stands for a
        missing or empty entry), otherwise the fixture; "root" selected, nothing else set. Each of the
        two initializers calls `generateSampleData` itself, so each has its own clock. */
    constructor (savedFolders: Option<seq<Folder>>, savedBookmarks: Option<seq<Bookmark>>,
                 foldersClock: Clock, bookmarksClock: Clock, id1: string, id2: string, id3: string)
      ensures folders == if savedFolders.Some? then savedFolders.value else SeedFolders(foldersClock)
      ensures bookmarks == if savedBookmarks.Some? then savedBookmarks.value else SeedBookmarks(bookmarksClock, id1, id2, id3)
      ensures selectedFolderId == Some(RootId) && selectedBookmarkIds == [] && searchQuery == "" && !isBatchMode
    {
      folders := if savedFolders.Some? then savedFolders.value else SeedFolders(foldersClock);
      bookmarks := if savedBookmarks.Some? then savedBookmarks.value else SeedBookmarks(bookmarksClock, id1, id2, id3);
      selectedFolderId := Some(RootId);
      selectedBookmarkIds := [];
      searchQuery := "";
      isBatchMode := false;
    }

    // -------------------------------------------------------------------------------------------
    // Folder operations

    method ToggleFolderExpanded(id: string)
      modifies this
      ensures folders == ToggleExpanded(old(folders), id)
      ensures bookmarks == old(bookmarks) && selectedFolderId == old(selectedFolderId)
      ensures selectedBookmarkIds == old(selectedBookmarkIds) && searchQuery == old(searchQuery) && isBatchMode == old(isBatchMode)
    {
      folders := ToggleExpanded(folders, id);
    }

    /** Appends one expanded folder whose creation time and `order` are two clock readings, taken in
        that order, and returns its id; a fresh id keeps the folder ids unique. */
    method CreateFolder(name: string, parentId: Option<string>, newId: string, clock: Clock) returns (id: string)
      modifies this
      ensures id == newId
      ensures folders == old(folders) + [Folder(newId, name, parentId, true, clock(0), clock(1))]
      ensures UniqueIds(old(folders)) && newId !in FolderIds(old(folders)) ==> UniqueIds(folders)
      ensures bookmarks == old(bookmarks) && selectedFolderId == old(selectedFolderId)
      ensures selectedBookmarkIds == old(selectedBookmarkIds) && searchQuery == old(searchQuery) && isBatchMode == old(isBatchMode)
    {
      var created := Folder(newId, name, parentId, true, clock(0), clock(1));
      if UniqueIds(folders) && newId !in FolderIds(folders) {
        forall i | 0 <= i < |folders| ensures folders[i].id != newId {
          assert FolderIds(folders)[i] == folders[i].id;
        }
      }
      folders := folders + [created];
      id := newId;
    }

    method RenameFolder(id: string, name: string)
      modifies this
      ensures folders == Rename(old(folders), id, name)
      ensures bookmarks == old(bookmarks) && selectedFolderId == old(selectedFolderId)
      ensures selectedBookmarkIds == old(selectedBookmarkIds) && searchQuery == old(searchQuery) && isBatchMode == old(isBatchMode)
    {
      folders := Rename(folders, id, name);
    }

    /** Re-parents the folder without any check: the result may contain a cycle
        (`Records.MoveUnderChildMakesCycle`). */
    method MoveFolder(id: string, parentId: Option<string>)
      modifies this
      ensures folders == Records.MoveFolder(old(folders), id, parentId)
      ensures bookmarks == old(bookmarks) && selectedFolderId == old(selectedFolderId)
      ensures selectedBookmarkIds == old(selectedBookmarkIds) && searchQuery == old(searchQuery) && isBatchMode == old(isBatchMode)
    {
      folders := Records.MoveFolder(folders, id, parentId);
    }

    /** Removes the folder, its direct children and the bookmarks directly in it. */
    method DeleteFolder(x: string)
      modifies this
      ensures folders == DeleteFolderFolders(old(folders), x)
      ensures bookmarks == DeleteFolderBookmarks(old(bookmarks), x)
      ensures selectedFolderId == old(selectedFolderId)
      ensures selectedBookmarkIds == old(selectedBookmarkIds) && searchQuery == old(searchQuery) && isBatchMode == old(isBatchMode)
    {
      folders := DeleteFolderFolders(folders, x);
      bookmarks := DeleteFolderBookmarks(bookmarks, x);
    }

    // -------------------------------------------------------------------------------------------
    // Bookmark operations

    /** Appends the new bookmark, unstarred, with its creation and update time read from the clock in
        that order; without an icon it takes the
        favicon of the url's host. When there is no icon and the url does not parse, `new URL` throws:
        nothing is added and the result is `None`. */
    method AddBookmark(data: AddBookmarkData, parseHost: string -> Option<string>, newId: string, clock: Clock) returns (r: Option<Bookmark>)
      modifies this
      ensures r.None? <==> data.icon == "" && parseHost(data.url).None?
      ensures r.None? ==> bookmarks == old(bookmarks)
      ensures r.Some? ==> bookmarks == old(bookmarks) + [r.value]
      ensures r.Some? ==>
        var b := r.value;
        b.id == newId && b.title == data.title && b.url == data.url && b.folderId == data.folderId &&
        b.tags == data.tags && !b.starred && b.createdAt == clock(0) && b.updatedAt == clock(1) &&
        b.icon == (if data.icon != "" then data.icon else FaviconUrl(parseHost(data.url).value))
      ensures folders == old(folders) && selectedFolderId == old(selectedFolderId)
      ensures selectedBookmarkIds == old(selectedBookmarkIds) && searchQuery == old(searchQuery) && isBatchMode == old(isBatchMode)
    {
      var icon := data.icon;
      if icon == "" {
        var host := parseHost(data.url);
        if host.None? {
          return None;
        }
        icon := FaviconUrl(host.value);
      }
      var b := Bookmark(newId, data.title, data.url, icon, data.folderId, data.tags, false, clock(0), clock(1));
      bookmarks := bookmarks + [b];
      r := Some(b);
    }

    method UpdateBookmark(id: string, patch: Patch, clock: Clock)
      modifies this
      ensures bookmarks == Records.UpdateBookmark(old(bookmarks), id, patch, clock)
      ensures folders == old(folders) && selectedFolderId == old(selectedFolderId)
      ensures selectedBookmarkIds == old(selectedBookmarkIds) && searchQuery == old(searchQuery) && isBatchMode == old(isBatchMode)
    {
      bookmarks := Records.UpdateBookmark(bookmarks, id, patch, clock);
    }

    /** Removes the listed bookmarks and their ids from the selection. */
    method DeleteBookmark(arg: IdArg)
      modifies this
      ensures bookmarks == DeleteBookmarks(old(bookmarks), Ids(arg))
      ensures selectedBookmarkIds == RemoveIds(old(selectedBookmarkIds), Ids(arg))
      ensures folders == old(folders) && selectedFolderId == old(selectedFolderId)
      ensures searchQuery == old(searchQuery) && isBatchMode == old(isBatchMode)
    {
      var ids := Ids(arg);
      bookmarks := DeleteBookmarks(bookmarks, ids);
      selectedBookmarkIds := RemoveIds(selectedBookmarkIds, ids);
    }

    method MoveBookmark(arg: IdArg, folderId: string, clock: Clock)
      modifies this
      ensures bookmarks == MoveBookmarks(old(bookmarks), Ids(arg), folderId, clock)
      ensures folders == old(folders) && selectedFolderId == old(selectedFolderId)
      ensures selectedBookmarkIds == old(selectedBookmarkIds) && searchQuery == old(searchQuery) && isBatchMode == old(isBatchMode)
    {
      bookmarks := MoveBookmarks(bookmarks, Ids(arg), folderId, clock);
    }

    // -------------------------------------------------------------------------------------------
    // Selection

    method ToggleBookmarkSelection(id: string)
      modifies this
      ensures selectedBookmarkIds == ToggleId(old(selectedBookmarkIds), id)
      ensures folders == old(folders) && bookmarks == old(bookmarks) && selectedFolderId == old(selectedFolderId)
      ensures searchQuery == old(searchQuery) && isBatchMode == old(isBatchMode)
    {
      selectedBookmarkIds := ToggleId(selectedBookmarkIds, id);
    }

    /** Selects the ids of the listed bookmarks, in list order. The list is the one the last render
        computed; when that computation never returns there is no render to act on, and nothing
        changes. */
    method SelectAllBookmarks()
      modifies this
      ensures var listed := Filtered(folders, bookmarks, selectedFolderId, searchQuery);
        selectedBookmarkIds == if listed.Some? then BookmarkIds(listed.value) else old(selectedBookmarkIds)
      ensures folders == old(folders) && bookmarks == old(bookmarks) && selectedFolderId == old(selectedFolderId)
      ensures searchQuery == old(searchQuery) && isBatchMode == old(isBatchMode)
    {
      var listed := Filtered(folders, bookmarks, selectedFolderId, searchQuery);
      if listed.Some? {
        selectedBookmarkIds := BookmarkIds(listed.value);
      }
    }

    method ClearSelection()
      modifies this
      ensures selectedBookmarkIds == [] && !isBatchMode
      ensures folders == old(folders) && bookmarks == old(bookmarks) && selectedFolderId == old(selectedFolderId)
      ensures searchQuery == old(searchQuery)
    {
      selectedBookmarkIds := [];
      isBatchMode := false;
    }

    /** Flips batch mode; leaving it also clears the selection. */
    method ToggleBatchMode()
      modifies this
      ensures isBatchMode == !old(isBatchMode)
      ensures selectedBookmarkIds == if old(isBatchMode) then [] else old(selectedBookmarkIds)
      ensures folders == old(folders) && bookmarks == old(bookmarks) && selectedFolderId == old(selectedFolderId)
      ensures searchQuery == old(searchQuery)
    {
      if isBatchMode {
        ClearSelection();
      } else {
        isBatchMode := true;
      }
    }

    method SetSelectedFolderId(id: Option<string>)
      modifies this
      ensures selectedFolderId == id
      ensures folders == old(folders) && bookmarks == old(bookmarks) && selectedBookmarkIds == old(selectedBookmarkIds)
      ensures searchQuery == old(searchQuery) && isBatchMode == old(isBatchMode)
    {
      selectedFolderId := id;
    }

    method SetSearchQuery(query: string)
      modifies this
      ensures searchQuery == query
      ensures folders == old(folders) && bookmarks == old(bookmarks) && selectedBookmarkIds == old(selectedBookmarkIds)
      ensures selectedFolderId == old(selectedFolderId) && isBatchMode == old(isBatchMode)
    {
      searchQuery := query;
    }

    // -------------------------------------------------------------------------------------------
    // Derived values

    /** `filteredBookmarks`: grows the id set through `addChildren`, filters, and sorts `result` in
        place. With neither filter applied `result` is the state array, so the state itself ends up
        sorted. `None` when the scope recursion never returns. */
    method FilteredBookmarks() returns (r: Option<seq<Bookmark>>)
      modifies this
      ensures r == Filtered(old(folders), old(bookmarks), selectedFolderId, searchQuery)
      ensures bookmarks == if SortsStateInPlace(selectedFolderId, searchQuery) then SortBookmarks(old(bookmarks)) else old(bookmarks)
      ensures folders == old(folders) && selectedFolderId == old(selectedFolderId)
      ensures selectedBookmarkIds == old(selectedBookmarkIds) && searchQuery == old(searchQuery) && isBatchMode == old(isBatchMode)
    {
      var result := bookmarks;
      if !ScopeSkipped(selectedFolderId) {
        var p := selectedFolderId.value;
        var ids := CollectChildren(folders, p, |folders| + 1, {p});
        if ids.None? {
          return None;
        }
        result := Filter(result, InFolders(ids.value));
      }
      if searchQuery != "" {
        result := Search(result, searchQuery);
      }
      result := SortBookmarks(result);
      if SortsStateInPlace(selectedFolderId, searchQuery) {
        bookmarks := result;
      }
      r := Some(result);
    }

    /** `folderTree`. */
    function FolderTreeNow(): Option<seq<TreeNode>>
      reads this
    {
      FolderTree(folders)
    }
  }

  /** A cycle reachable from a folder is reachable from every node above that folder. */
  lemma CycleBelowLifts(folders: seq<Folder>, u: Option<string>, pre: seq<int>)
    requires IsChain(folders, u, pre) && |pre| > 0
    requires ReachesCycle(folders, Some(folders[pre[|pre| - 1]].id))
    ensures ReachesCycle(folders, u)
  {
    var cs, i, j :| IsChain(folders, Some(folders[pre[|pre| - 1]].id), cs) && 0 <= i < j < |cs| && cs[i] == cs[j];
    ChainAppend(folders, u, pre, cs);
    var all := pre + cs;
    assert all[|pre| + i] == all[|pre| + j];
    assert IsChain(folders, u, all) && HasRepeat(all);
  }

  /** With unique ids, no cycle is reachable from a folder whose ancestors end at the top level. */
  lemma NoCycleBelowTop(folders: seq<Folder>, pre: seq<int>)
    requires UniqueIds(folders) && IsChain(folders, None, pre) && |pre| > 0
    ensures !ReachesCycle(folders, Some(folders[pre[|pre| - 1]].id))
  {
    if ReachesCycle(folders, Some(folders[pre[|pre| - 1]].id)) {
      CycleBelowLifts(folders, None, pre);
      UniqueIdsNoCycleFromTop(folders);
    }
  }

  /** In the fixture, the walk down from "work" returns and reaches "dev" and "design". */
  lemma SeedWorkIds(clock: Clock)
    ensures ScopeIds(SeedFolders(clock), "work").Some?
    ensures "dev" in ScopeIds(SeedFolders(clock), "work").value
    ensures "design" in ScopeIds(SeedFolders(clock), "work").value
  {
    var fs := SeedFolders(clock);
    assert IsChain(fs, None, [0, 1]);
    NoCycleBelowTop(fs, [0, 1]);
    ScopeIdsSpec(fs, "work");
    assert IsChain(fs, Some("work"), [3]);
    assert IsChain(fs, Some("work"), [4]);
  }

  /** In the fixture, "work" has "dev" and "design" below it, so every bookmark of the fixture is in
      its scope. */
  lemma SeedWorkScope(fc: Clock, bc: Clock, id1: string, id2: string, id3: string)
    ensures Scope(SeedFolders(fc), SeedBookmarks(bc, id1, id2, id3), Some("work")) == Some(SeedBookmarks(bc, id1, id2, id3))
  {
    var bs := SeedBookmarks(bc, id1, id2, id3);
    SeedWorkIds(fc);
    var ids := ScopeIds(SeedFolders(fc), "work").value;
    assert bs[0].folderId == "dev" && bs[1].folderId == "design" && bs[2].folderId == "dev";
    forall b | b in bs ensures InFolders(ids)(b) {
      var k :| 0 <= k < 3 && bs[k] == b;
    }
    FilterAll(bs, InFolders(ids));
  }

  /** The fixture sorts the two starred bookmarks first and Figma last. GitHub comes before Stack
      Overflow exactly when its update time, read earlier, is not less than Stack Overflow's: on a tie
      the stable sort keeps their order, but once the clock has moved on between the two readings
      Stack Overflow, the later one, comes first. */
  lemma SeedSorted(clock: Clock, id1: string, id2: string, id3: string)
    ensures var bs := SeedBookmarks(clock, id1, id2, id3);
      SortBookmarks(bs) == if clock(6) >= clock(10) then [bs[0], bs[2], bs[1]] else [bs[2], bs[0], bs[1]]
  {
    var bs := SeedBookmarks(clock, id1, id2, id3);
    assert bs[..1] == [bs[0]];
    assert bs[..2] == [bs[0], bs[1]];
    assert SortBy(bs[..1], BookmarkKey) == [bs[0]];
    assert SortBy(bs[..2], BookmarkKey) == [bs[0], bs[1]];
    if clock(6) >= clock(10) {
      assert Insert([bs[0]], bs[2], BookmarkKey) == [bs[0], bs[2]];
    } else {
      assert Insert([bs[0]], bs[2], BookmarkKey) == [bs[2], bs[0]];
    }
  }

  /** Selecting "work" in the fixture lists all three bookmarks, those in "dev" and in "design"
      below it: the two starred ones first, GitHub ahead of Stack Overflow exactly when its update
      time is not the earlier one, then Figma. */
  lemma SeedWorkScenario(fc: Clock, bc: Clock, id1: string, id2: string, id3: string)
    ensures var bs := SeedBookmarks(bc, id1, id2, id3);
      Filtered(SeedFolders(fc), bs, Some("work"), "") ==
        Some(if bc(6) >= bc(10) then [bs[0], bs[2], bs[1]] else [bs[2], bs[0], bs[1]])
  {
    SeedWorkScope(fc, bc, id1, id2, id3);
    SeedSorted(bc, id1, id2, id3);
  }
}
