/** The page component (src/App.tsx): its own state (view mode, batch modes, the folder selection),
    the handlers that combine it with the store, and the values it derives from the store. */
module App {
  import opened Types
  import opened Seqs
  import opened StableSort
  import opened StringOrder
  import opened Query
  import opened Records
  import opened Store
  import opened Theme

  /** `viewMode`. */
  datatype ViewMode = All | Starred

  /** `displayBookmarks`: in the starred view only the starred bookmarks of the list, in order. */
  function DisplayBookmarks(filtered: seq<Bookmark>, mode: ViewMode): (r: seq<Bookmark>)
    ensures mode == All ==> r == filtered
    ensures mode == Starred ==> forall b :: b in r <==> b in filtered && b.starred
  {
    if mode == Starred then Filter(filtered, (b: Bookmark) => b.starred) else filtered
  }

  /** The starred view keeps each starred bookmark as often as the list has it, and drops the rest. */
  lemma DisplayBookmarksCounts(filtered: seq<Bookmark>)
    ensures forall b :: multiset(DisplayBookmarks(filtered, Starred))[b] == if b.starred then multiset(filtered)[b] else 0
  {
    FilterMultiset(filtered, (b: Bookmark) => b.starred);
  }

  /** On a list where the starred bookmarks come first, as the store's sort leaves it, the starred
      view is a prefix of the list. */
  lemma {:induction false} StarredViewIsPrefix(filtered: seq<Bookmark>)
    requires forall i, j :: 0 <= i < j < |filtered| && filtered[j].starred ==> filtered[i].starred
    ensures var r := DisplayBookmarks(filtered, Starred); r == filtered[..|r|]
    decreases |filtered|
  {
    var starred := (b: Bookmark) => b.starred;
    if filtered != [] {
      if filtered[0].starred {
        StarredViewIsPrefix(filtered[1..]);
      } else {
        assert forall b :: b in filtered ==> !b.starred;
        forall b ensures multiset(Filter(filtered, starred))[b] == 0 {
          assert b !in Filter(filtered, starred);
        }
        assert multiset(Filter(filtered, starred)) == multiset{};
      }
    }
  }

  /** The starred view of the store's list is a prefix of it. */
  lemma StarredViewOfListing(folders: seq<Folder>, bookmarks: seq<Bookmark>, selected: Option<string>, query: string)
    requires Filtered(folders, bookmarks, selected, query).Some?
    ensures var listed := Filtered(folders, bookmarks, selected, query).value;
      var r := DisplayBookmarks(listed, Starred);
      r == listed[..|r|]
  {
    match Scope(folders, bookmarks, selected)
    case Some(scoped) =>
      SortBookmarksSpec(Search(scoped, query));
      StarredViewIsPrefix(SortBookmarks(Search(scoped, query)));
  }

  /** `bookmarks.find(b => b.id === id)`, as the position of the first match. */
  function Find(bookmarks: seq<Bookmark>, id: string): (r: Option<nat>)
    ensures r.Some? ==>
      r.value < |bookmarks| && bookmarks[r.value].id == id && forall j :: 0 <= j < r.value ==> bookmarks[j].id != id
    ensures r.None? ==> forall j :: 0 <= j < |bookmarks| ==> bookmarks[j].id != id
    decreases |bookmarks|
  {
    if bookmarks == [] then None
    else if bookmarks[0].id == id then Some(0)
    else match Find(bookmarks[1..], id)
      case None => None
      case Some(k) => Some(k + 1)
  }

  /** The bookmarks after `toggleStar(id)`: every bookmark with the id gets the opposite of the first
      one's `starred` and a fresh update time; an unknown id changes nothing. */
  function StarToggled(bookmarks: seq<Bookmark>, id: string, clock: Clock): seq<Bookmark> {
    match Find(bookmarks, id)
    case None => bookmarks
    case Some(i) => Records.UpdateBookmark(bookmarks, id, NoChange.(starred := Some(!bookmarks[i].starred)), clock)
  }

  /** No two bookmarks share an id, as fresh uuids guarantee. */
  predicate UniqueBookmarkIds(bookmarks: seq<Bookmark>) {
    forall i, j :: 0 <= i < |bookmarks| && 0 <= j < |bookmarks| && i != j ==> bookmarks[i].id != bookmarks[j].id
  }

  /** Starring flips only the flag and the update time of the bookmark with the id; with unique ids,
      starring twice gives back every flag. */
  lemma StarToggledSpec(bookmarks: seq<Bookmark>, id: string, c1: Clock, c2: Clock)
    ensures var r := StarToggled(bookmarks, id, c1);
      |r| == |bookmarks| &&
      forall i :: 0 <= i < |r| ==>
        if bookmarks[i].id == id then r[i].(starred := bookmarks[i].starred, updatedAt := bookmarks[i].updatedAt) == bookmarks[i]
        else r[i] == bookmarks[i]
    ensures UniqueBookmarkIds(bookmarks) ==>
      forall i :: 0 <= i < |bookmarks| && bookmarks[i].id == id ==> StarToggled(bookmarks, id, c1)[i].starred != bookmarks[i].starred
    ensures UniqueBookmarkIds(bookmarks) ==>
      var twice := StarToggled(StarToggled(bookmarks, id, c1), id, c2);
      |twice| == |bookmarks| && forall i :: 0 <= i < |twice| ==> twice[i].starred == bookmarks[i].starred
  {
    var once := StarToggled(bookmarks, id, c1);
    assert forall i :: 0 <= i < |once| ==> once[i].id == bookmarks[i].id;
    if UniqueBookmarkIds(bookmarks) {
      match Find(bookmarks, id)
      case None =>
      case Some(k) =>
        assert Find(once, id) == Some(k);
    }
  }

  /** Deleting the folders of `xs` and then one more is deleting the folders of `xs + [x]`. */
  lemma {:induction false} DeleteAllSnoc(folders: seq<Folder>, bookmarks: seq<Bookmark>, xs: seq<string>, x: string)
    ensures DeleteFoldersAll(folders, xs + [x]) == DeleteFolderFolders(DeleteFoldersAll(folders, xs), x)
    ensures DeleteBookmarksAll(bookmarks, xs + [x]) == DeleteFolderBookmarks(DeleteBookmarksAll(bookmarks, xs), x)
    decreases |xs|
  {
    if xs == [] {
      assert DeleteFoldersAll(DeleteFolderFolders(folders, x), []) == DeleteFolderFolders(folders, x);
      assert DeleteBookmarksAll(DeleteFolderBookmarks(bookmarks, x), []) == DeleteFolderBookmarks(bookmarks, x);
      assert [] + [x] == [x];
      assert [x][1..] == [];
    } else {
      assert (xs + [x])[0] == xs[0] && (xs + [x])[1..] == xs[1..] + [x];
      DeleteAllSnoc(DeleteFolderFolders(folders, xs[0]), DeleteFolderBookmarks(bookmarks, xs[0]), xs[1..], x);
    }
  }

  /** Clicking a tag chip searches for `tag:` and the tag: every bookmark in scope that carries the
      tag is still listed. */
  lemma TagClickKeepsTagged(folders: seq<Folder>, bookmarks: seq<Bookmark>, selected: Option<string>, tag: string, b: Bookmark)
    requires Scope(folders, bookmarks, selected).Some?
    requires b in Scope(folders, bookmarks, selected).value && tag in b.tags
    ensures Filtered(folders, bookmarks, selected, "tag:" + tag).Some?
    ensures b in Filtered(folders, bookmarks, selected, "tag:" + tag).value
  {
    var scoped := Scope(folders, bookmarks, selected).value;
    TagQueryKeepsTagged(scoped, tag, b);
    SortBookmarksSpec(Search(scoped, "tag:" + tag));
    assert b in multiset(Search(scoped, "tag:" + tag));
  }

  /** `allTags`: the `Set` filled in a `forEach` over the bookmarks and their tags, then sorted. The
      result holds every tag of every bookmark once, in increasing order. */
  method AllTags(bookmarks: seq<Bookmark>) returns (tags: seq<string>)
    ensures StrictlySorted(tags)
    ensures forall t :: t in tags <==> exists b :: b in bookmarks && t in b.tags
  {
    var seen: seq<string> := [];
    for i := 0 to |bookmarks|
      invariant Distinct(seen)
      invariant forall t :: t in seen <==> exists j :: 0 <= j < i && t in bookmarks[j].tags
    {
      var ts := bookmarks[i].tags;
      for k := 0 to |ts|
        invariant Distinct(seen)
        invariant forall t :: t in seen <==> (exists j :: 0 <= j < i && t in bookmarks[j].tags) || t in ts[..k]
      {
        assert ts[..k + 1] == ts[..k] + [ts[k]];
        if ts[k] !in seen {
          seen := seen + [ts[k]];
        }
      }
      assert ts[..|ts|] == ts;
    }
    SortStringsCorrect(seen);
    tags := SortStrings(seen);
    forall t ensures t in tags <==> t in seen {
      assert t in tags <==> t in multiset(tags);
    }
  }

  /** Whatever order the bookmarks come in, the tag chips are the same: two results of `AllTags` for
      the same bookmarks in any order are equal. */
  lemma AllTagsOrderFree(bs1: seq<Bookmark>, bs2: seq<Bookmark>, tags1: seq<string>, tags2: seq<string>)
    requires multiset(bs1) == multiset(bs2)
    requires StrictlySorted(tags1) && forall t :: t in tags1 <==> exists b :: b in bs1 && t in b.tags
    requires StrictlySorted(tags2) && forall t :: t in tags2 <==> exists b :: b in bs2 && t in b.tags
    ensures tags1 == tags2
  {
    forall b ensures b in bs1 <==> b in bs2 {
      assert b in bs1 <==> b in multiset(bs1);
      assert b in bs2 <==> b in multiset(bs2);
    }
    SortedUnique(tags1, tags2);
  }

  /** The page component. */
  class AppComponent {
    const store: BookmarkStore
    const theme: ThemeState
    var isSidebarOpen: bool
    var isBatchMode: bool
    var isFolderBatchMode: bool
    var selectedFolderIds: seq<string>
    var viewMode: ViewMode

    constructor (store: BookmarkStore, theme: ThemeState)
      ensures this.store == store && this.theme == theme
      ensures isSidebarOpen && !isBatchMode && !isFolderBatchMode && selectedFolderIds == [] && viewMode == All
    {
      this.store := store;
      this.theme := theme;
      isSidebarOpen := true;
      isBatchMode := false;
      isFolderBatchMode := false;
      selectedFolderIds := [];
      viewMode := All;
    }

    /** `toggleStar`. */
    method ToggleStar(id: string, clock: Clock)
      modifies store
      ensures store.bookmarks == StarToggled(old(store.bookmarks), id, clock)
      ensures store.folders == old(store.folders) && store.selectedBookmarkIds == old(store.selectedBookmarkIds)
      ensures store.selectedFolderId == old(store.selectedFolderId) && store.searchQuery == old(store.searchQuery)
      ensures store.isBatchMode == old(store.isBatchMode)
    {
      var found := Find(store.bookmarks, id);
      if found.Some? {
        store.UpdateBookmark(id, NoChange.(starred := Some(!store.bookmarks[found.value].starred)), clock);
      }
    }

    /** `handleBatchDelete`: with nothing selected only a message appears; otherwise the selected
        bookmarks go, the selection is cleared and both batch modes end. */
    method HandleBatchDelete()
      modifies this, store
      ensures old(store.selectedBookmarkIds) == [] ==>
        store.bookmarks == old(store.bookmarks) && store.selectedBookmarkIds == [] &&
        isBatchMode == old(isBatchMode) && store.isBatchMode == old(store.isBatchMode)
      ensures old(store.selectedBookmarkIds) != [] ==>
        store.bookmarks == DeleteBookmarks(old(store.bookmarks), old(store.selectedBookmarkIds)) &&
        store.selectedBookmarkIds == [] && !isBatchMode && !store.isBatchMode
      ensures store.folders == old(store.folders) && store.selectedFolderId == old(store.selectedFolderId)
      ensures store.searchQuery == old(store.searchQuery)
      ensures selectedFolderIds == old(selectedFolderIds) && isFolderBatchMode == old(isFolderBatchMode)
      ensures viewMode == old(viewMode) && isSidebarOpen == old(isSidebarOpen)
    {
      if |store.selectedBookmarkIds| == 0 {
        return;
      }
      store.DeleteBookmark(Many(store.selectedBookmarkIds));
      isBatchMode := false;
      store.ClearSelection();
    }

    /** `handleToggleFolderSelection`. */
    method HandleToggleFolderSelection(id: string)
      modifies this
      ensures selectedFolderIds == ToggleId(old(selectedFolderIds), id)
      ensures isBatchMode == old(isBatchMode) && isFolderBatchMode == old(isFolderBatchMode)
      ensures viewMode == old(viewMode) && isSidebarOpen == old(isSidebarOpen)
    {
      selectedFolderIds := ToggleId(selectedFolderIds, id);
    }

    /** `handleSelectAllFolders`: every folder id, in collection order. */
    method HandleSelectAllFolders()
      modifies this
      ensures selectedFolderIds == FolderIds(store.folders)
      ensures isBatchMode == old(isBatchMode) && isFolderBatchMode == old(isFolderBatchMode)
      ensures viewMode == old(viewMode) && isSidebarOpen == old(isSidebarOpen)
    {
      selectedFolderIds := FolderIds(store.folders);
    }

    /** `handleBatchDeleteFolders`: `deleteFolder` for each selected id in turn, then the folder
        selection is cleared and its batch mode ends; with nothing selected nothing happens. By
        `Records.DeleteAllOrderFree` the order of the selection does not matter. */
    method HandleBatchDeleteFolders()
      modifies this, store
      ensures old(selectedFolderIds) == [] ==>
        store.folders == old(store.folders) && store.bookmarks == old(store.bookmarks) && isFolderBatchMode == old(isFolderBatchMode)
      ensures old(selectedFolderIds) != [] ==>
        store.folders == DeleteFoldersAll(old(store.folders), old(selectedFolderIds)) &&
        store.bookmarks == DeleteBookmarksAll(old(store.bookmarks), old(selectedFolderIds)) &&
        !isFolderBatchMode
      ensures selectedFolderIds == []
      ensures store.selectedBookmarkIds == old(store.selectedBookmarkIds) && store.selectedFolderId == old(store.selectedFolderId)
      ensures store.searchQuery == old(store.searchQuery) && store.isBatchMode == old(store.isBatchMode)
      ensures isBatchMode == old(isBatchMode) && viewMode == old(viewMode) && isSidebarOpen == old(isSidebarOpen)
    {
      if |selectedFolderIds| == 0 {
        return;
      }
      var ids := selectedFolderIds;
      for i := 0 to |ids|
        invariant store.folders == DeleteFoldersAll(old(store.folders), ids[..i])
        invariant store.bookmarks == DeleteBookmarksAll(old(store.bookmarks), ids[..i])
        invariant store.selectedBookmarkIds == old(store.selectedBookmarkIds) && store.selectedFolderId == old(store.selectedFolderId)
        invariant store.searchQuery == old(store.searchQuery) && store.isBatchMode == old(store.isBatchMode)
        invariant selectedFolderIds == old(selectedFolderIds) && isFolderBatchMode == old(isFolderBatchMode)
        invariant isBatchMode == old(isBatchMode) && viewMode == old(viewMode) && isSidebarOpen == old(isSidebarOpen)
      {
        DeleteAllSnoc(old(store.folders), old(store.bookmarks), ids[..i], ids[i]);
        assert ids[..i + 1] == ids[..i] + [ids[i]];
        store.DeleteFolder(ids[i]);
      }
      assert ids[..|ids|] == ids;
      selectedFolderIds := [];
      isFolderBatchMode := false;
    }

    method EnterBatchMode()
      modifies this
      ensures isBatchMode
      ensures selectedFolderIds == old(selectedFolderIds) && isFolderBatchMode == old(isFolderBatchMode)
      ensures viewMode == old(viewMode) && isSidebarOpen == old(isSidebarOpen)
    {
      isBatchMode := true;
    }

    /** `exitBatchMode`: leaves both batch flags and clears the bookmark selection. */
    method ExitBatchMode()
      modifies this, store
      ensures !isBatchMode && !store.isBatchMode && store.selectedBookmarkIds == []
      ensures store.folders == old(store.folders) && store.bookmarks == old(store.bookmarks)
      ensures store.selectedFolderId == old(store.selectedFolderId) && store.searchQuery == old(store.searchQuery)
      ensures selectedFolderIds == old(selectedFolderIds) && isFolderBatchMode == old(isFolderBatchMode)
      ensures viewMode == old(viewMode) && isSidebarOpen == old(isSidebarOpen)
    {
      isBatchMode := false;
      store.ClearSelection();
    }

    method ExitFolderBatchMode()
      modifies this
      ensures !isFolderBatchMode && selectedFolderIds == []
      ensures isBatchMode == old(isBatchMode) && viewMode == old(viewMode) && isSidebarOpen == old(isSidebarOpen)
    {
      isFolderBatchMode := false;
      selectedFolderIds := [];
    }

    /** `toggleDarkMode`: "dark" becomes "light" and anything else "dark", so the page is dark
        afterwards exactly when the setting was not "dark", whatever the system prefers. */
    method ToggleDarkMode()
      modifies theme
      ensures theme.setting == if old(theme.setting) == Dark then Light else Dark
      ensures theme.isDark == (old(theme.setting) != Dark)
      ensures theme.Valid() && theme.systemDark == old(theme.systemDark)
    {
      theme.SetTheme(if theme.setting == Dark then Light else Dark);
    }

    /** `handleTagClick`. */
    method HandleTagClick(tag: string)
      modifies store
      ensures store.searchQuery == "tag:" + tag
      ensures store.folders == old(store.folders) && store.bookmarks == old(store.bookmarks)
      ensures store.selectedFolderId == old(store.selectedFolderId) && store.selectedBookmarkIds == old(store.selectedBookmarkIds)
      ensures store.isBatchMode == old(store.isBatchMode)
    {
      store.SetSearchQuery("tag:" + tag);
    }

    /** `handleSelectFolder`: the "starred" entry switches to the starred view with no folder
        selected; any other entry switches to the full view with that folder selected. */
    method HandleSelectFolder(id: Option<string>)
      modifies this, store
      ensures id == Some("starred") ==> viewMode == Starred && store.selectedFolderId == None
      ensures id != Some("starred") ==> viewMode == All && store.selectedFolderId == id
      ensures store.folders == old(store.folders) && store.bookmarks == old(store.bookmarks)
      ensures store.selectedBookmarkIds == old(store.selectedBookmarkIds) && store.searchQuery == old(store.searchQuery)
      ensures store.isBatchMode == old(store.isBatchMode)
      ensures selectedFolderIds == old(selectedFolderIds) && isBatchMode == old(isBatchMode)
      ensures isFolderBatchMode == old(isFolderBatchMode) && isSidebarOpen == old(isSidebarOpen)
    {
      if id == Some("starred") {
        viewMode := Starred;
        store.SetSelectedFolderId(None);
      } else {
        viewMode := All;
        store.SetSelectedFolderId(id);
      }
    }

    /** The Escape key: both batch modes end and both selections are cleared. */
    method HandleEscape()
      modifies this, store
      ensures !isBatchMode && !isFolderBatchMode && selectedFolderIds == []
      ensures !store.isBatchMode && store.selectedBookmarkIds == []
      ensures store.folders == old(store.folders) && store.bookmarks == old(store.bookmarks)
      ensures store.selectedFolderId == old(store.selectedFolderId) && store.searchQuery == old(store.searchQuery)
      ensures viewMode == old(viewMode) && isSidebarOpen == old(isSidebarOpen)
    {
      isBatchMode := false;
      isFolderBatchMode := false;
      selectedFolderIds := [];
      store.ClearSelection();
    }

    /** The sidebar's `onToggle`. */
    method ToggleSidebar()
      modifies this
      ensures isSidebarOpen == !old(isSidebarOpen)
      ensures selectedFolderIds == old(selectedFolderIds) && isBatchMode == old(isBatchMode)
      ensures isFolderBatchMode == old(isFolderBatchMode) && viewMode == old(viewMode)
    {
      isSidebarOpen := !isSidebarOpen;
    }
  }
}
