/** The per-record bodies of the store's mutators (src/hooks/useBookmarks.ts): each is a `map` or a
    `filter` over a collection, and each touches only the records it names. */
module Records {
  import opened Types
  import opened Seqs
  import opened FolderGraph

  // ---------------------------------------------------------------------------------------------
  // Folders

  /** `toggleFolderExpanded`: flips `isExpanded` of the folders with id `id`. */
  function ToggleExpanded(folders: seq<Folder>, id: string): (r: seq<Folder>)
    ensures |r| == |folders|
    ensures forall i :: 0 <= i < |r| ==> r[i].(isExpanded := folders[i].isExpanded) == folders[i]
    ensures forall i :: 0 <= i < |r| ==> (r[i].isExpanded != folders[i].isExpanded <==> folders[i].id == id)
  {
    seq(|folders|, i requires 0 <= i < |folders| =>
      if folders[i].id == id then folders[i].(isExpanded := !folders[i].isExpanded) else folders[i])
  }

  /** `renameFolder`: sets `name` of the folders with id `id`. */
  function Rename(folders: seq<Folder>, id: string, name: string): (r: seq<Folder>)
    ensures |r| == |folders|
    ensures forall i :: 0 <= i < |r| ==> r[i].(name := folders[i].name) == folders[i]
    ensures forall i :: 0 <= i < |r| && folders[i].id == id ==> r[i].name == name
    ensures forall i :: 0 <= i < |r| && folders[i].id != id ==> r[i] == folders[i]
  {
    seq(|folders|, i requires 0 <= i < |folders| =>
      if folders[i].id == id then folders[i].(name := name) else folders[i])
  }

  /** `moveFolder`: sets `parentId` of the folders with id `id`, with no check for cycles. */
  function MoveFolder(folders: seq<Folder>, id: string, parentId: Option<string>): (r: seq<Folder>)
    ensures |r| == |folders|
    ensures forall i :: 0 <= i < |r| ==> r[i].(parentId := folders[i].parentId) == folders[i]
    ensures forall i :: 0 <= i < |r| && folders[i].id == id ==> r[i].parentId == parentId
    ensures forall i :: 0 <= i < |r| && folders[i].id != id ==> r[i] == folders[i]
  {
    seq(|folders|, i requires 0 <= i < |folders| =>
      if folders[i].id == id then folders[i].(parentId := parentId) else folders[i])
  }

  /** Toggling twice restores the collection. */
  lemma ToggleTwice(folders: seq<Folder>, id: string)
    ensures ToggleExpanded(ToggleExpanded(folders, id), id) == folders
  {
    var once := ToggleExpanded(folders, id);
    assert forall i :: 0 <= i < |folders| ==> once[i].id == folders[i].id;
  }

  /** The three folder edits change nothing when no folder has the id. */
  lemma FolderEditsOfUnknownId(folders: seq<Folder>, id: string, name: string, parentId: Option<string>)
    requires forall i :: 0 <= i < |folders| ==> folders[i].id != id
    ensures ToggleExpanded(folders, id) == folders
    ensures Rename(folders, id, name) == folders
    ensures MoveFolder(folders, id, parentId) == folders
  {
    assert forall i :: 0 <= i < |folders| ==> ToggleExpanded(folders, id)[i] == folders[i];
    assert forall i :: 0 <= i < |folders| ==> Rename(folders, id, name)[i] == folders[i];
    assert forall i :: 0 <= i < |folders| ==> MoveFolder(folders, id, parentId)[i] == folders[i];
  }

  /** A second rename of the same folder overrides the first. */
  lemma RenameTwice(folders: seq<Folder>, id: string, a: string, b: string)
    ensures Rename(Rename(folders, id, a), id, b) == Rename(folders, id, b)
  {
    var once := Rename(folders, id, a);
    assert forall i :: 0 <= i < |folders| ==> once[i].id == folders[i].id;
  }

  /** Moving a folder under one of its own children creates a cycle that the walk down from the moved
      folder runs into: nothing in `moveFolder` prevents it. */
  lemma MoveUnderChildMakesCycle(folders: seq<Folder>, a: int, c: int)
    requires 0 <= a < |folders| && 0 <= c < |folders|
    requires folders[c].parentId == Some(folders[a].id)
    ensures ReachesCycle(MoveFolder(folders, folders[a].id, Some(folders[c].id)), Some(folders[a].id))
  {
    var r := MoveFolder(folders, folders[a].id, Some(folders[c].id));
    assert r[a].id == folders[a].id && r[c].id == folders[c].id;
    assert r[a].parentId == Some(r[c].id);
    assert r[c].parentId == Some(r[a].id);
    var cs := [c, a, c];
    assert IsChain(r, Some(folders[a].id), cs);
    assert cs[0] == cs[2];
  }

  /** What `deleteFolder(x)` keeps of a folder: neither the folder itself nor its direct children. */
  function KeepFolder(x: string): Folder -> bool {
    (f: Folder) => f.id != x && f.parentId != Some(x)
  }

  /** What `deleteFolder(x)` keeps of a bookmark: those not directly in the folder. */
  function KeepBookmark(x: string): Bookmark -> bool {
    (b: Bookmark) => b.folderId != x
  }

  /** The folders left by `deleteFolder(x)`, in order. */
  function DeleteFolderFolders(folders: seq<Folder>, x: string): (r: seq<Folder>)
    ensures forall f :: f in r <==> f in folders && f.id != x && f.parentId != Some(x)
  {
    Filter(folders, KeepFolder(x))
  }

  /** The bookmarks left by `deleteFolder(x)`, in order. */
  function DeleteFolderBookmarks(bookmarks: seq<Bookmark>, x: string): (r: seq<Bookmark>)
    ensures forall b :: b in r <==> b in bookmarks && b.folderId != x
  {
    Filter(bookmarks, KeepBookmark(x))
  }

  /** The cascade is one level deep: with unique ids, a grandchild of the deleted folder survives,
      its parent no longer exists, and the grandchild's bookmarks survive too. */
  lemma DeleteLeavesGrandchildren(folders: seq<Folder>, bookmarks: seq<Bookmark>, x: string, child: Folder, g: Folder, b: Bookmark)
    requires UniqueIds(folders)
    requires child in folders && child.parentId == Some(x) && child.id != x
    requires g in folders && g.parentId == Some(child.id) && g.id != x
    requires b in bookmarks && b.folderId == g.id
    ensures g in DeleteFolderFolders(folders, x)
    ensures forall f :: f in DeleteFolderFolders(folders, x) ==> f.id != child.id
    ensures b in DeleteFolderBookmarks(bookmarks, x)
  {
    forall f | f in DeleteFolderFolders(folders, x) ensures f.id != child.id {
      var i :| 0 <= i < |folders| && folders[i] == f;
      var j :| 0 <= j < |folders| && folders[j] == child;
      if i != j {
        assert folders[i].id != folders[j].id;
      }
    }
  }

  /** The folders left after `deleteFolder` for each id of `xs` in turn. */
  function DeleteFoldersAll(folders: seq<Folder>, xs: seq<string>): seq<Folder>
    decreases |xs|
  {
    if xs == [] then folders else DeleteFoldersAll(DeleteFolderFolders(folders, xs[0]), xs[1..])
  }

  /** The bookmarks left after `deleteFolder` for each id of `xs` in turn. */
  function DeleteBookmarksAll(bookmarks: seq<Bookmark>, xs: seq<string>): seq<Bookmark>
    decreases |xs|
  {
    if xs == [] then bookmarks else DeleteBookmarksAll(DeleteFolderBookmarks(bookmarks, xs[0]), xs[1..])
  }

  /** A folder survives deleting every id of `xs`: its id is not among them, nor is its parent's. */
  predicate SurvivesAll(f: Folder, xs: seq<string>) {
    f.id !in xs && !(f.parentId.Some? && f.parentId.value in xs)
  }

  /** Deleting the folders of `xs` one after the other keeps, in order, exactly the folders that are
      neither in `xs` nor direct children of a folder in `xs`, and exactly the bookmarks that are not
      directly in a folder of `xs`. */
  lemma {:induction false} DeleteAllSpec(folders: seq<Folder>, bookmarks: seq<Bookmark>, xs: seq<string>)
    ensures DeleteFoldersAll(folders, xs) == Filter(folders, (f: Folder) => SurvivesAll(f, xs))
    ensures DeleteBookmarksAll(bookmarks, xs) == Filter(bookmarks, (b: Bookmark) => b.folderId !in xs)
    decreases |xs|
  {
    var keepF := (f: Folder) => SurvivesAll(f, xs);
    var keepB := (b: Bookmark) => b.folderId !in xs;
    if xs == [] {
      FilterAll(folders, keepF);
      FilterAll(bookmarks, keepB);
    } else {
      DeleteAllSpec(DeleteFolderFolders(folders, xs[0]), DeleteFolderBookmarks(bookmarks, xs[0]), xs[1..]);
      assert forall z :: z in xs <==> z == xs[0] || z in xs[1..];
      FilterTwice(folders, KeepFolder(xs[0]), (f: Folder) => SurvivesAll(f, xs[1..]), keepF);
      FilterTwice(bookmarks, KeepBookmark(xs[0]), (b: Bookmark) => b.folderId !in xs[1..], keepB);
    }
  }

  /** The order in which the folders are deleted does not matter, nor do repeated ids: only which
      ids are deleted does. */
  lemma DeleteAllOrderFree(folders: seq<Folder>, bookmarks: seq<Bookmark>, xs: seq<string>, ys: seq<string>)
    requires forall z :: z in xs <==> z in ys
    ensures DeleteFoldersAll(folders, xs) == DeleteFoldersAll(folders, ys)
    ensures DeleteBookmarksAll(bookmarks, xs) == DeleteBookmarksAll(bookmarks, ys)
  {
    DeleteAllSpec(folders, bookmarks, xs);
    DeleteAllSpec(folders, bookmarks, ys);
    FilterCongruent(folders, (f: Folder) => SurvivesAll(f, xs), (f: Folder) => SurvivesAll(f, ys));
    FilterCongruent(bookmarks, (b: Bookmark) => b.folderId !in xs, (b: Bookmark) => b.folderId !in ys);
  }

  // ---------------------------------------------------------------------------------------------
  // Bookmarks

  /** A `Partial<Bookmark>`: the fields an update sets. */
  datatype Patch = Patch(
    id: Option<string>,
    title: Option<string>,
    url: Option<string>,
    icon: Option<string>,
    folderId: Option<string>,
    tags: Option<seq<string>>,
    starred: Option<bool>,
    createdAt: Option<int>,
    updatedAt: Option<int>)

  /** The patch that sets nothing. */
  const NoChange: Patch := Patch(None, None, None, None, None, None, None, None, None)

  function Pick<T>(o: Option<T>, otherwise: T): T {
    if o.Some? then o.value else otherwise
  }

  /** `{ ...b, ...updates, updatedAt: now }`: each field the patch sets wins over the record's own,
      the others are kept, and the update time is the new reading whatever the patch says. */
  function Merge(b: Bookmark, p: Patch, now: int): (r: Bookmark)
    ensures p.id.Some? ==> r.id == p.id.value
    ensures p.id.None? ==> r.id == b.id
    ensures p.title.Some? ==> r.title == p.title.value
    ensures p.title.None? ==> r.title == b.title
    ensures p.url.Some? ==> r.url == p.url.value
    ensures p.url.None? ==> r.url == b.url
    ensures p.icon.Some? ==> r.icon == p.icon.value
    ensures p.icon.None? ==> r.icon == b.icon
    ensures p.folderId.Some? ==> r.folderId == p.folderId.value
    ensures p.folderId.None? ==> r.folderId == b.folderId
    ensures p.tags.Some? ==> r.tags == p.tags.value
    ensures p.tags.None? ==> r.tags == b.tags
    ensures p.starred.Some? ==> r.starred == p.starred.value
    ensures p.starred.None? ==> r.starred == b.starred
    ensures p.createdAt.Some? ==> r.createdAt == p.createdAt.value
    ensures p.createdAt.None? ==> r.createdAt == b.createdAt
    ensures r.updatedAt == now
  {
    Bookmark(Pick(p.id, b.id), Pick(p.title, b.title), Pick(p.url, b.url), Pick(p.icon, b.icon),
      Pick(p.folderId, b.folderId), Pick(p.tags, b.tags), Pick(p.starred, b.starred),
      Pick(p.createdAt, b.createdAt), now)
  }

  /** The empty patch only refreshes the update time; applying a patch again, at any later time, is
      applying it once at that time. */
  lemma MergeSpec(b: Bookmark, p: Patch, t1: int, t2: int)
    ensures Merge(b, NoChange, t1) == b.(updatedAt := t1)
    ensures Merge(Merge(b, p, t1), p, t2) == Merge(b, p, t2)
  {
  }

  /** `updateBookmark`: merges the patch into the bookmarks with id `id`. The map calls `Date.now()`
      afresh for each of them; `clock(i)` is the reading taken at position `i`. */
  function UpdateBookmark(bookmarks: seq<Bookmark>, id: string, p: Patch, clock: Clock): (r: seq<Bookmark>)
    ensures |r| == |bookmarks|
    ensures forall i :: 0 <= i < |r| && bookmarks[i].id == id ==> r[i] == Merge(bookmarks[i], p, clock(i))
    ensures forall i :: 0 <= i < |r| && bookmarks[i].id != id ==> r[i] == bookmarks[i]
  {
    seq(|bookmarks|, i requires 0 <= i < |bookmarks| =>
      if bookmarks[i].id == id then Merge(bookmarks[i], p, clock(i)) else bookmarks[i])
  }

  /** `moveBookmark`: sets `folderId` and `updatedAt` of the bookmarks whose id is listed. The map
      calls `Date.now()` afresh for each of them, so moved bookmarks can get different update times;
      `clock(i)` is the reading taken at position `i`. */
  function MoveBookmarks(bookmarks: seq<Bookmark>, ids: seq<string>, folderId: string, clock: Clock): (r: seq<Bookmark>)
    ensures |r| == |bookmarks|
    ensures forall i :: 0 <= i < |r| && bookmarks[i].id in ids ==>
      r[i].(folderId := bookmarks[i].folderId, updatedAt := bookmarks[i].updatedAt) == bookmarks[i] &&
      r[i].folderId == folderId && r[i].updatedAt == clock(i)
    ensures forall i :: 0 <= i < |r| && bookmarks[i].id !in ids ==> r[i] == bookmarks[i]
  {
    seq(|bookmarks|, i requires 0 <= i < |bookmarks| =>
      if bookmarks[i].id in ids then bookmarks[i].(folderId := folderId, updatedAt := clock(i)) else bookmarks[i])
  }

  /** Moving one bookmark is the update that sets only its folder. */
  lemma MoveOneIsUpdate(bookmarks: seq<Bookmark>, id: string, folderId: string, clock: Clock)
    ensures MoveBookmarks(bookmarks, [id], folderId, clock) == UpdateBookmark(bookmarks, id, NoChange.(folderId := Some(folderId)), clock)
  {
    var a := MoveBookmarks(bookmarks, [id], folderId, clock);
    var b := UpdateBookmark(bookmarks, id, NoChange.(folderId := Some(folderId)), clock);
    forall i | 0 <= i < |bookmarks| ensures a[i] == b[i] {
      if bookmarks[i].id == id {
        assert bookmarks[i].id in [id];
      }
    }
  }

  /** Moving the same bookmarks to the same folder again only takes the later update times. */
  lemma MoveTwice(bookmarks: seq<Bookmark>, ids: seq<string>, folderId: string, c1: Clock, c2: Clock)
    ensures MoveBookmarks(MoveBookmarks(bookmarks, ids, folderId, c1), ids, folderId, c2) == MoveBookmarks(bookmarks, ids, folderId, c2)
  {
    var once := MoveBookmarks(bookmarks, ids, folderId, c1);
    assert forall i :: 0 <= i < |bookmarks| ==> once[i].id == bookmarks[i].id;
  }

  /** `deleteBookmark`'s filter over the bookmarks. */
  function DeleteBookmarks(bookmarks: seq<Bookmark>, ids: seq<string>): (r: seq<Bookmark>)
    ensures forall b :: b in r <==> b in bookmarks && b.id !in ids
  {
    Filter(bookmarks, (b: Bookmark) => b.id !in ids)
  }

  /** `deleteBookmark`'s filter over the selection. */
  function RemoveIds(selected: seq<string>, ids: seq<string>): (r: seq<string>)
    ensures forall x :: x in r <==> x in selected && x !in ids
  {
    Filter(selected, (x: string) => x !in ids)
  }

  /** Deleting keeps every other bookmark and id, each as often as before. */
  lemma DeleteBookmarksSpec(bookmarks: seq<Bookmark>, selected: seq<string>, ids: seq<string>)
    ensures forall b :: multiset(DeleteBookmarks(bookmarks, ids))[b] == if b.id in ids then 0 else multiset(bookmarks)[b]
    ensures forall x :: multiset(RemoveIds(selected, ids))[x] == if x in ids then 0 else multiset(selected)[x]
  {
    FilterMultiset(bookmarks, (b: Bookmark) => b.id !in ids);
    FilterMultiset(selected, (x: string) => x !in ids);
  }

  /** One id or a list of ids, as `deleteBookmark` and `moveBookmark` accept. */
  datatype IdArg = One(id: string) | Many(ids: seq<string>)

  /** `Array.isArray(arg) ? arg : [arg]`. */
  function Ids(arg: IdArg): (r: seq<string>)
    ensures arg.One? ==> r == [arg.id]
    ensures arg.Many? ==> r == arg.ids
  {
    match arg
    case One(id) => [id]
    case Many(ids) => ids
  }

  // ---------------------------------------------------------------------------------------------
  // Selections

  /** `prev.includes(id) ? prev.filter(x => x !== id) : [...prev, id]`. */
  function ToggleId(selected: seq<string>, id: string): (r: seq<string>)
    ensures id in selected ==> id !in r && |r| <= |selected|
    ensures id !in selected ==> r == selected + [id]
  {
    if id in selected then Filter(selected, (x: string) => x != id) else selected + [id]
  }

  /** Toggling an id flips whether it is selected, removes every copy of it when it was selected, and
      keeps each other id as often as before; toggling an unselected id twice restores the selection. */
  lemma ToggleIdSpec(selected: seq<string>, id: string)
    ensures id in ToggleId(selected, id) <==> id !in selected
    ensures forall x :: x != id ==> (x in ToggleId(selected, id) <==> x in selected)
    ensures id in selected ==> forall x :: x != id ==> multiset(ToggleId(selected, id))[x] == multiset(selected)[x]
    ensures id !in selected ==> ToggleId(ToggleId(selected, id), id) == selected
  {
    FilterMultiset(selected, (x: string) => x != id);
    if id !in selected {
      FilterConcat(selected, [id], (x: string) => x != id);
      FilterAll(selected, (x: string) => x != id);
    }
  }

  /** `folders.map(f => f.id)`. */
  function FolderIds(folders: seq<Folder>): (r: seq<string>)
    ensures |r| == |folders| && forall i :: 0 <= i < |folders| ==> r[i] == folders[i].id
    ensures forall x :: x in r <==> exists f :: f in folders && f.id == x
  {
    seq(|folders|, i requires 0 <= i < |folders| => folders[i].id)
  }

  /** `bookmarks.map(b => b.id)`. */
  function BookmarkIds(bookmarks: seq<Bookmark>): (r: seq<string>)
    ensures |r| == |bookmarks| && forall i :: 0 <= i < |bookmarks| ==> r[i] == bookmarks[i].id
    ensures forall x :: x in r <==> exists b :: b in bookmarks && b.id == x
  {
    seq(|bookmarks|, i requires 0 <= i < |bookmarks| => bookmarks[i].id)
  }
}
