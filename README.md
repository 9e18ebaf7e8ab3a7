# Bookmark manager core, modelled in Dafny

This project models the core of a browser bookmark manager written in React and TypeScript:

- **`useBookmarks`** is the store. It holds:
  - a flat list of folders that point to their parent;
  - a flat list of bookmarks filed in folders;
  - the selected folder, the search query, the bookmark selection and batch mode.
- **`App`** is the page. It adds:
  - a view mode (all or starred) and the folder batch selection;
  - handlers that combine its own state with the store.
- **`Sidebar`** is the folder sidebar. It covers:
  - the rendered tree and the counts it shows;
  - the folder menu and its dialogs;
  - drag and drop between folders and the swipe gesture.
- **`AddBookmarkDialog`** is the add-bookmark form.
- **`useTheme`** holds the light/dark/auto setting.

## How the model is built

Each source file has its own module:

| source file | module | file |
|---|---|---|
| `src/types/index.ts` | `Types` | `types.dfy` |
| `src/hooks/useBookmarks.ts` | `Records`, `Query`, `Tree`, `Store` | `records.dfy`, `query.dfy`, `tree.dfy`, `store.dfy` |
| `src/App.tsx` | `App` | `app.dfy` |
| `src/components/Sidebar.tsx` | `Sidebar` | `sidebar.dfy` |
| `src/components/AddBookmarkDialog.tsx` | `AddDialog` | `add_dialog.dfy` |
| `src/hooks/useTheme.ts` | `Theme` | `theme.dfy` |

The remaining modules hold JavaScript behaviour that these files rely on:

- `FolderGraph` — the folder hierarchy as a graph;
- `StableSort` — `Array.prototype.sort`, which is stable;
- `StringOrder` — `sort()` on strings;
- `Text` — `trim`, `toLowerCase`, `includes`, `replace`, `split`;
- `Seqs` — `filter`.

### State and handlers

React state that handlers update becomes a field of a class:

- `Store.BookmarkStore` for the store;
- `App.AppComponent` for the page;
- `Sidebar.SidebarState` for the sidebar;
- `AddDialog.AddBookmarkForm` for the form;
- `Theme.ThemeState` for the theme.

Each callback becomes a method. A method's contract gives the new value of every field it may change. That value is stated through a pure function of the old state, which lemmas then describe. The `map` and `filter` bodies of the store's updates are those functions, in `Records`.

### Derived values

Derived values (`useMemo`) are functions:

- `Query.Filtered` for `filteredBookmarks`;
- `Tree.FolderTree` for `folderTree`;
- `App.DisplayBookmarks`;
- `Sidebar.Render` for `renderFolderTree`.

Two derived values have a loop, and each is also a method with loop invariants:

- `addChildren` mutates a shared `Set` in a `forEach`. It is `Query.CollectChildren`.
- `allTags` fills a `Set` in nested `forEach` loops. It is `App.AllTags`.

### Recursion that may not return

`addChildren`, `buildTree` and `renderFolderTree` recurse over the folder hierarchy with no guard. The hierarchy may contain cycles, because `moveFolder` does not check for them. These functions therefore take a recursion bound (`fuel`) and return `None` when the recursion does not come back within it.

The model then proves when the result exists:

- With `|folders| + 1` levels, `None` happens exactly when a cycle is reachable (`FolderGraph.WalkFinishesIffAcyclic`).
- Such a recursion fails for every bound (`Query.ScopeIdsSpec`).
- With unique folder ids, the tree below the top level always exists (`Tree.UniqueIdsTreeExists`).

### Callers, platform calls and outputs

- **Callbacks.** The sidebar does not change the store. Its handlers return the callback call they make, as a `Sidebar.Request`.
- **Parameters.** The following are passed in as parameters:
  - `uuidv4()` becomes `newId`;
  - `Date.now()` becomes `clock`, a `Types.Clock`: `clock(k)` is what the operation's `k`-th call returns;
  - the `URL` parser becomes `parseHost`, which returns the hostname, or `None` where `new URL` throws;
  - the stored strings become `saved*`;
  - the system colour preference becomes `systemDark`.

## Model

| member | source | states |
|---|---|---|
| Records.ToggleExpanded | src/hooks/useBookmarks.ts:84-92 | Same length. Only `isExpanded` can differ, and it flips exactly for the folders with the given id. |
| Records.ToggleTwice | src/hooks/useBookmarks.ts:84-92 | Toggling the same folder twice restores the whole collection. |
| Records.Rename | src/hooks/useBookmarks.ts:111-119 | Same length. Only `name` can differ, every folder with the id gets the new name, and every other folder is unchanged. |
| Records.RenameTwice | src/hooks/useBookmarks.ts:111-119 | A second rename of a folder overrides the first. |
| Records.MoveFolder | src/hooks/useBookmarks.ts:134-142 | Same length. Only `parentId` can differ, every folder with the id gets the new parent, and every other folder is unchanged. |
| Records.FolderEditsOfUnknownId | src/hooks/useBookmarks.ts:84-142 | Toggle, rename and move of an id that no folder has leave the collection unchanged. |
| Records.MoveUnderChildMakesCycle | src/hooks/useBookmarks.ts:134-142 | Moving a folder under one of its own children creates a cycle reachable from the moved folder, and nothing in `moveFolder` prevents it. |
| Records.DeleteFolderFolders | src/hooks/useBookmarks.ts:121-126 | A folder survives `deleteFolder(x)` exactly when it is neither `x` nor a direct child of `x`. |
| Records.DeleteFolderBookmarks | src/hooks/useBookmarks.ts:127-131 | A bookmark survives exactly when it is not filed directly in `x`. |
| Records.DeleteLeavesGrandchildren | src/hooks/useBookmarks.ts:121-132 | The cascade is one level deep: with unique ids, a grandchild of `x` and its bookmarks survive while its parent is gone. |
| Records.DeleteAllSpec | src/App.tsx:149-155 | Deleting the folders of a list one after another keeps, in order, exactly the folders that are neither listed nor children of a listed folder, and exactly the bookmarks not filed in a listed folder. |
| Records.DeleteAllOrderFree | src/App.tsx:151 | Only which ids are deleted matters, not their order or repetitions. |
| Records.Merge | src/hooks/useBookmarks.ts:168 | Every field the patch sets (id, title, url, icon, folder, tags, star, creation time) takes the patch's value. Every field it leaves unset keeps the bookmark's value. The update time is the new clock reading, whatever the patch says. |
| Records.MergeSpec | src/hooks/useBookmarks.ts:165-173 | The empty patch only refreshes the update time. Applying a patch again later equals applying it once at the later time. |
| Records.UpdateBookmark | src/hooks/useBookmarks.ts:165-173 | Bookmarks with the id become the merge of the patch. Every other bookmark is unchanged and the length is kept. |
| Records.MoveBookmarks | src/hooks/useBookmarks.ts:185-194 | Each listed bookmark changes only its folder (to the target) and its update time (to its own clock reading). The others are unchanged. |
| Records.MoveOneIsUpdate | src/hooks/useBookmarks.ts:185-194 | Moving one bookmark equals the update that sets only its folder. |
| Records.MoveTwice | src/hooks/useBookmarks.ts:185-194 | Repeating a move changes nothing more than the update times, which become the second move's readings. |
| Records.DeleteBookmarks | src/hooks/useBookmarks.ts:175-181 | A bookmark survives exactly when its id is not listed. |
| Records.RemoveIds | src/hooks/useBookmarks.ts:182 | A selected id survives exactly when it is not listed. |
| Records.DeleteBookmarksSpec | src/hooks/useBookmarks.ts:175-183 | Deleting keeps every copy of each unlisted bookmark and selected id, and no copy of a listed one. |
| Records.ToggleId | src/hooks/useBookmarks.ts:197-203 | A selected id is removed. An unselected id is appended at the end. |
| Records.ToggleIdSpec | src/hooks/useBookmarks.ts:197-203 | Toggling flips membership of the id and no other, removing every copy of it and keeping the other ids' counts. Toggling an unselected id twice restores the selection. |
| Records.FolderIds | src/App.tsx:146 | The ids of all folders, position by position: an id is listed exactly when some folder has it. |
| Records.BookmarkIds | src/hooks/useBookmarks.ts:254 | The ids of the listed bookmarks, position by position: an id is in the result exactly when a listed bookmark has it. |
| Store.SeedFolders | src/hooks/useBookmarks.ts:7-13 | Five fixture folders with unique ids. Folder `k` has `order` `k` and is created at the `k`-th clock reading. |
| Store.SeedBookmarks | src/hooks/useBookmarks.ts:15-49 | Three fixture bookmarks: GitHub and Stack Overflow starred, Figma not. Each has its own creation and update reading, taken after the five folders' readings. |
| Store.GetFavicon | src/hooks/useBookmarks.ts:279-286 | The result is empty exactly when the url does not parse. Otherwise it is the 64-pixel favicon of the host. |
| Store.BookmarkStore.constructor | src/hooks/useBookmarks.ts:55-74 | Saved collections are used when present, the fixture otherwise. "root" is selected and the selection, query and batch mode are empty. |
| Store.BookmarkStore.ToggleFolderExpanded | src/hooks/useBookmarks.ts:84-92 | The folders become `Records.ToggleExpanded` of the old ones. Nothing else changes. |
| Store.BookmarkStore.CreateFolder | src/hooks/useBookmarks.ts:94-109 | Appends one expanded folder whose `createdAt` and `order` are two clock readings, and returns its id. A fresh id keeps the folder ids unique. |
| Store.BookmarkStore.RenameFolder | src/hooks/useBookmarks.ts:111-119 | The folders become `Records.Rename` of the old ones. Nothing else changes. |
| Store.BookmarkStore.MoveFolder | src/hooks/useBookmarks.ts:134-142 | The folders become `Records.MoveFolder` of the old ones, with no cycle check. Nothing else changes. |
| Store.BookmarkStore.DeleteFolder | src/hooks/useBookmarks.ts:121-132 | Removes the folder, its direct children and the bookmarks directly in it. Nothing else changes. |
| Store.BookmarkStore.AddBookmark | src/hooks/useBookmarks.ts:145-163 | Fails exactly when there is no icon and the url does not parse. Otherwise it appends one unstarred bookmark with the data, the new id, two clock readings as creation and update time, and the given icon or the host's favicon. |
| Store.BookmarkStore.UpdateBookmark | src/hooks/useBookmarks.ts:165-173 | The bookmarks become `Records.UpdateBookmark` of the old ones. Nothing else changes. |
| Store.BookmarkStore.DeleteBookmark | src/hooks/useBookmarks.ts:175-183 | Removes the listed bookmarks and removes their ids from the selection. |
| Store.BookmarkStore.MoveBookmark | src/hooks/useBookmarks.ts:185-194 | The bookmarks become `Records.MoveBookmarks` of the old ones. Nothing else changes. |
| Store.BookmarkStore.ToggleBookmarkSelection | src/hooks/useBookmarks.ts:197-203 | The selection becomes `Records.ToggleId` of the old one. |
| Store.BookmarkStore.SelectAllBookmarks | src/hooks/useBookmarks.ts:253-255 | The selection becomes the ids of the listed bookmarks, in list order. When the listing does not exist the selection is unchanged. |
| Store.BookmarkStore.ClearSelection | src/hooks/useBookmarks.ts:257-260 | Empties the selection and leaves batch mode. |
| Store.BookmarkStore.ToggleBatchMode | src/hooks/useBookmarks.ts:263-268 | Flips batch mode. Leaving it also clears the selection. |
| Store.BookmarkStore.SetSelectedFolderId | src/hooks/useBookmarks.ts:71 | Sets only the selected folder. |
| Store.BookmarkStore.SetSearchQuery | src/hooks/useBookmarks.ts:73 | Sets only the query. |
| Store.BookmarkStore.FilteredBookmarks | src/hooks/useBookmarks.ts:206-251 | Returns `Query.Filtered` of the state. With no folder filter and no query it sorts the state array itself in place. |
| Store.NoCycleBelowTop | src/hooks/useBookmarks.ts:210-220 | With unique ids, no cycle is reachable from a folder whose chain of parents ends at the top level. |
| Store.SeedWorkIds | src/hooks/useBookmarks.ts:209-222 | In the fixture, the scope of "work" exists and contains "dev" and "design". |
| Store.SeedWorkScope | src/hooks/useBookmarks.ts:209-222 | In the fixture, every bookmark is in the scope of "work". |
| Store.SeedSorted | src/hooks/useBookmarks.ts:243-248 | The fixture sorts the two starred bookmarks first and Figma last. GitHub precedes Stack Overflow exactly when its update reading is not less than Stack Overflow's. |
| Store.SeedWorkScenario | src/hooks/useBookmarks.ts:206-251 | Selecting "work" in the fixture lists all three bookmarks: the starred two first, GitHub ahead exactly when its update reading is not less than Stack Overflow's, then Figma. |
| Query.ChildrenUpToSpec | src/hooks/useBookmarks.ts:212-219 | The `forEach` finishes exactly when every child's call does. It adds exactly the children's ids and what their calls add. |
| Query.AddChildrenBounded | src/hooks/useBookmarks.ts:212-219 | `addChildren(p)` returns within a bound exactly when the depth-first walk down from `p` does. |
| Query.AddedChain | src/hooks/useBookmarks.ts:212-219 | Each id that `addChildren(p)` adds is at the end of a chain of parent links down from `p`. |
| Query.ChildAdded | src/hooks/useBookmarks.ts:213-217 | When `addChildren(p)` returns, each child's call returns too, and the child's id and everything its call adds are added. |
| Query.ChainAdded | src/hooks/useBookmarks.ts:212-219 | The folder at the end of any chain down from `p` has its id added. |
| Query.AddChildrenBelow | src/hooks/useBookmarks.ts:212-220 | When it returns, `addChildren(p)` adds exactly the ids of the folders below `p`. |
| Query.CollectChildren | src/hooks/useBookmarks.ts:211-220 | The loop-and-recursion over the shared id set returns the initial set plus what `addChildren` adds. It fails exactly when that does. |
| Query.ChildrenNoneStays | src/hooks/useBookmarks.ts:213-218 | Once one child's call fails to return, the whole loop fails. |
| Query.ScopeIdsSpec | src/hooks/useBookmarks.ts:209-222 | The scope ids are the selected folder and the folders below it. They are missing exactly when a cycle is reachable, for every recursion depth. |
| Query.ScopeSpec | src/hooks/useBookmarks.ts:209-222 | No selection or "root" keeps every bookmark. Otherwise the scope keeps exactly the bookmarks of the folder and of the folders below it, each as often as before, and exists exactly when no cycle is reachable. |
| Query.SearchSpec | src/hooks/useBookmarks.ts:224-241 | The empty query keeps everything. Otherwise exactly the bookmarks matching the lower-cased query are kept, each as often as before. |
| Query.EmptyTagQuery | src/hooks/useBookmarks.ts:229-233 | `tag:` followed only by white space keeps exactly the bookmarks with at least one tag. |
| Query.ToLowerIdempotent | src/hooks/useBookmarks.ts:226 | Lower-casing twice changes nothing more. |
| Query.SearchIgnoresCase | src/hooks/useBookmarks.ts:224-241 | Searching for the lower-cased query gives the same result. |
| Query.TagQueryKeepsTagged | src/hooks/useBookmarks.ts:229-233 | Searching `tag:` plus a bookmark's tag keeps that bookmark. |
| Query.CompareIsKeyOrder | src/hooks/useBookmarks.ts:244-248 | The comparator's sign agrees with the order of the key (starred first, later update first) in all three cases. |
| Query.SortBookmarksSpec | src/hooks/useBookmarks.ts:243-248 | The sort is a permutation. Starred bookmarks come first and update times never increase within each group. Bookmarks that compare equal keep their input order. |
| Query.FilteredSpec | src/hooks/useBookmarks.ts:206-251 | The list is a sorted permutation of the bookmarks in scope that match: each such bookmark as often as before, no other. It is missing exactly when a cycle is reachable from the selected folder. With no filters it is the sorted state. |
| StableSort.InsertPermutation | src/hooks/useBookmarks.ts:244-248 | Inserting adds exactly the one element. |
| StableSort.InsertSorted | src/hooks/useBookmarks.ts:244-248 | Inserting into a sorted list keeps it sorted. |
| StableSort.InsertStable | src/hooks/useBookmarks.ts:244-248 | Inserting puts the new element after the elements with an equal key. |
| StableSort.SortByCorrect | src/hooks/useBookmarks.ts:244-248 | The stable sort returns a permutation in key order and keeps the input order of elements with equal keys. |
| Tree.ChildrenOfSpec | src/hooks/useBookmarks.ts:291-293 | One level holds exactly the folders whose parent is the node, each as often as in the collection, in ascending `order`. |
| Tree.ChildrenOfMembers | src/hooks/useBookmarks.ts:291-292 | A folder is on the level below a node exactly when it is a child of that node. |
| Tree.BuildEachSpec | src/hooks/useBookmarks.ts:294-297 | The `map` builds one node per folder, in order, each holding that folder's tree. It returns exactly when every folder's tree does. |
| Tree.BuildEachNodes | src/hooks/useBookmarks.ts:294-297 | The nodes' folders are the mapped folders, and each node's children are that folder's tree. |
| Tree.EachBounded | src/hooks/useBookmarks.ts:290-298 | The `map` over the children returns exactly when the walk down from each child does. |
| Tree.BuildTreeBounded | src/hooks/useBookmarks.ts:290-298 | `buildTree(u)` returns within a bound exactly when the walk down from `u` does. |
| Tree.TreeChain | src/hooks/useBookmarks.ts:290-298 | Every folder in the tree below `u` ends a chain of parent links down from `u`. |
| Tree.TreeSound | src/hooks/useBookmarks.ts:290-298 | Every folder in the tree below `u` lies below `u`. |
| Tree.ChainInTree | src/hooks/useBookmarks.ts:290-298 | The folder at the end of every chain down from `u` is in the tree. |
| Tree.TreeComplete | src/hooks/useBookmarks.ts:290-298 | Every folder below `u` is in the tree below `u`. |
| Tree.BuildTreeMembers | src/hooks/useBookmarks.ts:290-298 | The tree below `u` holds exactly the folders below `u`. |
| Tree.TreeLevels | src/hooks/useBookmarks.ts:290-298 | Each level lists the children of the node above it, and each node's children are its folder's tree one level down. |
| Tree.FolderTreeSpec | src/hooks/useBookmarks.ts:289-300 | The tree exists exactly when no cycle is reachable from the top level. Its roots are the top-level folders by `order`, and it holds exactly the folders whose parent chain reaches the top level. |
| Tree.UniqueIdsTreeExists | src/hooks/useBookmarks.ts:289-300 | With unique folder ids the tree always exists. |
| FolderGraph.CycleNeverBounded | src/hooks/useBookmarks.ts:212-219 | A walk that can reach a cycle never returns, whatever the bound. |
| FolderGraph.UnboundedReachesCycle | src/hooks/useBookmarks.ts:212-219 | A walk that needs more levels than there are folders reaches a cycle. |
| FolderGraph.AcyclicBounded | src/hooks/useBookmarks.ts:212-219 | Without a reachable cycle, one level more than there are folders is enough. |
| FolderGraph.WalkFinishesIffAcyclic | src/hooks/useBookmarks.ts:290-298 | The walk down from a node returns for some bound exactly when no cycle is reachable, and then the bound `|folders| + 1` suffices. |
| FolderGraph.UniqueIdsNoCycleFromTop | src/hooks/useBookmarks.ts:299 | With unique ids, no cycle is reachable from the top level. |
| App.DisplayBookmarks | src/App.tsx:57-64 | The full view is the list itself. The starred view holds exactly the starred bookmarks of the list. |
| App.DisplayBookmarksCounts | src/App.tsx:57-64 | The starred view keeps every copy of each starred bookmark and none of the others. |
| App.StarredViewIsPrefix | src/App.tsx:57-64 | On a list with the starred bookmarks first, the starred view is a prefix of it. |
| App.StarredViewOfListing | src/App.tsx:57-64 | The starred view of the store's list is a prefix of that list. |
| App.Find | src/App.tsx:67 | The first position with the id, or none when no bookmark has it. |
| App.StarToggledSpec | src/App.tsx:66-71 | Starring changes only the flag and update time of the bookmarks with the id. With unique ids it flips the flag, and starring twice restores every flag. |
| App.DeleteAllSnoc | src/App.tsx:149-155 | Deleting one more folder after a list equals deleting the extended list. |
| App.TagClickKeepsTagged | src/App.tsx:179-181 | After clicking a tag chip, every bookmark in scope that carries the tag is still listed. |
| App.AllTags | src/App.tsx:51-55 | The tags are strictly increasing, and a tag is present exactly when some bookmark carries it. |
| App.AllTagsOrderFree | src/App.tsx:51-55 | Any reordering of the bookmarks gives the same tag list. |
| App.AppComponent.constructor | src/App.tsx:42-49 | Sidebar open, both batch modes off, no folders selected, full view. |
| App.AppComponent.ToggleStar | src/App.tsx:66-71 | The bookmarks become `StarToggled` of the old ones. Nothing else in the store changes. |
| App.AppComponent.HandleBatchDelete | src/App.tsx:101-110 | With nothing selected nothing changes. Otherwise the selected bookmarks are deleted, the selection is cleared and both batch flags end. |
| App.AppComponent.HandleToggleFolderSelection | src/App.tsx:137-143 | The folder selection becomes `Records.ToggleId` of the old one. |
| App.AppComponent.HandleSelectAllFolders | src/App.tsx:145-147 | The folder selection becomes all folder ids in collection order. |
| App.AppComponent.HandleBatchDeleteFolders | src/App.tsx:149-155 | With nothing selected nothing changes. Otherwise each selected folder is deleted in turn (`DeleteFoldersAll`), the selection is cleared and folder batch mode ends. |
| App.AppComponent.EnterBatchMode | src/App.tsx:161-163 | Sets batch mode. Nothing else changes. |
| App.AppComponent.ExitBatchMode | src/App.tsx:165-168 | Both batch flags end and the bookmark selection is cleared. |
| App.AppComponent.ExitFolderBatchMode | src/App.tsx:170-173 | Folder batch mode ends and the folder selection is cleared. |
| App.AppComponent.ToggleDarkMode | src/App.tsx:175-177 | "dark" becomes "light" and anything else "dark". The page is dark afterwards exactly when the setting was not "dark". |
| App.AppComponent.HandleTagClick | src/App.tsx:179-181 | The query becomes `tag:` followed by the tag. |
| App.AppComponent.HandleSelectFolder | src/App.tsx:183-191 | "starred" gives the starred view with no folder selected. Any other id gives the full view with that folder selected. |
| App.AppComponent.HandleEscape | src/App.tsx:193-207 | Both batch modes end and both selections are cleared. |
| App.AppComponent.ToggleSidebar | src/App.tsx:214 | Flips whether the sidebar is open. |
| StringOrder.StrLessIrreflexive | src/App.tsx:54 | No string sorts before itself. |
| StringOrder.StrLessTransitive | src/App.tsx:54 | The string order is transitive. |
| StringOrder.StrLessTotal | src/App.tsx:54 | Of two different strings, one sorts first. |
| StringOrder.StrLessAsymmetric | src/App.tsx:54 | Two strings never each sort before the other. |
| StringOrder.InsertStrCorrect | src/App.tsx:54 | Inserting a new string into a strictly sorted list adds exactly it and keeps the list strictly sorted. |
| StringOrder.SortStringsCorrect | src/App.tsx:54 | Sorting distinct strings is a permutation into strictly increasing order. |
| StringOrder.SortedUnique | src/App.tsx:54 | Two strictly sorted lists of the same strings are equal. |
| Theme.Name | src/hooks/useTheme.ts:33-35 | The three settings are stored as "light", "dark" and "auto". |
| Theme.Parse | src/hooks/useTheme.ts:8 | A stored string is unknown exactly when it is not one of the three names. |
| Theme.NameParse | src/hooks/useTheme.ts:8 | Storing and reading back round-trip in both directions. |
| Theme.Initial | src/hooks/useTheme.ts:6-12 | The stored string when non-empty, otherwise "auto". |
| Theme.Next | src/hooks/useTheme.ts:46-52 | Toggling always changes the setting, to one of the three known settings. The order of the cycle is stated by `Theme.ThreeToggles`. |
| Theme.ThreeToggles | src/hooks/useTheme.ts:46-52 | The cycle runs auto → light → dark → auto, so three toggles return to each known setting. An unknown setting goes to "auto". |
| Theme.DarkFor | src/hooks/useTheme.ts:19-25 | In "auto" dark follows the system. Otherwise it is dark exactly for "dark". |
| Theme.ThemeState.constructor | src/hooks/useTheme.ts:6-31 | Starts at the initial setting, with `isDark` consistent with it. |
| Theme.ThemeState.ToggleTheme | src/hooks/useTheme.ts:46-52 | The setting advances by `Next` and `isDark` stays consistent. |
| Theme.ThemeState.SetTheme | src/hooks/useTheme.ts:54-56 | The setting is replaced and `isDark` stays consistent. |
| Theme.ThemeState.SystemChange | src/hooks/useTheme.ts:28 | A system change keeps `isDark` consistent, and does not change it unless the setting is "auto". |
| Text.ToLower | src/hooks/useBookmarks.ts:226 | Same length, with no upper-case letter left. Characters that are not upper-case letters are kept, and each character keeps its upper-case form. |
| Text.ToLowerConcat | src/hooks/useBookmarks.ts:226 | Lower-casing works piece by piece. |
| Text.ContainsEmpty | src/hooks/useBookmarks.ts:232 | Every string includes the empty string. |
| Text.TrimSpec | src/hooks/useBookmarks.ts:230 | `trim` returns the middle of its input with only white space cut at both ends, and none left there. |
| Text.ContainsTrimmed | src/hooks/useBookmarks.ts:230 | A string includes its own trimmed form. |
| Text.TrimTrimmed | src/components/AddBookmarkDialog.tsx:123 | Trimming text without white space at its ends changes nothing. |
| Text.TrimIdempotent | src/components/AddBookmarkDialog.tsx:123 | Trimming twice equals trimming once. |
| Text.UpperFirst | src/components/AddBookmarkDialog.tsx:82 | Same length and the same rest. The first character is no lower-case letter and has the same lower-case form as before. |
| Text.BeforeFirst | src/components/AddBookmarkDialog.tsx:76 | `split(c)[0]` is a prefix without `c`, and it is followed by `c` when shorter than the input. |
| Text.Words | src/components/AddBookmarkDialog.tsx:99 | Every piece is non-empty and has no white space. |
| Text.WordsOfJoin | src/components/AddBookmarkDialog.tsx:99 | Splitting words joined by single spaces gives the words back. |
| Text.WordsKeepCharacters | src/components/AddBookmarkDialog.tsx:99 | The pieces hold exactly the input's non-white-space characters, in order. |
| Seqs.Filter | src/hooks/useBookmarks.ts:221 | `filter` keeps exactly the elements passing the test, and is never longer than its input. |
| Seqs.FilterMultiset | src/hooks/useBookmarks.ts:221 | `filter` keeps every copy of an accepted element and none of a rejected one. |
| AddDialog.WithScheme | src/components/AddBookmarkDialog.tsx:59-62 | The result has a scheme, ends with the input, and is the input when that already had one. |
| AddDialog.NormalizeUrl | src/components/AddBookmarkDialog.tsx:122-126 | The stored url has a scheme and ends with the trimmed field. |
| AddDialog.NormalizeIdempotent | src/components/AddBookmarkDialog.tsx:122-126 | Normalizing a normalized url changes nothing. |
| AddDialog.TitleFromHost | src/components/AddBookmarkDialog.tsx:74-83 | The title made from a host has no dot. |
| AddDialog.TitleIgnoresWww | src/components/AddBookmarkDialog.tsx:76 | A leading "www." does not change the title. |
| AddDialog.TitleDropsFirstWww | src/components/AddBookmarkDialog.tsx:141 | The first "www." is removed even when it is not at the start: after a prefix with no `w` and no dot, the title is the prefix and what follows the "www." up to its first dot, with the first letter upper-cased. |
| AddDialog.Submit | src/components/AddBookmarkDialog.tsx:118-158 | Ignored exactly when the url or folder is empty. Invalid exactly when the normalized url does not parse. Otherwise it hands on the normalized url, the trimmed title or one made from the host, and the icon, folder and tags. |
| AddDialog.SubmitNormalized | src/components/AddBookmarkDialog.tsx:118-134 | Submitting the normalized url has the same outcome as submitting what was typed. |
| AddDialog.InitialFolder | src/components/AddBookmarkDialog.tsx:35 | The selected folder when there is one, otherwise non-empty ("root"). |
| AddDialog.AddBookmarkForm.constructor | src/components/AddBookmarkDialog.tsx:32-41 | Empty fields, no tags, and the initial folder. |
| AddDialog.AddBookmarkForm.Reset | src/components/AddBookmarkDialog.tsx:44-55 | Clears the form. The inline new-folder name and parent are kept. |
| AddDialog.AddBookmarkForm.FetchSiteInfo | src/components/AddBookmarkDialog.tsx:58-90 | For a url that parses, the icon becomes `getFavicon` of it and a blank title becomes the title from the host. Otherwise nothing changes. |
| AddDialog.AddBookmarkForm.HandleUrlBlur | src/components/AddBookmarkDialog.tsx:58-96 | With a url, an empty or "unknown site" title and a url that parses, the icon becomes the host's favicon and an empty title becomes the title made from the host; an "unknown site" title is never replaced. In every other case icon and title are unchanged. |
| AddDialog.AddBookmarkForm.HandleAddTag | src/components/AddBookmarkDialog.tsx:98-102 | Appends the white-space separated words as tags, which hold exactly the field's non-space characters. Clears the field. |
| AddDialog.AddBookmarkForm.HandleRemoveTag | src/components/AddBookmarkDialog.tsx:104-106 | Every copy of the tag goes. The other tags stay, in their order. |
| AddDialog.AddBookmarkForm.OpenNewFolder | src/components/AddBookmarkDialog.tsx:240-243 | The inline "new folder" form opens with the top level as parent; the typed name and the bookmark fields are kept. |
| AddDialog.AddBookmarkForm.CancelNewFolder | src/components/AddBookmarkDialog.tsx:276-280 | The inline form closes with its name cleared and the top level as parent; the bookmark fields are kept. |
| AddDialog.AddBookmarkForm.HandleCreateFolder | src/components/AddBookmarkDialog.tsx:108-116 | With a non-blank name the store gains the folder, created and ordered by two clock readings, and the form files into it. With a blank name nothing changes. |
| AddDialog.AddBookmarkForm.HandleSubmit | src/components/AddBookmarkDialog.tsx:118-158 | Outcome as `Submit`. An accepted form always becomes exactly one new unstarred bookmark with the form's folder and tags. Otherwise the bookmarks are unchanged. |
| Sidebar.PaddingLeft | src/components/Sidebar.tsx:194 | The padding is 8 plus 12 per level, and gives the level back. |
| Sidebar.Prune | src/components/Sidebar.tsx:184-358 | One row per node of a level. |
| Sidebar.RenderIsPrunedTree | src/components/Sidebar.tsx:184-358 | The rendered rows are the store's folder tree with collapsed folders' subtrees hidden, each level one deeper. |
| Sidebar.EachIsPruned | src/components/Sidebar.tsx:188-358 | The row for each folder on a level is its pruned tree node. |
| Sidebar.SidebarRenders | src/components/Sidebar.tsx:464 | With unique ids the whole sidebar renders. |
| Sidebar.BookmarkCount | src/components/Sidebar.tsx:180-182 | The count is at most the number of bookmarks. |
| Sidebar.BookmarkCountAppend | src/components/Sidebar.tsx:180-182 | A new bookmark raises the count exactly when it is filed directly in the folder. |
| Sidebar.CountAtMostListing | src/components/Sidebar.tsx:180-182 | A folder's count never exceeds the bookmarks listed when it is selected. |
| Sidebar.StarredCount | src/components/Sidebar.tsx:362 | The starred count is at most the number of bookmarks. |
| Sidebar.StarredCountAppend | src/components/Sidebar.tsx:362 | A new bookmark raises the starred count exactly when it is starred. |
| Sidebar.MoveTargets | src/components/Sidebar.tsx:535-537 | The move dialog lists exactly the folders other than the one being moved. |
| Sidebar.MoveTargetsOfferChild | src/components/Sidebar.tsx:535-546 | The dialog offers the folder's own child, and choosing it creates a cycle. |
| Sidebar.RowClick | src/components/Sidebar.tsx:212-218 | In batch mode a row click toggles the folder's selection. Otherwise it selects the folder. |
| Sidebar.SidebarState.constructor | src/components/Sidebar.tsx:63-77 | All local state starts empty or closed, with "position" as the drag action. |
| Sidebar.SidebarState.OpenMenu | src/components/Sidebar.tsx:286-296 | Opens the folder's menu. Nothing else changes. |
| Sidebar.SidebarState.MenuOpenChange | src/components/Sidebar.tsx:286 | Closing the menu clears `openMenuId`; an open request leaves it as it is. Nothing else changes. |
| Sidebar.SidebarState.MenuAddSubfolder | src/components/Sidebar.tsx:303-307 | Opens the add dialog for the folder and closes the menu. |
| Sidebar.SidebarState.MenuRename | src/components/Sidebar.tsx:313-318 | Starts editing with the current name and closes the menu. |
| Sidebar.SidebarState.MenuMove | src/components/Sidebar.tsx:324-329 | Opens the move dialog for the folder and closes the menu. |
| Sidebar.SidebarState.MenuDelete | src/components/Sidebar.tsx:336-341 | Requests deleting the folder and closes the menu. |
| Sidebar.SidebarState.HandleRenameFolder | src/components/Sidebar.tsx:122-128 | A non-blank name is sent trimmed and editing ends. A blank one changes nothing. |
| Sidebar.SidebarState.CancelEditing | src/components/Sidebar.tsx:268-271 | Escape ends editing. |
| Sidebar.SidebarState.CreateSubfolder | src/components/Sidebar.tsx:489-497 | With a non-blank name and a parent, requests the folder and closes the dialog. Otherwise nothing changes. |
| Sidebar.SidebarState.CancelAddDialog | src/components/Sidebar.tsx:501-507 | Closes the dialog and clears the name. |
| Sidebar.SidebarState.DismissAddDialog | src/components/Sidebar.tsx:471 | Closes the dialog and keeps the typed name. |
| Sidebar.SidebarState.ChooseMoveTarget | src/components/Sidebar.tsx:525-546 | Requests the move when a folder is being moved. Closes the dialog either way. |
| Sidebar.SidebarState.DismissMoveDialog | src/components/Sidebar.tsx:517 | Closes the dialog and keeps the folder. |
| Sidebar.SidebarState.HandleDragStart | src/components/Sidebar.tsx:130-133 | Remembers the dragged folder. |
| Sidebar.SidebarState.HandleDragOver | src/components/Sidebar.tsx:135-139 | Remembers the folder dragged over. |
| Sidebar.SidebarState.HandleDragLeave | src/components/Sidebar.tsx:141-143 | Forgets the folder dragged over. |
| Sidebar.SidebarState.HandleDrop | src/components/Sidebar.tsx:145-156 | With a dragged folder: proposes "hierarchy" exactly for a drop on another folder, opens the confirmation, and forgets the dragged folder and the target. |
| Sidebar.SidebarState.SetDragAction | src/components/Sidebar.tsx:567-580 | Sets the drag action. |
| Sidebar.SidebarState.ConfirmDragAction | src/components/Sidebar.tsx:158-164 | For "hierarchy" with a dragged folder, requests moving it under the folder dragged over. Closes the dialog either way. |
| Sidebar.SidebarState.DismissDragConfirm | src/components/Sidebar.tsx:597-603 | Closes the confirmation without a request. |
| Sidebar.SidebarState.DragOntoFolder | src/components/Sidebar.tsx:130-164 | As written, a whole drag onto another folder with "hierarchy" confirmed never requests a move. |
| Sidebar.SidebarState.HandleDropKeeping | src/components/Sidebar.tsx:145-156 | The corrected drop keeps the dragged folder and the target until confirmation. |
| Sidebar.SidebarState.DragOntoFolderKeeping | src/components/Sidebar.tsx:130-164 | With the corrected drop, the same drag requests moving the dragged folder under the target. |
| Sidebar.SidebarState.TouchStart | src/components/Sidebar.tsx:82-86 | Records the start point and clears the swipe mark. |
| Sidebar.SidebarState.TouchMove | src/components/Sidebar.tsx:88-96 | The swipe mark is set exactly when it was set or the move is a swipe (horizontal, more than 50, wider than tall). |
| Sidebar.SidebarState.TouchEnd | src/components/Sidebar.tsx:98-109 | After a swipe it toggles exactly when the finger ended more than 100 right while closed, or more than 100 left while open. The mark is cleared. |

## Left out

- Persistence is not modelled: `localStorage`, `JSON.stringify`/`JSON.parse` and `saveToStorage`. In the source some saves write a stale copy of the other collection:
  - `deleteFolder` saves the old folders with the new bookmarks;
  - `addBookmark`, `updateBookmark`, `deleteBookmark` and `moveBookmark` save the `folders` they captured at their last render.
- Store.BookmarkStore.constructor: stored data is taken as already parsed. A missing or empty entry is `None`, and malformed JSON (which throws) is not modelled.
- `uuidv4()`, `Date.now()` and `new URL(...).hostname` are parameters:
  - uniqueness of ids is assumed where a lemma needs it (`UniqueIds`);
  - hostname extraction is the `parseHost` function, not modelled in itself.
- `copyUrl` and `handleCopyUrl` are left out because the clipboard is I/O. So are `handleOpenUrl` (`window.open`), toasts and `alert`.
- Clock readings are arbitrary integers: nothing assumes they never decrease. A `map` or `filter` that reads the clock once per changed element reads `clock(i)` at position `i`. That allows more behaviours than the source has.
- `toLowerCase` and `toUpperCase` map only the ASCII letters A–Z/a–z. Full Unicode case mapping is not modelled.
- JavaScript numbers are unbounded integers: timestamps, `order` and touch coordinates. Floating-point rounding and non-integer `order` values are not modelled.
- Async timing is not modelled:
  - `isLoading` in the add form;
  - the 500 ms long-press timer, which is treated as the press completing (`OpenMenu`);
  - the order in which React runs effects. The theme's effects are assumed to have settled (`ThemeState.Valid`).
- `matchMedia`, `document.documentElement.classList` and the theme's storage write are platform calls. The system preference is the field `systemDark`.
- Presentation is left out:
  - JSX layout, class names and icons;
  - the header, `BookmarkList`, `EditBookmarkDialog`, `MoveBookmarkDialog` and `Mascot` components, and the offline service worker;
  - the page's own dialog flags (`isAddDialogOpen`, `editingBookmark`, `movingBookmarks`).
- `handleAddBookmark`, `handleUpdateBookmark`, `handleMoveBookmarks`, `handleEdit`, `handleMove` and `handleBatchMove` only forward to store methods modelled above and set dialog flags. They have no members of their own.
- `handleBatchMoveFolders` only shows a message.
- The sidebar's plain forwarders have no members of their own: the expand button (src/components/Sidebar.tsx:239-243, `onToggleFolderExpanded`, modelled as `Store.BookmarkStore.ToggleFolderExpanded`), the "starred" and "root" rows (src/components/Sidebar.tsx:439, 456, modelled as `App.AppComponent.HandleSelectFolder`) and the folder batch header buttons (src/components/Sidebar.tsx:393-422, modelled as the `App.AppComponent` folder batch handlers).
- The page passes the sidebar an `onMoveFolder` that does nothing (src/App.tsx:222). Moves requested by the sidebar's move dialog and drag and drop therefore never reach the store. `Store.BookmarkStore.MoveFolder` models the store operation itself.
- Drag and drop with "position" has no effect in the source ("would need reordering logic"), so none is modelled.
- The recursions of `addChildren`, `buildTree` and `renderFolderTree` are bounded by `fuel`. `None` stands for a recursion that never returns, which in the browser ends with a stack overflow. The depth at which a real engine overflows is not modelled. The model proves that a bound of `|folders| + 1` is enough whenever any bound is.
- AddDialog.AddBookmarkForm.HandleAddTag: its contract does not state the round trip for tags typed one space apart. That round trip is proved about `Text.Words` as `Text.WordsOfJoin`.
- AddDialog.TitleFromHost: the `catch` fallback "unknown site" in `fetchSiteInfo` and the fallback to the url in `handleSubmit` are unreachable. Replacing and splitting a string never throw, so the model has no such branch.
- App.AllTags: the engine's `sort()` compares UTF-16 code units. Here strings are sequences of code points ordered by code point. The two orders differ only for characters outside the Basic Multilingual Plane.

## Findings

| source | as written | input that shows it | evidently intended | confidence | as-written member | corrected member |
|---|---|---|---|---|---|---|
| src/components/Sidebar.tsx:145-164 | `handleDrop` clears `draggedFolderId` and `dragOverFolderId` before the confirmation dialog is answered. `confirmDragAction` then finds no dragged folder and never calls `onMoveFolder`. | Drag folder "dev" onto "personal", keep "hierarchy" and confirm. No move is requested. | The dragged folder and the target are kept until the confirmation, which then moves the dragged folder under the target. | not executed | Sidebar.SidebarState.DragOntoFolder | Sidebar.SidebarState.DragOntoFolderKeeping |
