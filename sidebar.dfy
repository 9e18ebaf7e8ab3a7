/** The folder sidebar (src/components/Sidebar.tsx): the rows it renders, the counts it shows, the
    folder menu with its rename, add-subfolder and move dialogs, drag and drop between folders, and
    the swipe that opens and closes it. The sidebar changes no bookmark data itself: it asks the
    app through callbacks, modelled as the `Request` values its handlers return. */
module Sidebar {
  import opened Types
  import opened Seqs
  import opened Text
  import opened FolderGraph
  import opened Query
  import opened Records
  import opened Tree

  /** A call of one of the sidebar's callback props. */
  datatype Request =
    | SelectFolder(id: string)                            // onSelectFolder
    | ToggleFolderSelection(id: string)                   // onToggleFolderSelection
    | CreateFolder(name: string, parent: string)          // onCreateFolder
    | RenameFolder(id: string, name: string)              // onRenameFolder
    | DeleteFolder(id: string)                            // onDeleteFolder
    | MoveFolder(id: string, parentId: Option<string>)    // onMoveFolder

  /** What the drag confirmation dialog offers. */
  datatype DragAction = Position | Hierarchy

  /** A rendered folder row: the folder, its depth, and the rows shown under it. */
  datatype Row = Row(folder: Folder, level: nat, children: seq<Row>)

  /** The left padding of a row, in pixels. */
  function PaddingLeft(level: nat): (r: nat)
    ensures r >= 8 && (r - 8) % 12 == 0 && (r - 8) / 12 == level
  {
    level * 12 + 8
  }

  /** `renderFolderTree(parentId, level)`: the children of `parentId` in `order`, each followed by
      its own rows when it is expanded. `None` stands for a render that never returns. */
  function Render(folders: seq<Folder>, parentId: Option<string>, level: nat, fuel: nat): Option<seq<Row>>
    decreases fuel, 0
  {
    if fuel == 0 then None else RenderEach(folders, ChildrenOf(folders, parentId), level, fuel - 1)
  }

  function RenderEach(folders: seq<Folder>, fs: seq<Folder>, level: nat, fuel: nat): Option<seq<Row>>
    decreases fuel, |fs| + 1
  {
    if fs == [] then Some([])
    else
      var below := if fs[0].isExpanded then Render(folders, Some(fs[0].id), level + 1, fuel) else Some([]);
      match below
      case None => None
      case Some(children) =>
        match RenderEach(folders, fs[1..], level, fuel)
        case None => None
        case Some(rest) => Some([Row(fs[0], level, children)] + rest)
  }

  /** The rows of a folder tree with the subtrees of collapsed folders hidden. */
  function Prune(ts: seq<TreeNode>, level: nat): (r: seq<Row>)
    ensures |r| == |ts|
    decreases ts
  {
    if ts == [] then [] else [PruneNode(ts[0], level)] + Prune(ts[1..], level)
  }

  function PruneNode(t: TreeNode, level: nat): Row
    decreases t
  {
    Row(t.folder, level, if t.folder.isExpanded then Prune(t.children, level + 1) else [])
  }

  /** Where the store's folder tree exists, the sidebar shows that tree with the children of
      collapsed folders hidden and each level one deeper than its parent. */
  lemma {:induction false} RenderIsPrunedTree(folders: seq<Folder>, u: Option<string>, level: nat, fuel: nat, ts: seq<TreeNode>)
    requires BuildTree(folders, u, fuel) == Some(ts)
    ensures Render(folders, u, level, fuel) == Some(Prune(ts, level))
    decreases fuel, 0
  {
    EachIsPruned(folders, ChildrenOf(folders, u), level, fuel - 1, ts);
  }

  lemma {:induction false} EachIsPruned(folders: seq<Folder>, fs: seq<Folder>, level: nat, fuel: nat, ts: seq<TreeNode>)
    requires BuildEach(folders, fs, fuel) == Some(ts)
    ensures RenderEach(folders, fs, level, fuel) == Some(Prune(ts, level))
    decreases fuel, |fs| + 1
  {
    if fs != [] {
      var children := BuildTree(folders, Some(fs[0].id), fuel).value;
      var rest := BuildEach(folders, fs[1..], fuel).value;
      assert ts == [TreeNode(fs[0], children)] + rest;
      if fs[0].isExpanded {
        RenderIsPrunedTree(folders, Some(fs[0].id), level + 1, fuel, children);
      }
      EachIsPruned(folders, fs[1..], level, fuel, rest);
      assert ts[1..] == rest;
    }
  }

  /** With unique folder ids the whole sidebar renders, starting from the top-level folders. */
  lemma SidebarRenders(folders: seq<Folder>)
    requires UniqueIds(folders)
    ensures FolderTree(folders).Some?
    ensures Render(folders, None, 0, |folders| + 1) == Some(Prune(FolderTree(folders).value, 0))
  {
    UniqueIdsTreeExists(folders);
    RenderIsPrunedTree(folders, None, 0, |folders| + 1, FolderTree(folders).value);
  }

  /** The test of `getBookmarkCount`. */
  function InFolder(id: string): Bookmark -> bool {
    (b: Bookmark) => b.folderId == id
  }

  /** `getBookmarkCount`: the bookmarks filed directly in the folder. */
  function BookmarkCount(bookmarks: seq<Bookmark>, folderId: string): (r: nat)
    ensures r <= |bookmarks|
  {
    |Filter(bookmarks, InFolder(folderId))|
  }

  /** The count grows by one exactly for a bookmark filed directly in the folder, and bookmarks in
      subfolders are not counted. */
  lemma BookmarkCountAppend(bookmarks: seq<Bookmark>, b: Bookmark, folderId: string)
    ensures BookmarkCount(bookmarks + [b], folderId) == BookmarkCount(bookmarks, folderId) + (if b.folderId == folderId then 1 else 0)
  {
    FilterConcat(bookmarks, [b], InFolder(folderId));
  }

  /** The count next to a folder is never more than the bookmarks listed when it is selected, which
      include those of its subfolders. */
  lemma CountAtMostListing(folders: seq<Folder>, bookmarks: seq<Bookmark>, folderId: string)
    requires Scope(folders, bookmarks, Some(folderId)).Some?
    ensures BookmarkCount(bookmarks, folderId) <= |Scope(folders, bookmarks, Some(folderId)).value|
  {
    if !ScopeSkipped(Some(folderId)) {
      ScopeIdsSpec(folders, folderId);
      var ids := ScopeIds(folders, folderId).value;
      FilterWeaker(bookmarks, InFolder(folderId), InFolders(ids));
    }
  }

  /** The test of `starredCount`. */
  function IsStarred(): Bookmark -> bool {
    (b: Bookmark) => b.starred
  }

  /** `starredCount`: the starred bookmarks. */
  function StarredCount(bookmarks: seq<Bookmark>): (r: nat)
    ensures r <= |bookmarks|
  {
    |Filter(bookmarks, IsStarred())|
  }

  /** The starred count grows by one exactly for a starred bookmark. */
  lemma StarredCountAppend(bookmarks: seq<Bookmark>, b: Bookmark)
    ensures StarredCount(bookmarks + [b]) == StarredCount(bookmarks) + (if b.starred then 1 else 0)
  {
    FilterConcat(bookmarks, [b], IsStarred());
  }

  /** The test of the move dialog's list. */
  function NotMoving(moving: Option<string>): Folder -> bool {
    (f: Folder) => Some(f.id) != moving
  }

  /** The destinations the move dialog lists: every folder but the one being moved. */
  function MoveTargets(folders: seq<Folder>, moving: Option<string>): (r: seq<Folder>)
    ensures forall f :: f in r <==> f in folders && Some(f.id) != moving
  {
    Filter(folders, NotMoving(moving))
  }

  /** The move dialog also lists the folder's own children, and choosing one of them as the new
      parent would close a cycle in the hierarchy. */
  lemma MoveTargetsOfferChild(folders: seq<Folder>, a: int, c: int)
    requires 0 <= a < |folders| && 0 <= c < |folders|
    requires folders[c].parentId == Some(folders[a].id) && folders[c].id != folders[a].id
    ensures folders[c] in MoveTargets(folders, Some(folders[a].id))
    ensures ReachesCycle(Records.MoveFolder(folders, folders[a].id, Some(folders[c].id)), Some(folders[a].id))
  {
    MoveUnderChildMakesCycle(folders, a, c);
  }

  /** A click on a folder row: in batch mode it toggles the folder's selection, otherwise it
      selects the folder. */
  function RowClick(folderId: string, isBatchMode: bool): (r: Request)
    ensures !r.CreateFolder? && r.id == folderId
    ensures r.ToggleFolderSelection? <==> isBatchMode
    ensures r.SelectFolder? <==> !isBatchMode
  {
    if isBatchMode then ToggleFolderSelection(folderId) else SelectFolder(folderId)
  }

  /** A horizontal move of more than 50 that is wider than it is tall counts as a swipe. */
  predicate IsSwipe(dx: int, dy: int) {
    var ax := if dx < 0 then -dx else dx;
    var ay := if dy < 0 then -dy else dy;
    ax > ay && ax > 50
  }

  /** The sidebar's local state. Touch coordinates are whole pixels here. */
  class SidebarState {
    var newFolderName: string
    var editingFolderId: Option<string>
    var editingFolderName: string
    var showMoveDialog: bool
    var folderToMove: Option<string>
    var showAddDialog: Option<string>
    var draggedFolderId: Option<string>
    var dragOverFolderId: Option<string>
    var showDragConfirm: bool
    var dragAction: DragAction
    var openMenuId: Option<string>
    var touchStartX: int
    var touchStartY: int
    var isSwiping: bool

    constructor ()
      ensures newFolderName == "" && editingFolderId == None && editingFolderName == ""
      ensures !showMoveDialog && folderToMove == None && showAddDialog == None
      ensures draggedFolderId == None && dragOverFolderId == None && !showDragConfirm && dragAction == Position
      ensures openMenuId == None && touchStartX == 0 && touchStartY == 0 && !isSwiping
    {
      newFolderName, editingFolderId, editingFolderName := "", None, "";
      showMoveDialog, folderToMove, showAddDialog := false, None, None;
      draggedFolderId, dragOverFolderId, showDragConfirm, dragAction := None, None, false, Position;
      openMenuId, touchStartX, touchStartY, isSwiping := None, 0, 0, false;
    }

    /** The folder menu opens: from its button, a right click, or a long press. */
    method OpenMenu(folderId: string)
      modifies this
      ensures openMenuId == Some(folderId)
      ensures unchanged(this`newFolderName, this`editingFolderId, this`editingFolderName, this`showMoveDialog, this`folderToMove)
      ensures unchanged(this`showAddDialog, this`draggedFolderId, this`dragOverFolderId, this`showDragConfirm, this`dragAction)
      ensures unchanged(this`touchStartX, this`touchStartY, this`isSwiping)
    {
      openMenuId := Some(folderId);
    }

    /** The menu's `onOpenChange`: a close request clears `openMenuId`; an open request changes
        nothing, since the menu button itself opens the menu. */
    method MenuOpenChange(open: bool)
      modifies this
      ensures openMenuId == (if open then old(openMenuId) else None)
      ensures unchanged(this`newFolderName, this`editingFolderId, this`editingFolderName, this`showMoveDialog, this`folderToMove)
      ensures unchanged(this`showAddDialog, this`draggedFolderId, this`dragOverFolderId, this`showDragConfirm, this`dragAction)
      ensures unchanged(this`touchStartX, this`touchStartY, this`isSwiping)
    {
      if !open {
        openMenuId := None;
      }
    }

    /** "Add subfolder": opens the add dialog for this parent. */
    method MenuAddSubfolder(folderId: string)
      modifies this
      ensures showAddDialog == Some(folderId) && openMenuId == None
      ensures unchanged(this`newFolderName, this`editingFolderId, this`editingFolderName, this`showMoveDialog, this`folderToMove)
      ensures unchanged(this`draggedFolderId, this`dragOverFolderId, this`showDragConfirm, this`dragAction)
      ensures unchanged(this`touchStartX, this`touchStartY, this`isSwiping)
    {
      showAddDialog := Some(folderId);
      openMenuId := None;
    }

    /** "Rename": the row turns into an input holding the current name. */
    method MenuRename(folder: Folder)
      modifies this
      ensures editingFolderId == Some(folder.id) && editingFolderName == folder.name && openMenuId == None
      ensures unchanged(this`newFolderName, this`showMoveDialog, this`folderToMove, this`showAddDialog)
      ensures unchanged(this`draggedFolderId, this`dragOverFolderId, this`showDragConfirm, this`dragAction)
      ensures unchanged(this`touchStartX, this`touchStartY, this`isSwiping)
    {
      editingFolderId := Some(folder.id);
      editingFolderName := folder.name;
      openMenuId := None;
    }

    /** "Move": opens the move dialog for this folder. */
    method MenuMove(folderId: string)
      modifies this
      ensures folderToMove == Some(folderId) && showMoveDialog && openMenuId == None
      ensures unchanged(this`newFolderName, this`editingFolderId, this`editingFolderName, this`showAddDialog)
      ensures unchanged(this`draggedFolderId, this`dragOverFolderId, this`showDragConfirm, this`dragAction)
      ensures unchanged(this`touchStartX, this`touchStartY, this`isSwiping)
    {
      folderToMove := Some(folderId);
      showMoveDialog := true;
      openMenuId := None;
    }

    /** "Delete": asks the app to delete the folder. */
    method MenuDelete(folderId: string) returns (r: Request)
      modifies this
      ensures r == DeleteFolder(folderId) && openMenuId == None
      ensures unchanged(this`newFolderName, this`editingFolderId, this`editingFolderName, this`showMoveDialog, this`folderToMove)
      ensures unchanged(this`showAddDialog, this`draggedFolderId, this`dragOverFolderId, this`showDragConfirm, this`dragAction)
      ensures unchanged(this`touchStartX, this`touchStartY, this`isSwiping)
    {
      r := DeleteFolder(folderId);
      openMenuId := None;
    }

    /** `handleRenameFolder` (Enter in the rename input): a name that is not blank is sent trimmed
        and the input closes; a blank one changes nothing. */
    method HandleRenameFolder(folderId: string) returns (r: Option<Request>)
      modifies this
      ensures Trim(old(editingFolderName)) == "" ==> r == None && unchanged(this)
      ensures Trim(old(editingFolderName)) != "" ==>
        r == Some(RenameFolder(folderId, Trim(old(editingFolderName)))) && editingFolderId == None && editingFolderName == ""
      ensures r.Some? ==> IsTrimmed(r.value.name) && r.value.name != ""
      ensures unchanged(this`newFolderName, this`showMoveDialog, this`folderToMove, this`showAddDialog, this`openMenuId)
      ensures unchanged(this`draggedFolderId, this`dragOverFolderId, this`showDragConfirm, this`dragAction)
      ensures unchanged(this`touchStartX, this`touchStartY, this`isSwiping)
    {
      var name := Trim(editingFolderName);
      if name != "" {
        var _, _ := TrimSpec(editingFolderName);
        r := Some(RenameFolder(folderId, name));
        editingFolderId := None;
        editingFolderName := "";
      } else {
        r := None;
      }
    }

    /** Escape in the rename input. */
    method CancelEditing()
      modifies this
      ensures editingFolderId == None && editingFolderName == ""
      ensures unchanged(this`newFolderName, this`showMoveDialog, this`folderToMove, this`showAddDialog, this`openMenuId)
      ensures unchanged(this`draggedFolderId, this`dragOverFolderId, this`showDragConfirm, this`dragAction)
      ensures unchanged(this`touchStartX, this`touchStartY, this`isSwiping)
    {
      editingFolderId := None;
      editingFolderName := "";
    }

    /** "Create" in the add-subfolder dialog: with a name that is not blank and a parent, the folder
        is requested under that parent and the dialog closes; otherwise nothing changes. */
    method CreateSubfolder() returns (r: Option<Request>)
      modifies this
      ensures Trim(old(newFolderName)) != "" && Truthy(old(showAddDialog)) ==>
        r == Some(CreateFolder(Trim(old(newFolderName)), old(showAddDialog).value)) &&
        newFolderName == "" && showAddDialog == None
      ensures Trim(old(newFolderName)) == "" || !Truthy(old(showAddDialog)) ==> r == None && unchanged(this)
      ensures unchanged(this`editingFolderId, this`editingFolderName, this`showMoveDialog, this`folderToMove, this`openMenuId)
      ensures unchanged(this`draggedFolderId, this`dragOverFolderId, this`showDragConfirm, this`dragAction)
      ensures unchanged(this`touchStartX, this`touchStartY, this`isSwiping)
    {
      var name := Trim(newFolderName);
      if name != "" && Truthy(showAddDialog) {
        r := Some(CreateFolder(name, showAddDialog.value));
        newFolderName := "";
        showAddDialog := None;
      } else {
        r := None;
      }
    }

    /** "Cancel" in the add-subfolder dialog. Closing the dialog any other way keeps the typed
        name (`DismissAddDialog`). */
    method CancelAddDialog()
      modifies this
      ensures newFolderName == "" && showAddDialog == None
      ensures unchanged(this`editingFolderId, this`editingFolderName, this`showMoveDialog, this`folderToMove, this`openMenuId)
      ensures unchanged(this`draggedFolderId, this`dragOverFolderId, this`showDragConfirm, this`dragAction)
      ensures unchanged(this`touchStartX, this`touchStartY, this`isSwiping)
    {
      newFolderName := "";
      showAddDialog := None;
    }

    method DismissAddDialog()
      modifies this
      ensures showAddDialog == None
      ensures unchanged(this`newFolderName, this`editingFolderId, this`editingFolderName, this`showMoveDialog, this`folderToMove, this`openMenuId)
      ensures unchanged(this`draggedFolderId, this`dragOverFolderId, this`showDragConfirm, this`dragAction)
      ensures unchanged(this`touchStartX, this`touchStartY, this`isSwiping)
    {
      showAddDialog := None;
    }

    /** A destination in the move dialog: `None` is "top level", otherwise a folder of
        `MoveTargets`. The move is requested when a folder is being moved, and the dialog closes
        either way. */
    method ChooseMoveTarget(target: Option<string>) returns (r: Option<Request>)
      modifies this
      ensures Truthy(old(folderToMove)) ==> r == Some(MoveFolder(old(folderToMove).value, target))
      ensures !Truthy(old(folderToMove)) ==> r == None
      ensures !showMoveDialog && folderToMove == None
      ensures unchanged(this`newFolderName, this`editingFolderId, this`editingFolderName, this`showAddDialog, this`openMenuId)
      ensures unchanged(this`draggedFolderId, this`dragOverFolderId, this`showDragConfirm, this`dragAction)
      ensures unchanged(this`touchStartX, this`touchStartY, this`isSwiping)
    {
      r := if Truthy(folderToMove) then Some(MoveFolder(folderToMove.value, target)) else None;
      showMoveDialog := false;
      folderToMove := None;
    }

    /** The move dialog closed without a choice: the folder stays remembered. */
    method DismissMoveDialog()
      modifies this
      ensures !showMoveDialog
      ensures unchanged(this`newFolderName, this`editingFolderId, this`editingFolderName, this`folderToMove, this`showAddDialog, this`openMenuId)
      ensures unchanged(this`draggedFolderId, this`dragOverFolderId, this`showDragConfirm, this`dragAction)
      ensures unchanged(this`touchStartX, this`touchStartY, this`isSwiping)
    {
      showMoveDialog := false;
    }

    /** `handleDragStart`. */
    method HandleDragStart(folderId: string)
      modifies this
      ensures draggedFolderId == Some(folderId)
      ensures unchanged(this`newFolderName, this`editingFolderId, this`editingFolderName, this`showMoveDialog, this`folderToMove)
      ensures unchanged(this`showAddDialog, this`openMenuId, this`dragOverFolderId, this`showDragConfirm, this`dragAction)
      ensures unchanged(this`touchStartX, this`touchStartY, this`isSwiping)
    {
      draggedFolderId := Some(folderId);
    }

    /** `handleDragOver`. */
    method HandleDragOver(folderId: Option<string>)
      modifies this
      ensures dragOverFolderId == folderId
      ensures unchanged(this`newFolderName, this`editingFolderId, this`editingFolderName, this`showMoveDialog, this`folderToMove)
      ensures unchanged(this`showAddDialog, this`openMenuId, this`draggedFolderId, this`showDragConfirm, this`dragAction)
      ensures unchanged(this`touchStartX, this`touchStartY, this`isSwiping)
    {
      dragOverFolderId := folderId;
    }

    /** `handleDragLeave`. */
    method HandleDragLeave()
      modifies this
      ensures dragOverFolderId == None
      ensures unchanged(this`newFolderName, this`editingFolderId, this`editingFolderName, this`showMoveDialog, this`folderToMove)
      ensures unchanged(this`showAddDialog, this`openMenuId, this`draggedFolderId, this`showDragConfirm, this`dragAction)
      ensures unchanged(this`touchStartX, this`touchStartY, this`isSwiping)
    {
      dragOverFolderId := None;
    }

    /** `handleDrop`, as written: with a folder being dragged it proposes "hierarchy" for a drop on
        another folder and "position" otherwise, opens the confirmation, and forgets both the
        dragged folder and the drop target. */
    method HandleDrop(target: Option<string>)
      modifies this
      ensures !Truthy(old(draggedFolderId)) ==> unchanged(this)
      ensures Truthy(old(draggedFolderId)) ==>
        showDragConfirm && draggedFolderId == None && dragOverFolderId == None &&
        (dragAction == Hierarchy <==> Truthy(target) && target != old(draggedFolderId))
      ensures unchanged(this`newFolderName, this`editingFolderId, this`editingFolderName, this`showMoveDialog, this`folderToMove)
      ensures unchanged(this`showAddDialog, this`openMenuId, this`touchStartX, this`touchStartY, this`isSwiping)
    {
      if Truthy(draggedFolderId) {
        dragAction := if Truthy(target) && draggedFolderId != target then Hierarchy else Position;
        showDragConfirm := true;
        draggedFolderId := None;
        dragOverFolderId := None;
      }
    }

    /** A choice in the confirmation dialog. */
    method SetDragAction(action: DragAction)
      modifies this
      ensures dragAction == action
      ensures unchanged(this`newFolderName, this`editingFolderId, this`editingFolderName, this`showMoveDialog, this`folderToMove)
      ensures unchanged(this`showAddDialog, this`openMenuId, this`draggedFolderId, this`dragOverFolderId, this`showDragConfirm)
      ensures unchanged(this`touchStartX, this`touchStartY, this`isSwiping)
    {
      dragAction := action;
    }

    /** `confirmDragAction`: for "hierarchy" with a folder being dragged, moves it under the folder
        dragged over; the dialog closes either way. */
    method ConfirmDragAction() returns (r: Option<Request>)
      modifies this
      ensures Truthy(old(draggedFolderId)) && old(dragAction) == Hierarchy ==>
        r == Some(MoveFolder(old(draggedFolderId).value, old(dragOverFolderId)))
      ensures !Truthy(old(draggedFolderId)) || old(dragAction) != Hierarchy ==> r == None
      ensures !showDragConfirm
      ensures unchanged(this`newFolderName, this`editingFolderId, this`editingFolderName, this`showMoveDialog, this`folderToMove)
      ensures unchanged(this`showAddDialog, this`openMenuId, this`draggedFolderId, this`dragOverFolderId, this`dragAction)
      ensures unchanged(this`touchStartX, this`touchStartY, this`isSwiping)
    {
      r := if Truthy(draggedFolderId) && dragAction == Hierarchy then Some(MoveFolder(draggedFolderId.value, dragOverFolderId)) else None;
      showDragConfirm := false;
    }

    /** The confirmation dialog closed without confirming. */
    method DismissDragConfirm()
      modifies this
      ensures !showDragConfirm
      ensures unchanged(this`newFolderName, this`editingFolderId, this`editingFolderName, this`showMoveDialog, this`folderToMove)
      ensures unchanged(this`showAddDialog, this`openMenuId, this`draggedFolderId, this`dragOverFolderId, this`dragAction)
      ensures unchanged(this`touchStartX, this`touchStartY, this`isSwiping)
    {
      showDragConfirm := false;
    }

    /** A whole drag as written: drag one folder over another, drop it there, keep "hierarchy" and
        confirm. The drop has already forgotten the dragged folder, so no move is ever requested. */
    method DragOntoFolder(source: string, target: string) returns (r: Option<Request>)
      modifies this
      ensures r == None
    {
      HandleDragStart(source);
      HandleDragOver(Some(target));
      HandleDrop(Some(target));
      SetDragAction(Hierarchy);
      r := ConfirmDragAction();
    }

    /** `handleDrop` as evidently intended: the dragged folder and the drop target are kept until
        the confirmation, so that it can move one under the other. */
    method HandleDropKeeping(target: Option<string>)
      modifies this
      ensures !Truthy(old(draggedFolderId)) ==> unchanged(this)
      ensures Truthy(old(draggedFolderId)) ==>
        showDragConfirm && draggedFolderId == old(draggedFolderId) && dragOverFolderId == target &&
        (dragAction == Hierarchy <==> Truthy(target) && target != old(draggedFolderId))
      ensures unchanged(this`newFolderName, this`editingFolderId, this`editingFolderName, this`showMoveDialog, this`folderToMove)
      ensures unchanged(this`showAddDialog, this`openMenuId, this`touchStartX, this`touchStartY, this`isSwiping)
    {
      if Truthy(draggedFolderId) {
        dragAction := if Truthy(target) && draggedFolderId != target then Hierarchy else Position;
        showDragConfirm := true;
        dragOverFolderId := target;
      }
    }

    /** A whole drag with the intended drop: dropping one folder on another and confirming
        "hierarchy" asks to move the dragged folder under the target. */
    method DragOntoFolderKeeping(source: string, target: string) returns (r: Option<Request>)
      modifies this
      ensures source != "" && target != "" ==> r == Some(MoveFolder(source, Some(target)))
    {
      HandleDragStart(source);
      HandleDragOver(Some(target));
      HandleDropKeeping(Some(target));
      SetDragAction(Hierarchy);
      r := ConfirmDragAction();
    }

    /** `handleTouchStart`. */
    method TouchStart(x: int, y: int)
      modifies this
      ensures touchStartX == x && touchStartY == y && !isSwiping
      ensures unchanged(this`newFolderName, this`editingFolderId, this`editingFolderName, this`showMoveDialog, this`folderToMove)
      ensures unchanged(this`showAddDialog, this`openMenuId, this`draggedFolderId, this`dragOverFolderId, this`showDragConfirm, this`dragAction)
    {
      touchStartX, touchStartY, isSwiping := x, y, false;
    }

    /** `handleTouchMove`: a move that is a swipe from the touch's start marks the gesture; a later
        move never clears the mark. */
    method TouchMove(x: int, y: int)
      modifies this
      ensures isSwiping == (old(isSwiping) || IsSwipe(x - touchStartX, y - touchStartY))
      ensures touchStartX == old(touchStartX) && touchStartY == old(touchStartY)
      ensures unchanged(this`newFolderName, this`editingFolderId, this`editingFolderName, this`showMoveDialog, this`folderToMove)
      ensures unchanged(this`showAddDialog, this`openMenuId, this`draggedFolderId, this`dragOverFolderId, this`showDragConfirm, this`dragAction)
    {
      if IsSwipe(x - touchStartX, y - touchStartY) {
        isSwiping := true;
      }
    }

    /** `handleTouchEnd`: after a swipe, the sidebar toggles when the finger ended more than 100 to
        the right of its start while the sidebar is closed, or more than 100 to the left while it is
        open. The gesture mark is cleared. */
    method TouchEnd(x: int, isOpen: bool) returns (toggle: bool)
      modifies this
      ensures toggle <==> old(isSwiping) && (if isOpen then x - touchStartX < -100 else x - touchStartX > 100)
      ensures !isSwiping
      ensures touchStartX == old(touchStartX) && touchStartY == old(touchStartY)
      ensures unchanged(this`newFolderName, this`editingFolderId, this`editingFolderName, this`showMoveDialog, this`folderToMove)
      ensures unchanged(this`showAddDialog, this`openMenuId, this`draggedFolderId, this`dragOverFolderId, this`showDragConfirm, this`dragAction)
    {
      var dx := x - touchStartX;
      toggle := false;
      if isSwiping {
        if dx > 100 && !isOpen {
          toggle := true;
        } else if dx < -100 && isOpen {
          toggle := true;
        }
      }
      isSwiping := false;
    }
  }
}
