/** The records of the bookmark manager (src/types/index.ts). */
module Types {

  /** A value or JavaScript's `null`. */
  datatype Option<+T> = None | Some(value: T)

  /** A saved link. Timestamps are milliseconds since the epoch. */
  datatype Bookmark = Bookmark(
    id: string,
    title: string,
    url: string,
    icon: string,
    folderId: string,
    tags: seq<string>,
    starred: bool,
    createdAt: int,
    updatedAt: int)

  /** A folder of the hierarchy; `parentId == None` is a top-level folder. Folders point to their
      parent, never to their children. */
  datatype Folder = Folder(
    id: string,
    name: string,
    parentId: Option<string>,
    isExpanded: bool,
    createdAt: int,
    order: int)

  /** `Date.now()` as one operation sees it: `clock(k)` is what its `k`-th call returns, counting
      from 0. Nothing is assumed about the values, not even that they never decrease. */
  type Clock = nat -> int

  /** What the add-bookmark form hands to the store. */
  datatype AddBookmarkData = AddBookmarkData(
    url: string,
    title: string,
    icon: string,
    folderId: string,
    tags: seq<string>)

  /** The folder id that the sidebar's "all bookmarks" entry selects. */
  const RootId: string := "root"

  /** JavaScript truthiness of a `string | null`: neither `null` nor the empty string. */
  predicate Truthy(s: Option<string>) {
    s.Some? && s.value != ""
  }
}
