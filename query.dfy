/** The derived bookmark list of the store (`filteredBookmarks`, src/hooks/useBookmarks.ts): a scope
    filter over the selected folder and everything below it, a search filter, and a stable sort that
    puts starred bookmarks first and the most recently updated first within each group. */
module Query {
  import opened Types
  import opened Seqs
  import opened Text
  import opened StableSort
  import opened FolderGraph

  // ---------------------------------------------------------------------------------------------
  // Scope: the descendant closure of `addChildren`

  /** What `addChildren(p)` adds to the id set when its recursion returns within `fuel` nested calls:
      the ids of the children of `p`, each followed by everything its own call adds. `None` means the
      recursion needs more than `fuel` levels. */
  function AddChildren(folders: seq<Folder>, p: string, fuel: nat): Option<set<string>>
    decreases fuel, 0
  {
    if fuel == 0 then None else ChildrenUpTo(folders, p, |folders|, fuel - 1)
  }

  /** The part of `addChildren(p)` that the first `n` iterations of its `forEach` add, each child's
      own call running with `fuel` levels. */
  function ChildrenUpTo(folders: seq<Folder>, p: string, n: nat, fuel: nat): Option<set<string>>
    requires n <= |folders|
    decreases fuel, n + 1
  {
    if n == 0 then Some({})
    else
      match ChildrenUpTo(folders, p, n - 1, fuel)
      case None => None
      case Some(a) =>
        if folders[n - 1].parentId == Some(p) then
          match AddChildren(folders, folders[n - 1].id, fuel)
          case None => None
          case Some(b) => Some(a + {folders[n - 1].id} + b)
        else Some(a)
  }

  /** The first `n` iterations finish exactly when the call for each child among them finishes, and
      they add those children's ids and whatever their calls add. */
  lemma {:induction false} ChildrenUpToSpec(folders: seq<Folder>, p: string, n: nat, fuel: nat)
    requires n <= |folders|
    ensures ChildrenUpTo(folders, p, n, fuel).Some? <==>
      forall i :: 0 <= i < n && folders[i].parentId == Some(p) ==> AddChildren(folders, folders[i].id, fuel).Some?
    ensures ChildrenUpTo(folders, p, n, fuel).Some? ==>
      forall x :: x in ChildrenUpTo(folders, p, n, fuel).value <==>
        exists i :: 0 <= i < n && folders[i].parentId == Some(p) &&
          (x == folders[i].id || x in AddChildren(folders, folders[i].id, fuel).value)
    decreases n
  {
    if n > 0 {
      ChildrenUpToSpec(folders, p, n - 1, fuel);
    }
  }

  /** `addChildren(p)` returns within `fuel` nested calls exactly when the walk down from `p` does. */
  lemma {:induction false} AddChildrenBounded(folders: seq<Folder>, p: string, fuel: nat)
    ensures AddChildren(folders, p, fuel).Some? <==> Bounded(folders, Some(p), fuel)
    decreases fuel
  {
    if fuel > 0 {
      ChildrenUpToSpec(folders, p, |folders|, fuel - 1);
      forall i | 0 <= i < |folders| && folders[i].parentId == Some(p)
        ensures AddChildren(folders, folders[i].id, fuel - 1).Some? <==> Bounded(folders, Some(folders[i].id), fuel - 1)
      {
        AddChildrenBounded(folders, folders[i].id, fuel - 1);
      }
    }
  }

  /** An id that `addChildren(p)` adds is a child's id or is added by that child's call. */
  lemma AddedByChild(folders: seq<Folder>, p: string, fuel: nat, x: string) returns (i: int)
    requires AddChildren(folders, p, fuel).Some? && x in AddChildren(folders, p, fuel).value
    ensures fuel > 0 && 0 <= i < |folders| && folders[i].parentId == Some(p)
    ensures x == folders[i].id ||
      (AddChildren(folders, folders[i].id, fuel - 1).Some? && x in AddChildren(folders, folders[i].id, fuel - 1).value)
  {
    ChildrenUpToSpec(folders, p, |folders|, fuel - 1);
    i :| 0 <= i < |folders| && folders[i].parentId == Some(p) &&
      (x == folders[i].id || x in AddChildren(folders, folders[i].id, fuel - 1).value);
  }

  /** A chain down from `p` to a folder whose id `addChildren(p)` adds. */
  lemma {:induction false} AddedChain(folders: seq<Folder>, p: string, fuel: nat, x: string) returns (cs: seq<int>)
    requires AddChildren(folders, p, fuel).Some? && x in AddChildren(folders, p, fuel).value
    ensures IsChain(folders, Some(p), cs) && |cs| > 0 && folders[cs[|cs| - 1]].id == x
    decreases fuel
  {
    var i := AddedByChild(folders, p, fuel, x);
    if x == folders[i].id {
      cs := [i];
    } else {
      var rest := AddedChain(folders, folders[i].id, fuel - 1, x);
      ChainCons(folders, Some(p), i, rest);
      cs := [i] + rest;
      assert cs[|cs| - 1] == rest[|rest| - 1];
    }
  }

  /** When `addChildren(p)` returns, so does the call for each child, and both that child's id and
      everything its call adds are added. */
  lemma ChildAdded(folders: seq<Folder>, p: string, fuel: nat, i: int)
    requires AddChildren(folders, p, fuel).Some? && 0 <= i < |folders| && folders[i].parentId == Some(p)
    ensures fuel > 0 && AddChildren(folders, folders[i].id, fuel - 1).Some?
    ensures folders[i].id in AddChildren(folders, p, fuel).value
    ensures AddChildren(folders, folders[i].id, fuel - 1).value <= AddChildren(folders, p, fuel).value
  {
    ChildrenUpToSpec(folders, p, |folders|, fuel - 1);
  }

  /** The folder at the end of a chain down from `p` has its id added by `addChildren(p)`. */
  lemma {:induction false} ChainAdded(folders: seq<Folder>, p: string, fuel: nat, cs: seq<int>)
    requires AddChildren(folders, p, fuel).Some? && IsChain(folders, Some(p), cs) && |cs| > 0
    ensures folders[cs[|cs| - 1]].id in AddChildren(folders, p, fuel).value
    decreases |cs|
  {
    ChildAdded(folders, p, fuel, cs[0]);
    if |cs| > 1 {
      ChainTail(folders, Some(p), cs);
      ChainAdded(folders, folders[cs[0]].id, fuel - 1, cs[1..]);
      assert cs[1..][|cs| - 2] == cs[|cs| - 1];
    }
  }

  /** When it returns, `addChildren(p)` adds exactly the ids of the folders below `p`. */
  lemma AddChildrenBelow(folders: seq<Folder>, p: string, fuel: nat)
    requires AddChildren(folders, p, fuel).Some?
    ensures forall x :: x in AddChildren(folders, p, fuel).value <==> IsBelow(folders, Some(p), x)
  {
    forall x ensures x in AddChildren(folders, p, fuel).value <==> IsBelow(folders, Some(p), x) {
      if x in AddChildren(folders, p, fuel).value {
        var cs := AddedChain(folders, p, fuel, x);
      }
      if IsBelow(folders, Some(p), x) {
        var cs :| IsChain(folders, Some(p), cs) && |cs| > 0 && folders[cs[|cs| - 1]].id == x;
        ChainAdded(folders, p, fuel, cs);
      }
    }
  }

  /** `addChildren(p)` runs the loop below and calls itself for each child. The set `ids` is the
      mutable `folderIds` the calls share; it comes back with what the call adds, or `None` when the
      recursion needs more than `fuel` levels. */
  method CollectChildren(folders: seq<Folder>, p: string, fuel: nat, ids: set<string>) returns (r: Option<set<string>>)
    ensures AddChildren(folders, p, fuel).None? ==> r.None?
    ensures AddChildren(folders, p, fuel).Some? ==> r == Some(ids + AddChildren(folders, p, fuel).value)
    decreases fuel
  {
    if fuel == 0 {
      return None;
    }
    var acc := ids;
    ghost var added: set<string> := {};
    for i := 0 to |folders|
      invariant ChildrenUpTo(folders, p, i, fuel - 1) == Some(added)
      invariant acc == ids + added
    {
      if folders[i].parentId == Some(p) {
        var inner := CollectChildren(folders, folders[i].id, fuel - 1, acc + {folders[i].id});
        if inner.None? {
          ChildrenNoneStays(folders, p, i + 1, |folders|, fuel - 1);
          return None;
        }
        added := added + {folders[i].id} + AddChildren(folders, folders[i].id, fuel - 1).value;
        acc := inner.value;
      }
    }
    r := Some(acc);
  }

  /** Once one iteration's call fails to return, so does the whole loop. */
  lemma {:induction false} ChildrenNoneStays(folders: seq<Folder>, p: string, n: nat, m: nat, fuel: nat)
    requires n <= m <= |folders| && ChildrenUpTo(folders, p, n, fuel).None?
    ensures ChildrenUpTo(folders, p, m, fuel).None?
    decreases m - n
  {
    if n < m {
      ChildrenNoneStays(folders, p, n + 1, m, fuel);
    }
  }

  /** The scope filter is skipped for no selection and for the "all bookmarks" entry. */
  predicate ScopeSkipped(selected: Option<string>) {
    !Truthy(selected) || selected.value == RootId
  }

  /** The ids in scope: the selected folder and everything `addChildren` adds below it, or `None`
      when that recursion never returns. One level more than there are folders is enough for every
      recursion that returns at all (`WalkFinishesIffAcyclic`). */
  function ScopeIds(folders: seq<Folder>, p: string): Option<set<string>> {
    match AddChildren(folders, p, |folders| + 1)
    case None => None
    case Some(s) => Some({p} + s)
  }

  /** The ids in scope are the selected one and those of the folders below it; they exist exactly when
      no cycle is reachable from the selected folder, whatever recursion depth the runtime allows. */
  lemma ScopeIdsSpec(folders: seq<Folder>, p: string)
    ensures ScopeIds(folders, p).None? <==> ReachesCycle(folders, Some(p))
    ensures ScopeIds(folders, p).None? <==> forall fuel: nat :: AddChildren(folders, p, fuel).None?
    ensures ScopeIds(folders, p).Some? ==>
      forall x :: x in ScopeIds(folders, p).value <==> x == p || IsBelow(folders, Some(p), x)
  {
    AddChildrenBounded(folders, p, |folders| + 1);
    WalkFinishesIffAcyclic(folders, Some(p));
    if ScopeIds(folders, p).Some? {
      AddChildrenBelow(folders, p, |folders| + 1);
    } else {
      forall fuel: nat ensures AddChildren(folders, p, fuel).None? {
        AddChildrenBounded(folders, p, fuel);
        CycleNeverBounded(folders, Some(p), fuel);
      }
    }
  }

  /** `b => folderIds.has(b.folderId)`. */
  function InFolders(ids: set<string>): Bookmark -> bool {
    (b: Bookmark) => b.folderId in ids
  }

  /** The bookmarks in the selected folder's scope, in their order; `None` when the scope recursion
      never returns. */
  function Scope(folders: seq<Folder>, bookmarks: seq<Bookmark>, selected: Option<string>): Option<seq<Bookmark>> {
    if ScopeSkipped(selected) then Some(bookmarks)
    else
      match ScopeIds(folders, selected.value)
      case None => None
      case Some(ids) => Some(Filter(bookmarks, InFolders(ids)))
  }

  /** Without a selection, or with "all bookmarks", every bookmark is in scope. Otherwise the scope
      keeps exactly the bookmarks of the selected folder and of the folders below it, in order, and it
      exists exactly when no cycle is reachable from the selected folder. */
  lemma ScopeSpec(folders: seq<Folder>, bookmarks: seq<Bookmark>, selected: Option<string>)
    ensures ScopeSkipped(selected) ==> Scope(folders, bookmarks, selected) == Some(bookmarks)
    ensures !ScopeSkipped(selected) ==>
      (Scope(folders, bookmarks, selected).None? <==> ReachesCycle(folders, selected))
    ensures !ScopeSkipped(selected) && Scope(folders, bookmarks, selected).Some? ==>
      var r := Scope(folders, bookmarks, selected).value;
      |r| <= |bookmarks| &&
      forall b :: b in r <==> b in bookmarks && (b.folderId == selected.value || IsBelow(folders, selected, b.folderId))
    ensures !ScopeSkipped(selected) && Scope(folders, bookmarks, selected).Some? ==>
      var r := Scope(folders, bookmarks, selected).value;
      forall b :: multiset(r)[b] ==
        if b.folderId == selected.value || IsBelow(folders, selected, b.folderId) then multiset(bookmarks)[b] else 0
  {
    if !ScopeSkipped(selected) {
      ScopeIdsSpec(folders, selected.value);
      match ScopeIds(folders, selected.value)
      case None =>
      case Some(ids) =>
        FilterMultiset(bookmarks, InFolders(ids));
    }
  }

  // ---------------------------------------------------------------------------------------------
  // Search

  /** `t.toLowerCase().includes(s)` for some tag `t`. */
  predicate SomeTagContains(b: Bookmark, s: string) {
    exists i :: 0 <= i < |b.tags| && Contains(ToLower(b.tags[i]), s)
  }

  /** Whether a bookmark passes the lower-cased query `q`: with the `tag:` prefix some tag must contain
      the trimmed rest, otherwise the title, the url or a tag must contain `q` as it is. */
  predicate Matches(b: Bookmark, q: string) {
    if StartsWith(q, "tag:") then SomeTagContains(b, Trim(q[4..]))
    else Contains(ToLower(b.title), q) || Contains(ToLower(b.url), q) || SomeTagContains(b, q)
  }

  /** The search step: nothing happens for the empty query. */
  function Search(bookmarks: seq<Bookmark>, query: string): seq<Bookmark> {
    if query == "" then bookmarks
    else
      var q := ToLower(query);
      Filter(bookmarks, (b: Bookmark) => Matches(b, q))
  }

  /** The search keeps exactly the bookmarks that match the lower-cased query, each as often as the
      input has it. */
  lemma SearchSpec(bookmarks: seq<Bookmark>, query: string)
    ensures query == "" ==> Search(bookmarks, query) == bookmarks
    ensures query != "" ==> forall b :: b in Search(bookmarks, query) <==> b in bookmarks && Matches(b, ToLower(query))
    ensures query != "" ==> multiset(Search(bookmarks, query)) <= multiset(bookmarks)
    ensures query != "" ==>
      forall b :: multiset(Search(bookmarks, query))[b] == if Matches(b, ToLower(query)) then multiset(bookmarks)[b] else 0
  {
    if query != "" {
      var q := ToLower(query);
      FilterMultiset(bookmarks, b => Matches(b, q));
    }
  }

  /** A `tag:` query whose rest is only white space keeps every bookmark that has a tag. */
  lemma EmptyTagQuery(bookmarks: seq<Bookmark>, query: string)
    requires StartsWith(ToLower(query), "tag:") && Trim(ToLower(query)[4..]) == ""
    ensures forall b :: b in Search(bookmarks, query) <==> b in bookmarks && |b.tags| > 0
  {
    forall b | b in bookmarks && |b.tags| > 0 ensures SomeTagContains(b, "") {
      ContainsEmpty(ToLower(b.tags[0]));
    }
  }

  lemma LowerCharIdempotent(c: char)
    ensures LowerChar(LowerChar(c)) == LowerChar(c)
  {
  }

  /** Lower-casing twice changes nothing more. */
  lemma ToLowerIdempotent(s: string)
    ensures ToLower(ToLower(s)) == ToLower(s)
  {
    forall i | 0 <= i < |s| ensures ToLower(ToLower(s))[i] == ToLower(s)[i] {
      LowerCharIdempotent(s[i]);
    }
  }

  /** The search ignores the case of the query. */
  lemma SearchIgnoresCase(bookmarks: seq<Bookmark>, query: string)
    ensures Search(bookmarks, ToLower(query)) == Search(bookmarks, query)
  {
    ToLowerIdempotent(query);
    if query != "" {
      assert ToLower(query) != "";
    }
  }

  /** Searching for `tag:` followed by a bookmark's tag keeps that bookmark. */
  lemma TagQueryKeepsTagged(bookmarks: seq<Bookmark>, tag: string, b: Bookmark)
    requires b in bookmarks && tag in b.tags
    ensures b in Search(bookmarks, "tag:" + tag)
  {
    var query := "tag:" + tag;
    ToLowerConcat("tag:", tag);
    var q := ToLower(query);
    assert q == "tag:" + ToLower(tag);
    assert q[4..] == ToLower(tag);
    ContainsTrimmed(ToLower(tag));
    var i :| 0 <= i < |b.tags| && b.tags[i] == tag;
    assert SomeTagContains(b, Trim(q[4..]));
  }

  // ---------------------------------------------------------------------------------------------
  // Sort

  /** The comparator of the sort, as written: a negative result puts `a` first. */
  function Compare(a: Bookmark, b: Bookmark): int {
    if a.starred && !b.starred then -1
    else if !a.starred && b.starred then 1
    else b.updatedAt - a.updatedAt
  }

  /** The key the comparator compares: starred first, then the later update first. */
  function BookmarkKey(b: Bookmark): Key {
    Key(if b.starred then 0 else 1, -b.updatedAt)
  }

  /** The comparator orders two bookmarks exactly as their keys do. */
  lemma CompareIsKeyOrder(a: Bookmark, b: Bookmark)
    ensures Compare(a, b) < 0 <==> KeyLess(BookmarkKey(a), BookmarkKey(b))
    ensures Compare(a, b) > 0 <==> KeyLess(BookmarkKey(b), BookmarkKey(a))
    ensures Compare(a, b) == 0 <==> BookmarkKey(a) == BookmarkKey(b)
  {
  }

  /** `result.sort(compare)`. */
  function SortBookmarks(bookmarks: seq<Bookmark>): seq<Bookmark> {
    SortBy(bookmarks, BookmarkKey)
  }

  /** The sort returns a permutation of its input in which the starred bookmarks come first, the
      update times never increase within the starred and within the other bookmarks, and bookmarks
      that compare equal keep their input order. */
  lemma SortBookmarksSpec(bookmarks: seq<Bookmark>)
    ensures multiset(SortBookmarks(bookmarks)) == multiset(bookmarks)
    ensures var r := SortBookmarks(bookmarks);
      forall i, j :: 0 <= i < j < |r| ==> (r[j].starred ==> r[i].starred)
    ensures var r := SortBookmarks(bookmarks);
      forall i, j :: 0 <= i < j < |r| && r[i].starred == r[j].starred ==> r[i].updatedAt >= r[j].updatedAt
    ensures forall k :: WithKey(SortBookmarks(bookmarks), BookmarkKey, k) == WithKey(bookmarks, BookmarkKey, k)
  {
    SortByCorrect(bookmarks, BookmarkKey);
  }

  // ---------------------------------------------------------------------------------------------
  // The whole query

  /** `filteredBookmarks`: scope, then search, then sort; `None` when the scope recursion never
      returns. */
  function Filtered(folders: seq<Folder>, bookmarks: seq<Bookmark>, selected: Option<string>, query: string): Option<seq<Bookmark>> {
    match Scope(folders, bookmarks, selected)
    case None => None
    case Some(scoped) => Some(SortBookmarks(Search(scoped, query)))
  }

  /** Whether the query reorders the state array itself: with neither filter applied, `result` is the
      `bookmarks` array and `sort` works on it in place. */
  predicate SortsStateInPlace(selected: Option<string>, query: string) {
    ScopeSkipped(selected) && query == ""
  }

  /** Whether a bookmark belongs in the listing: it lies in the scope of the selected folder and
      matches the query. */
  ghost predicate Listed(folders: seq<Folder>, selected: Option<string>, query: string, b: Bookmark) {
    (ScopeSkipped(selected) || b.folderId == selected.value || IsBelow(folders, selected, b.folderId)) &&
    (query == "" || Matches(b, ToLower(query)))
  }

  /** The query's result is a sorted permutation of the bookmarks in scope that match the search: each
      of them as often as the state holds it, and no other; it is missing exactly when a cycle is
      reachable from a selected folder. */
  lemma FilteredSpec(folders: seq<Folder>, bookmarks: seq<Bookmark>, selected: Option<string>, query: string)
    ensures Filtered(folders, bookmarks, selected, query).None? <==> !ScopeSkipped(selected) && ReachesCycle(folders, selected)
    ensures Filtered(folders, bookmarks, selected, query).Some? ==>
      var r := Filtered(folders, bookmarks, selected, query).value;
      (forall b :: b in r <==> b in bookmarks && Listed(folders, selected, query, b)) &&
      SortedBy(r, BookmarkKey)
    ensures Filtered(folders, bookmarks, selected, query).Some? ==>
      var r := Filtered(folders, bookmarks, selected, query).value;
      forall b :: multiset(r)[b] == if Listed(folders, selected, query, b) then multiset(bookmarks)[b] else 0
    ensures SortsStateInPlace(selected, query) ==>
      Filtered(folders, bookmarks, selected, query) == Some(SortBookmarks(bookmarks))
  {
    ScopeSpec(folders, bookmarks, selected);
    match Scope(folders, bookmarks, selected)
    case None =>
    case Some(scoped) =>
      SearchSpec(scoped, query);
      SortByCorrect(Search(scoped, query), BookmarkKey);
      var r := SortBookmarks(Search(scoped, query));
      forall b ensures b in r <==> b in Search(scoped, query) {
        assert b in r <==> b in multiset(r);
      }
  }
}
