/** The nested folder tree of the store (`folderTree`, src/hooks/useBookmarks.ts): every level lists
    the folders whose parent is the node above it, in ascending `order`, and each folder carries the
    tree below it. */
module Tree {
  import opened Types
  import opened Seqs
  import opened StableSort
  import opened FolderGraph

  /** A folder with the tree below it. */
  datatype TreeNode = TreeNode(folder: Folder, children: seq<TreeNode>)

  /** The sort key of `(a, b) => a.order - b.order`. */
  function OrderKey(f: Folder): Key {
    Key(f.order, 0)
  }

  /** The folders whose parent is `u`, sorted by `order`; folders with equal `order` keep their
      collection order. */
  function ChildrenOf(folders: seq<Folder>, u: Option<string>): seq<Folder> {
    SortBy(Filter(folders, (f: Folder) => f.parentId == u), OrderKey)
  }

  /** One level lists exactly the folders whose parent is `u`, each as often as it occurs in the
      collection, in ascending `order`. */
  lemma ChildrenOfSpec(folders: seq<Folder>, u: Option<string>)
    ensures multiset(ChildrenOf(folders, u)) == multiset(Filter(folders, (f: Folder) => f.parentId == u))
    ensures forall f :: f in ChildrenOf(folders, u) <==> f in folders && f.parentId == u
    ensures var r := ChildrenOf(folders, u); forall i, j :: 0 <= i < j < |r| ==> r[i].order <= r[j].order
  {
    var s := Filter(folders, (f: Folder) => f.parentId == u);
    SortByCorrect(s, OrderKey);
    forall f ensures f in ChildrenOf(folders, u) <==> f in s {
      assert f in ChildrenOf(folders, u) <==> f in multiset(ChildrenOf(folders, u));
    }
  }

  /** A folder is on the level below `u` exactly when it is a child of `u`. */
  lemma ChildrenOfMembers(folders: seq<Folder>, u: Option<string>)
    ensures forall f :: f in ChildrenOf(folders, u) <==> f in folders && f.parentId == u
  {
    ChildrenOfSpec(folders, u);
  }

  /** `buildTree(u)` when its recursion returns within `fuel` nested calls; `None` otherwise. */
  function BuildTree(folders: seq<Folder>, u: Option<string>, fuel: nat): Option<seq<TreeNode>>
    decreases fuel, 0
  {
    if fuel == 0 then None else BuildEach(folders, ChildrenOf(folders, u), fuel - 1)
  }

  /** The `map` step of `buildTree`: a node for each folder of `fs`, in order. */
  function BuildEach(folders: seq<Folder>, fs: seq<Folder>, fuel: nat): Option<seq<TreeNode>>
    decreases fuel, |fs| + 1
  {
    if fs == [] then Some([])
    else
      match BuildTree(folders, Some(fs[0].id), fuel)
      case None => None
      case Some(children) =>
        match BuildEach(folders, fs[1..], fuel)
        case None => None
        case Some(rest) => Some([TreeNode(fs[0], children)] + rest)
  }

  /** `folderTree`: the tree below the top level, or `None` when `buildTree(null)` never returns. */
  function FolderTree(folders: seq<Folder>): Option<seq<TreeNode>> {
    BuildTree(folders, None, |folders| + 1)
  }

  /** The folders at the top of the nodes `ts`, in order. */
  function Roots(ts: seq<TreeNode>): (r: seq<Folder>)
    ensures |r| == |ts| && forall k :: 0 <= k < |ts| ==> r[k] == ts[k].folder
  {
    seq(|ts|, k requires 0 <= k < |ts| => ts[k].folder)
  }

  /** Folder `f` occurs somewhere in the trees `ts`. */
  predicate InTree(ts: seq<TreeNode>, f: Folder)
    decreases ts
  {
    exists k :: 0 <= k < |ts| && InNode(ts[k], f)
  }

  /** Folder `f` is the folder of node `t` or occurs below it. */
  predicate InNode(t: TreeNode, f: Folder)
    decreases t
  {
    t.folder == f || InTree(t.children, f)
  }

  /** The `map` step builds one node per folder, in order, each holding that folder's tree; it returns
      exactly when every folder's tree does. */
  lemma {:induction false} BuildEachSpec(folders: seq<Folder>, fs: seq<Folder>, fuel: nat)
    ensures BuildEach(folders, fs, fuel).Some? <==> forall k :: 0 <= k < |fs| ==> BuildTree(folders, Some(fs[k].id), fuel).Some?
    ensures BuildEach(folders, fs, fuel).Some? ==>
      var ts := BuildEach(folders, fs, fuel).value;
      Roots(ts) == fs &&
      forall k :: 0 <= k < |fs| ==> BuildTree(folders, Some(fs[k].id), fuel) == Some(ts[k].children)
    decreases |fs|
  {
    if fs != [] {
      BuildEachSpec(folders, fs[1..], fuel);
      assert forall k :: 0 < k < |fs| ==> fs[1..][k - 1] == fs[k];
      if BuildEach(folders, fs, fuel).Some? {
        var ts := BuildEach(folders, fs, fuel).value;
        assert forall k :: 0 < k < |fs| ==> ts[k] == ts[1..][k - 1];
      }
    }
  }

  /** The `map` step over a list `fs` holding exactly the children of `u` returns exactly when the
      walk down from each child does, given that each child's tree returns exactly then. */
  lemma EachBounded(folders: seq<Folder>, u: Option<string>, fs: seq<Folder>, fuel: nat)
    requires forall f :: f in fs <==> f in folders && f.parentId == u
    requires forall i :: 0 <= i < |folders| && folders[i].parentId == u ==>
      (BuildTree(folders, Some(folders[i].id), fuel).Some? <==> Bounded(folders, Some(folders[i].id), fuel))
    ensures BuildEach(folders, fs, fuel).Some? <==>
      forall i :: 0 <= i < |folders| && folders[i].parentId == u ==> Bounded(folders, Some(folders[i].id), fuel)
  {
    BuildEachSpec(folders, fs, fuel);
    if forall i :: 0 <= i < |folders| && folders[i].parentId == u ==> Bounded(folders, Some(folders[i].id), fuel) {
      forall k | 0 <= k < |fs| ensures BuildTree(folders, Some(fs[k].id), fuel).Some? {
        assert fs[k] in fs;
        var i :| 0 <= i < |folders| && folders[i] == fs[k];
      }
    }
    if BuildEach(folders, fs, fuel).Some? {
      forall i | 0 <= i < |folders| && folders[i].parentId == u ensures Bounded(folders, Some(folders[i].id), fuel) {
        assert folders[i] in fs;
        var k :| 0 <= k < |fs| && fs[k] == folders[i];
      }
    }
  }

  /** `buildTree(u)` returns within `fuel` nested calls exactly when the walk down from `u` does. */
  lemma {:induction false} BuildTreeBounded(folders: seq<Folder>, u: Option<string>, fuel: nat)
    ensures BuildTree(folders, u, fuel).Some? <==> Bounded(folders, u, fuel)
    decreases fuel
  {
    if fuel > 0 {
      forall i | 0 <= i < |folders| && folders[i].parentId == u
        ensures BuildTree(folders, Some(folders[i].id), fuel - 1).Some? <==> Bounded(folders, Some(folders[i].id), fuel - 1)
      {
        BuildTreeBounded(folders, Some(folders[i].id), fuel - 1);
      }
      ChildrenOfSpec(folders, u);
      EachBounded(folders, u, ChildrenOf(folders, u), fuel - 1);
    }
  }

  /** `f` is the folder at the end of some chain down from `u`. */
  ghost predicate EndsChain(folders: seq<Folder>, u: Option<string>, f: Folder) {
    exists cs :: IsChain(folders, u, cs) && |cs| > 0 && folders[cs[|cs| - 1]] == f
  }

  /** The trees `ts` hold exactly the folders below `u`. */
  ghost predicate HoldsBelow(folders: seq<Folder>, u: Option<string>, ts: seq<TreeNode>) {
    forall f :: InTree(ts, f) <==> EndsChain(folders, u, f)
  }

  /** The `map` step builds one node per folder. */
  lemma BuildEachLength(folders: seq<Folder>, fs: seq<Folder>, fuel: nat)
    requires BuildEach(folders, fs, fuel).Some?
    ensures |BuildEach(folders, fs, fuel).value| == |fs|
  {
    BuildEachSpec(folders, fs, fuel);
  }

  /** The nodes the `map` step builds hold the folders of `fs`, each with the tree below it. */
  lemma BuildEachNodes(folders: seq<Folder>, fs: seq<Folder>, fuel: nat, ts: seq<TreeNode>)
    requires BuildEach(folders, fs, fuel) == Some(ts)
    ensures Roots(ts) == fs
    ensures forall k :: 0 <= k < |ts| ==> BuildTree(folders, Some(ts[k].folder.id), fuel) == Some(ts[k].children)
  {
    BuildEachSpec(folders, fs, fuel);
    assert |ts| == |fs|;
    forall k | 0 <= k < |ts| ensures BuildTree(folders, Some(ts[k].folder.id), fuel) == Some(ts[k].children) {
      assert ts[k].folder == Roots(ts)[k] == fs[k];
    }
  }

  /** The node the `map` step builds for the `k`-th folder. */
  lemma BuildEachAt(folders: seq<Folder>, fs: seq<Folder>, fuel: nat, ts: seq<TreeNode>, k: int)
    requires BuildEach(folders, fs, fuel) == Some(ts) && 0 <= k < |fs|
    ensures |ts| == |fs| && ts[k].folder == fs[k]
    ensures BuildTree(folders, Some(fs[k].id), fuel) == Some(ts[k].children)
  {
    BuildEachSpec(folders, fs, fuel);
  }

  /** The level below `u`, when the tree below `u` exists, is the `map` step over its children. */
  lemma BuildTreeUnfold(folders: seq<Folder>, u: Option<string>, fuel: nat, ts: seq<TreeNode>)
    requires BuildTree(folders, u, fuel) == Some(ts)
    ensures fuel > 0 && BuildEach(folders, ChildrenOf(folders, u), fuel - 1) == Some(ts)
  {
  }

  /** A folder on the level below `u` is a child of `u` in the collection. */
  lemma ChildIndex(folders: seq<Folder>, u: Option<string>, g: Folder) returns (i: int)
    requires g in ChildrenOf(folders, u)
    ensures 0 <= i < |folders| && folders[i] == g && g.parentId == u
  {
    ChildrenOfMembers(folders, u);
    i :| 0 <= i < |folders| && folders[i] == g;
  }

  /** The `k`-th node of the tree below `u` holds a child of `u` and the tree below that child. */
  lemma NodeAt(folders: seq<Folder>, u: Option<string>, fuel: nat, ts: seq<TreeNode>, k: int) returns (i: int)
    requires BuildTree(folders, u, fuel) == Some(ts) && 0 <= k < |ts|
    ensures fuel > 0 && 0 <= i < |folders| && folders[i] == ts[k].folder && folders[i].parentId == u
    ensures BuildTree(folders, Some(folders[i].id), fuel - 1) == Some(ts[k].children)
  {
    BuildTreeUnfold(folders, u, fuel, ts);
    var fs := ChildrenOf(folders, u);
    BuildEachLength(folders, fs, fuel - 1);
    BuildEachAt(folders, fs, fuel - 1, ts, k);
    i := ChildIndex(folders, u, fs[k]);
  }

  /** A chain down from `u` that ends at a folder of the tree below `u`. */
  lemma {:induction false} TreeChain(folders: seq<Folder>, u: Option<string>, fuel: nat, ts: seq<TreeNode>, f: Folder) returns (cs: seq<int>)
    requires BuildTree(folders, u, fuel) == Some(ts) && InTree(ts, f)
    ensures IsChain(folders, u, cs) && |cs| > 0 && folders[cs[|cs| - 1]] == f
    decreases fuel
  {
    var k :| 0 <= k < |ts| && InNode(ts[k], f);
    var i := NodeAt(folders, u, fuel, ts, k);
    if ts[k].folder == f {
      cs := [i];
    } else {
      assert InTree(ts[k].children, f);
      var rest := TreeChain(folders, Some(folders[i].id), fuel - 1, ts[k].children, f);
      ChainCons(folders, u, i, rest);
      cs := [i] + rest;
      assert cs[|cs| - 1] == rest[|rest| - 1];
    }
  }

  /** Every folder in the tree below `u` lies below `u`. */
  lemma TreeSound(folders: seq<Folder>, u: Option<string>, fuel: nat, ts: seq<TreeNode>, f: Folder)
    requires BuildTree(folders, u, fuel) == Some(ts) && InTree(ts, f)
    ensures EndsChain(folders, u, f)
  {
    var cs := TreeChain(folders, u, fuel, ts, f);
  }

  /** The position of a child of `u` on the level below `u`. */
  lemma ChildPosition(folders: seq<Folder>, u: Option<string>, i: int) returns (k: int)
    requires 0 <= i < |folders| && folders[i].parentId == u
    ensures 0 <= k < |ChildrenOf(folders, u)| && ChildrenOf(folders, u)[k] == folders[i]
  {
    ChildrenOfMembers(folders, u);
    assert folders[i] in ChildrenOf(folders, u);
    k :| 0 <= k < |ChildrenOf(folders, u)| && ChildrenOf(folders, u)[k] == folders[i];
  }

  /** The folder at the end of a chain down from `u` is in the tree below `u`. */
  lemma {:induction false} ChainInTree(folders: seq<Folder>, u: Option<string>, fuel: nat, ts: seq<TreeNode>, cs: seq<int>)
    requires BuildTree(folders, u, fuel) == Some(ts)
    requires IsChain(folders, u, cs) && |cs| > 0
    ensures InTree(ts, folders[cs[|cs| - 1]])
    decreases |cs|
  {
    BuildTreeUnfold(folders, u, fuel, ts);
    var fs := ChildrenOf(folders, u);
    var k := ChildPosition(folders, u, cs[0]);
    BuildEachAt(folders, fs, fuel - 1, ts, k);
    if |cs| > 1 {
      ChainTail(folders, u, cs);
      ChainInTree(folders, Some(fs[k].id), fuel - 1, ts[k].children, cs[1..]);
      assert cs[1..][|cs| - 2] == cs[|cs| - 1];
    }
    assert InNode(ts[k], folders[cs[|cs| - 1]]);
  }

  /** Every folder below `u` is in the tree below `u`. */
  lemma TreeComplete(folders: seq<Folder>, u: Option<string>, fuel: nat, ts: seq<TreeNode>, f: Folder)
    requires BuildTree(folders, u, fuel) == Some(ts) && EndsChain(folders, u, f)
    ensures InTree(ts, f)
  {
    var cs :| IsChain(folders, u, cs) && |cs| > 0 && folders[cs[|cs| - 1]] == f;
    ChainInTree(folders, u, fuel, ts, cs);
  }

  /** The tree below `u` holds exactly the folders at the end of some chain down from `u`. */
  lemma BuildTreeMembers(folders: seq<Folder>, u: Option<string>, fuel: nat)
    requires BuildTree(folders, u, fuel).Some?
    ensures HoldsBelow(folders, u, BuildTree(folders, u, fuel).value)
  {
    forall f ensures InTree(BuildTree(folders, u, fuel).value, f) <==> EndsChain(folders, u, f) {
      if InTree(BuildTree(folders, u, fuel).value, f) {
        TreeSound(folders, u, fuel, BuildTree(folders, u, fuel).value, f);
      }
      if EndsChain(folders, u, f) {
        TreeComplete(folders, u, fuel, BuildTree(folders, u, fuel).value, f);
      }
    }
  }

  /** The tree exists exactly when no cycle is reachable from the top level; each level then lists
      exactly the children of the node above it, in ascending `order`, and the tree holds exactly the
      folders whose chain of parents ends at the top level: orphans and folders on a cycle are left
      out. */
  lemma FolderTreeSpec(folders: seq<Folder>)
    ensures FolderTree(folders).Some? <==> !ReachesCycle(folders, None)
    ensures FolderTree(folders).Some? ==>
      var ts := FolderTree(folders).value;
      Roots(ts) == ChildrenOf(folders, None) && HoldsBelow(folders, None, ts)
  {
    BuildTreeBounded(folders, None, |folders| + 1);
    WalkFinishesIffAcyclic(folders, None);
    if FolderTree(folders).Some? {
      TreeLevels(folders, None, |folders| + 1);
      BuildTreeMembers(folders, None, |folders| + 1);
    }
  }

  /** With unique folder ids, as fresh uuids give, `buildTree(null)` always returns. */
  lemma UniqueIdsTreeExists(folders: seq<Folder>)
    requires UniqueIds(folders)
    ensures FolderTree(folders).Some?
  {
    UniqueIdsNoCycleFromTop(folders);
    FolderTreeSpec(folders);
  }

  /** Each level of the tree lists the children of the node above it, and each node's children are
      the tree below its folder, one level less deep. */
  lemma TreeLevels(folders: seq<Folder>, u: Option<string>, fuel: nat)
    requires BuildTree(folders, u, fuel).Some?
    ensures var ts := BuildTree(folders, u, fuel).value;
      Roots(ts) == ChildrenOf(folders, u) &&
      forall k :: 0 <= k < |ts| ==> BuildTree(folders, Some(ts[k].folder.id), fuel - 1) == Some(ts[k].children)
  {
    var ts := BuildTree(folders, u, fuel).value;
    BuildTreeUnfold(folders, u, fuel, ts);
    BuildEachNodes(folders, ChildrenOf(folders, u), fuel - 1, ts);
  }
}