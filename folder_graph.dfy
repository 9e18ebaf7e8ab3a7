/** The folder hierarchy as a graph. Folders point to their parent through `parentId`; walking the
    hierarchy downwards, as the scope filter and the tree builder do, follows those links backwards.
    A node is a folder id or `None` (the top level). Nothing prevents cycles: `moveFolder` can make a
    folder the child of its own descendant. */
module FolderGraph {
  import opened Types

  /** `cs` lists positions in `folders` that go down from node `u` one level at a time: the first
      folder's parent is `u` and each next folder's parent is the folder before it. */
  ghost predicate IsChain(folders: seq<Folder>, u: Option<string>, cs: seq<int>) {
    && (forall k :: 0 <= k < |cs| ==> 0 <= cs[k] < |folders|)
    && (|cs| > 0 ==> folders[cs[0]].parentId == u)
    && (forall k :: 0 < k < |cs| ==> folders[cs[k]].parentId == Some(folders[cs[k - 1]].id))
  }

  /** Some position occurs twice in `cs`. */
  ghost predicate HasRepeat(cs: seq<int>) {
    exists i, j :: 0 <= i < j < |cs| && cs[i] == cs[j]
  }

  /** Walking down from `u` can run into a cycle. */
  ghost predicate ReachesCycle(folders: seq<Folder>, u: Option<string>) {
    exists cs :: IsChain(folders, u, cs) && HasRepeat(cs)
  }

  /** `x` is the id of a folder strictly below node `u`. */
  ghost predicate IsBelow(folders: seq<Folder>, u: Option<string>, x: string) {
    exists cs :: IsChain(folders, u, cs) && |cs| > 0 && folders[cs[|cs| - 1]].id == x
  }

  /** A depth-first walk down from `u` that visits every child of every folder it reaches, without
      remembering what it has visited, comes back within `fuel` nested calls. */
  ghost predicate Bounded(folders: seq<Folder>, u: Option<string>, fuel: nat)
    decreases fuel
  {
    fuel > 0 &&
    forall i :: 0 <= i < |folders| && folders[i].parentId == u ==> Bounded(folders, Some(folders[i].id), fuel - 1)
  }

  /** No two folders share an id, as fresh uuids guarantee. */
  predicate UniqueIds(folders: seq<Folder>) {
    forall i, j :: 0 <= i < |folders| && 0 <= j < |folders| && i != j ==> folders[i].id != folders[j].id
  }

  lemma ChainTail(folders: seq<Folder>, u: Option<string>, cs: seq<int>)
    requires IsChain(folders, u, cs) && |cs| > 0
    ensures IsChain(folders, Some(folders[cs[0]].id), cs[1..])
  {
    var t := cs[1..];
    assert forall k :: 0 < k < |t| ==> t[k] == cs[k + 1] && t[k - 1] == cs[k];
  }

  lemma ChainCons(folders: seq<Folder>, u: Option<string>, c: int, cs: seq<int>)
    requires 0 <= c < |folders| && folders[c].parentId == u
    requires IsChain(folders, Some(folders[c].id), cs)
    ensures IsChain(folders, u, [c] + cs)
  {
    var t := [c] + cs;
    forall k | 1 < k < |t| ensures folders[t[k]].parentId == Some(folders[t[k - 1]].id) {
      assert t[k] == cs[k - 1] && t[k - 1] == cs[k - 2];
    }
  }

  lemma ChainAppend(folders: seq<Folder>, u: Option<string>, a: seq<int>, b: seq<int>)
    requires IsChain(folders, u, a) && |a| > 0
    requires IsChain(folders, Some(folders[a[|a| - 1]].id), b)
    ensures IsChain(folders, u, a + b)
  {
    var t := a + b;
    forall k | |a| < k < |t| ensures folders[t[k]].parentId == Some(folders[t[k - 1]].id) {
      assert t[k] == b[k - |a|] && t[k - 1] == b[k - 1 - |a|];
    }
  }

  lemma ChainPrefix(folders: seq<Folder>, u: Option<string>, cs: seq<int>, n: int)
    requires IsChain(folders, u, cs) && 0 <= n <= |cs|
    ensures IsChain(folders, u, cs[..n])
  {
  }

  /** Under a depth bound every chain down from `u` is shorter than the bound. */
  lemma {:induction false} ChainShorterThanFuel(folders: seq<Folder>, u: Option<string>, fuel: nat, cs: seq<int>)
    requires Bounded(folders, u, fuel) && IsChain(folders, u, cs)
    ensures |cs| < fuel
    decreases |cs|
  {
    if cs != [] {
      ChainTail(folders, u, cs);
      ChainShorterThanFuel(folders, Some(folders[cs[0]].id), fuel - 1, cs[1..]);
    }
  }

  /** A walk that does not come back within `fuel` nested calls follows a chain of length `fuel`. */
  lemma {:induction false} LongChain(folders: seq<Folder>, u: Option<string>, fuel: nat) returns (cs: seq<int>)
    requires !Bounded(folders, u, fuel)
    ensures IsChain(folders, u, cs) && |cs| == fuel
    decreases fuel
  {
    if fuel == 0 {
      cs := [];
    } else {
      var i :| 0 <= i < |folders| && folders[i].parentId == u && !Bounded(folders, Some(folders[i].id), fuel - 1);
      var rest := LongChain(folders, Some(folders[i].id), fuel - 1);
      ChainCons(folders, u, i, rest);
      cs := [i] + rest;
    }
  }

  /** A chain that revisits a folder can be made as long as wanted by going round the loop again. */
  lemma PumpChain(folders: seq<Folder>, u: Option<string>, cs: seq<int>, i: int, j: int, n: nat) returns (long: seq<int>)
    requires IsChain(folders, u, cs) && 0 <= i < j < |cs| && cs[i] == cs[j]
    ensures IsChain(folders, u, long) && |long| >= n
  {
    var loop := cs[i..j];
    forall k | 0 < k < |loop| ensures folders[loop[k]].parentId == Some(folders[loop[k - 1]].id) {
      assert loop[k] == cs[i + k] && loop[k - 1] == cs[i + k - 1];
    }
    assert folders[cs[j]].parentId == Some(folders[cs[j - 1]].id);
    assert IsChain(folders, Some(folders[cs[j - 1]].id), loop);
    long := cs[..j];
    ChainPrefix(folders, u, cs, j);
    while |long| < n
      invariant IsChain(folders, u, long) && |long| >= j && long[|long| - 1] == cs[j - 1]
      decreases n - |long|
    {
      ChainAppend(folders, u, long, loop);
      long := long + loop;
    }
  }

  /** A walk that can run into a cycle never comes back, whatever the depth bound. */
  lemma CycleNeverBounded(folders: seq<Folder>, u: Option<string>, fuel: nat)
    requires ReachesCycle(folders, u)
    ensures !Bounded(folders, u, fuel)
  {
    var cs, i, j :| IsChain(folders, u, cs) && 0 <= i < j < |cs| && cs[i] == cs[j];
    var long := PumpChain(folders, u, cs, i, j, fuel);
    if Bounded(folders, u, fuel) {
      ChainShorterThanFuel(folders, u, fuel, long);
    }
  }

  /** Positions that never repeat and lie below `n` number at most `n`. Drop the last position `x`
      and rename `n - 1` to `x` in the rest: what is left never repeats and lies below `n - 1`. */
  lemma {:induction false} DistinctBounded(cs: seq<int>, n: nat)
    requires forall k :: 0 <= k < |cs| ==> 0 <= cs[k] < n
    requires !HasRepeat(cs)
    ensures |cs| <= n
    decreases |cs|
  {
    if cs != [] {
      var last := |cs| - 1;
      var x := cs[last];
      var rest := seq(last, k requires 0 <= k < last => if cs[k] == n - 1 then x else cs[k]);
      forall k | 0 <= k < |rest| ensures 0 <= rest[k] < n - 1 {
        assert cs[k] != x;
      }
      forall i, j | 0 <= i < j < |rest| ensures rest[i] != rest[j] {
        assert cs[i] != cs[j] && cs[i] != x && cs[j] != x;
      }
      DistinctBounded(rest, n - 1);
    }
  }

  /** More positions than there are folders means some position repeats. */
  lemma Pigeonhole(cs: seq<int>, n: nat)
    requires forall k :: 0 <= k < |cs| ==> 0 <= cs[k] < n
    requires |cs| > n
    ensures HasRepeat(cs)
  {
    if !HasRepeat(cs) {
      DistinctBounded(cs, n);
    }
  }

  /** A walk that does not come back within one more level than there are folders runs into a cycle. */
  lemma UnboundedReachesCycle(folders: seq<Folder>, u: Option<string>)
    requires !Bounded(folders, u, |folders| + 1)
    ensures ReachesCycle(folders, u)
  {
    var cs := LongChain(folders, u, |folders| + 1);
    Pigeonhole(cs, |folders|);
    assert IsChain(folders, u, cs) && HasRepeat(cs);
  }

  /** Without a reachable cycle the walk comes back within one more level than there are folders. */
  lemma AcyclicBounded(folders: seq<Folder>, u: Option<string>)
    requires !ReachesCycle(folders, u)
    ensures Bounded(folders, u, |folders| + 1)
  {
    if !Bounded(folders, u, |folders| + 1) {
      UnboundedReachesCycle(folders, u);
    }
  }

  /** The walk down from `u` comes back for some depth bound exactly when it cannot run into a cycle;
      one more level than there are folders is then always enough. */
  lemma WalkFinishesIffAcyclic(folders: seq<Folder>, u: Option<string>)
    ensures (exists fuel: nat :: Bounded(folders, u, fuel)) <==> !ReachesCycle(folders, u)
    ensures !ReachesCycle(folders, u) <==> Bounded(folders, u, |folders| + 1)
  {
    if ReachesCycle(folders, u) {
      forall fuel: nat ensures !Bounded(folders, u, fuel) {
        CycleNeverBounded(folders, u, fuel);
      }
    } else {
      AcyclicBounded(folders, u);
      assert Bounded(folders, u, |folders| + 1);
    }
  }

  lemma {:induction false} NoRepeatFromTop(folders: seq<Folder>, cs: seq<int>, i: int, j: int)
    requires UniqueIds(folders) && IsChain(folders, None, cs) && 0 <= i < j < |cs|
    ensures cs[i] != cs[j]
    decreases i
  {
    assert folders[cs[j]].parentId == Some(folders[cs[j - 1]].id);
    if i > 0 {
      NoRepeatFromTop(folders, cs, i - 1, j - 1);
      assert folders[cs[i]].parentId == Some(folders[cs[i - 1]].id);
    }
  }

  /** With unique ids, the walk down from the top level never runs into a cycle: a folder in a cycle
      has no chain of parents that ends at the top. */
  lemma UniqueIdsNoCycleFromTop(folders: seq<Folder>)
    requires UniqueIds(folders)
    ensures !ReachesCycle(folders, None)
  {
    if ReachesCycle(folders, None) {
      var cs, i, j :| IsChain(folders, None, cs) && 0 <= i < j < |cs| && cs[i] == cs[j];
      NoRepeatFromTop(folders, cs, i, j);
    }
  }
}
