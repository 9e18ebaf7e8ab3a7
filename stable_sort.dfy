/** The stable sort behind `Array.prototype.sort` (stable since ECMAScript 2019), for comparators that
    compare a key: an insertion sort that places each element after every element whose key is not
    greater than its own. */
module StableSort {
  import opened Seqs

  /** A sort key, compared lexicographically: `major` first, then `minor`. */
  datatype Key = Key(major: int, minor: int)

  predicate KeyLess(a: Key, b: Key) {
    a.major < b.major || (a.major == b.major && a.minor < b.minor)
  }

  predicate KeyAtMost(a: Key, b: Key) {
    !KeyLess(b, a)
  }

  /** Keys never decrease along `s`. */
  predicate SortedBy<T>(s: seq<T>, key: T -> Key) {
    forall i, j :: 0 <= i < j < |s| ==> KeyAtMost(key(s[i]), key(s[j]))
  }

  /** The elements of `s` whose key is `k`, in their order in `s`. */
  function WithKey<T(!new)>(s: seq<T>, key: T -> Key, k: Key): seq<T> {
    Filter(s, x => key(x) == k)
  }

  /** Inserts `x` into `s` after the last element whose key is not greater than `x`'s. */
  function Insert<T>(s: seq<T>, x: T, key: T -> Key): seq<T>
    decreases |s|
  {
    if s == [] || KeyAtMost(key(s[|s| - 1]), key(x)) then s + [x]
    else Insert(s[..|s| - 1], x, key) + [s[|s| - 1]]
  }

  /** Sorts `s` by `key`, keeping elements with equal keys in their input order. */
  function SortBy<T>(s: seq<T>, key: T -> Key): seq<T>
    decreases |s|
  {
    if s == [] then [] else Insert(SortBy(s[..|s| - 1], key), s[|s| - 1], key)
  }

  lemma {:induction false} InsertPermutation<T>(s: seq<T>, x: T, key: T -> Key)
    ensures multiset(Insert(s, x, key)) == multiset(s) + multiset{x}
    decreases |s|
  {
    if s != [] && !KeyAtMost(key(s[|s| - 1]), key(x)) {
      InsertPermutation(s[..|s| - 1], x, key);
      assert s == s[..|s| - 1] + [s[|s| - 1]];
    }
  }

  lemma {:induction false} InsertSorted<T>(s: seq<T>, x: T, key: T -> Key)
    requires SortedBy(s, key)
    ensures SortedBy(Insert(s, x, key), key)
    decreases |s|
  {
    if s != [] && !KeyAtMost(key(s[|s| - 1]), key(x)) {
      var init, last := s[..|s| - 1], s[|s| - 1];
      InsertSorted(init, x, key);
      InsertPermutation(init, x, key);
      var a := Insert(init, x, key);
      forall i | 0 <= i < |a| ensures KeyAtMost(key(a[i]), key(last)) {
        assert a[i] in multiset(init) + multiset{x};
        if a[i] != x {
          assert a[i] in init;
        }
      }
    }
  }

  lemma WithKeyConcat<T(!new)>(a: seq<T>, b: seq<T>, key: T -> Key, k: Key)
    ensures WithKey(a + b, key, k) == WithKey(a, key, k) + WithKey(b, key, k)
  {
    FilterConcat(a, b, x => key(x) == k);
  }

  /** Putting `last` after `a`, where `x` has a key below `last`'s, keeps the order of equal keys. */
  lemma InsertStableStep<T(!new)>(init: seq<T>, a: seq<T>, x: T, last: T, key: T -> Key, k: Key)
    requires key(x) != key(last)
    requires WithKey(a, key, k) == WithKey(init, key, k) + WithKey([x], key, k)
    ensures WithKey(a + [last], key, k) == WithKey(init + [last], key, k) + WithKey([x], key, k)
  {
    WithKeyConcat(a, [last], key, k);
    WithKeyConcat(init, [last], key, k);
    // At most one of `x` and `last` has key `k`.
    WithKeySingle(x, key, k);
    WithKeySingle(last, key, k);
    var w := WithKey(init, key, k);
    if key(x) == k {
      assert WithKey([last], key, k) == [];
      assert WithKey(a + [last], key, k) == WithKey(a, key, k);
      assert WithKey(init + [last], key, k) == w;
    } else {
      assert WithKey([x], key, k) == [];
      assert WithKey(a, key, k) == w;
      assert WithKey(init + [last], key, k) + [] == WithKey(init + [last], key, k);
    }
  }

  lemma WithKeySingle<T(!new)>(x: T, key: T -> Key, k: Key)
    ensures WithKey([x], key, k) == if key(x) == k then [x] else []
  {
    assert [x][1..] == [];
  }

  lemma {:induction false} InsertStable<T(!new)>(s: seq<T>, x: T, key: T -> Key, k: Key)
    ensures WithKey(Insert(s, x, key), key, k) == WithKey(s, key, k) + WithKey([x], key, k)
    decreases |s|
  {
    if s == [] || KeyAtMost(key(s[|s| - 1]), key(x)) {
      WithKeyConcat(s, [x], key, k);
    } else {
      var init, last := s[..|s| - 1], s[|s| - 1];
      assert s == init + [last];
      InsertStable(init, x, key, k);
      InsertStableStep(init, Insert(init, x, key), x, last, key, k);
    }
  }

  /** The sort returns a permutation of its input, in key order, and keeps the input order of
      elements with equal keys. */
  lemma {:induction false} SortByCorrect<T(!new)>(s: seq<T>, key: T -> Key)
    ensures multiset(SortBy(s, key)) == multiset(s)
    ensures SortedBy(SortBy(s, key), key)
    ensures forall k :: WithKey(SortBy(s, key), key, k) == WithKey(s, key, k)
    decreases |s|
  {
    if s != [] {
      var init, last := s[..|s| - 1], s[|s| - 1];
      SortByCorrect(init, key);
      InsertPermutation(SortBy(init, key), last, key);
      InsertSorted(SortBy(init, key), last, key);
      assert s == init + [last];
      forall k ensures WithKey(SortBy(s, key), key, k) == WithKey(s, key, k) {
        InsertStable(SortBy(init, key), last, key, k);
        FilterConcat(init, [last], y => key(y) == k);
      }
    }
  }
}
