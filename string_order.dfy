/** `Array.prototype.sort` without a comparator, on strings: the order of JavaScript's `<` on
    strings, which compares character codes from the left and puts a proper prefix first. */
module StringOrder {

  predicate StrLess(a: string, b: string)
    decreases |a|
  {
    if a == [] then b != []
    else b != [] && (a[0] < b[0] || (a[0] == b[0] && StrLess(a[1..], b[1..])))
  }

  lemma {:induction false} StrLessIrreflexive(a: string)
    ensures !StrLess(a, a)
    decreases |a|
  {
    if a != [] {
      StrLessIrreflexive(a[1..]);
    }
  }

  lemma {:induction false} StrLessTransitive(a: string, b: string, c: string)
    requires StrLess(a, b) && StrLess(b, c)
    ensures StrLess(a, c)
    decreases |a|
  {
    if a != [] && a[0] == b[0] && b[0] == c[0] {
      StrLessTransitive(a[1..], b[1..], c[1..]);
    }
  }

  /** Of two different strings one is smaller. */
  lemma {:induction false} StrLessTotal(a: string, b: string)
    requires a != b
    ensures StrLess(a, b) || StrLess(b, a)
    decreases |a|
  {
    if a != [] && b != [] && a[0] == b[0] {
      assert a == [a[0]] + a[1..] && b == [b[0]] + b[1..];
      StrLessTotal(a[1..], b[1..]);
    }
  }

  lemma StrLessAsymmetric(a: string, b: string)
    ensures StrLess(a, b) ==> !StrLess(b, a)
  {
    if StrLess(a, b) && StrLess(b, a) {
      StrLessTransitive(a, b, a);
      StrLessIrreflexive(a);
    }
  }

  /** No string occurs twice, as in the contents of a `Set`. */
  predicate Distinct(s: seq<string>) {
    forall i, j :: 0 <= i < j < |s| ==> s[i] != s[j]
  }

  /** Each string is smaller than every later one. */
  predicate StrictlySorted(s: seq<string>) {
    forall i, j :: 0 <= i < j < |s| ==> StrLess(s[i], s[j])
  }

  /** Places `x` before the first string greater than it. */
  function InsertStr(s: seq<string>, x: string): seq<string>
    decreases |s|
  {
    if s == [] || StrLess(x, s[0]) then [x] + s else [s[0]] + InsertStr(s[1..], x)
  }

  /** Sorts distinct strings; a stand-in for the engine's sort, whose result on distinct strings is
      the only strictly sorted arrangement of them (`SortedUnique`). */
  function SortStrings(s: seq<string>): seq<string>
    decreases |s|
  {
    if s == [] then [] else InsertStr(SortStrings(s[1..]), s[0])
  }

  lemma {:induction false} InsertStrCorrect(s: seq<string>, x: string)
    requires StrictlySorted(s) && x !in s
    ensures multiset(InsertStr(s, x)) == multiset(s) + multiset{x}
    ensures StrictlySorted(InsertStr(s, x))
    decreases |s|
  {
    if s == [] {
    } else if StrLess(x, s[0]) {
      forall j | 0 <= j < |s| ensures StrLess(x, s[j]) {
        if j > 0 {
          StrLessTransitive(x, s[0], s[j]);
        }
      }
    } else {
      assert s == [s[0]] + s[1..];
      StrLessTotal(x, s[0]);
      InsertStrCorrect(s[1..], x);
      var t := InsertStr(s[1..], x);
      forall j | 0 <= j < |t| ensures StrLess(s[0], t[j]) {
        assert t[j] in multiset(s[1..]) + multiset{x};
        if t[j] != x {
          var m :| 0 <= m < |s[1..]| && s[1..][m] == t[j];
          assert s[m + 1] == t[j];
        }
      }
    }
  }

  /** Sorting distinct strings keeps each of them and puts them in strictly increasing order. */
  lemma {:induction false} SortStringsCorrect(s: seq<string>)
    requires Distinct(s)
    ensures multiset(SortStrings(s)) == multiset(s)
    ensures StrictlySorted(SortStrings(s))
    decreases |s|
  {
    if s != [] {
      assert s == [s[0]] + s[1..];
      SortStringsCorrect(s[1..]);
      var sorted := SortStrings(s[1..]);
      assert s[0] !in multiset(sorted);
      InsertStrCorrect(sorted, s[0]);
    }
  }

  /** The first string of a strictly sorted sequence is at most any string in it. */
  lemma SortedFirst(s: seq<string>, x: string)
    requires StrictlySorted(s) && x in s
    ensures s[0] == x || StrLess(s[0], x)
  {
  }

  /** Two strictly sorted sequences with the same strings are equal: the result of sorting distinct
      strings depends on which strings they are, not on the order they came in. */
  lemma {:induction false} SortedUnique(a: seq<string>, b: seq<string>)
    requires StrictlySorted(a) && StrictlySorted(b)
    requires forall x :: x in a <==> x in b
    ensures a == b
    decreases |a|
  {
    if a != [] && b != [] {
      SortedFirst(a, b[0]);
      SortedFirst(b, a[0]);
      StrLessAsymmetric(a[0], b[0]);
      assert a[0] == b[0];
      forall x ensures x in a[1..] <==> x in b[1..] {
        if x in a[1..] {
          var m :| 1 <= m < |a| && a[m] == x;
          StrLessIrreflexive(x);
          assert StrLess(a[0], x) && x != b[0];
          assert x in a;
          var k :| 0 <= k < |b| && b[k] == x;
          assert b[1..][k - 1] == x;
        }
        if x in b[1..] {
          var m :| 1 <= m < |b| && b[m] == x;
          StrLessIrreflexive(x);
          assert StrLess(b[0], x) && x != a[0];
          assert x in b;
          var k :| 0 <= k < |a| && a[k] == x;
          assert a[1..][k - 1] == x;
        }
      }
      SortedUnique(a[1..], b[1..]);
      assert a == [a[0]] + a[1..] && b == [b[0]] + b[1..];
    } else {
      forall x ensures multiset(a)[x] == 0 && multiset(b)[x] == 0 {
        assert x !in a && x !in b;
      }
      assert multiset(a) == multiset{} && multiset(b) == multiset{};
    }
  }
}
