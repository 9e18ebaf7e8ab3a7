/** The JavaScript string operations the bookmark manager relies on, over `string` (a `seq<char>`). */
module Text {
  import opened Seqs

  /** The characters ECMAScript counts as white space or line terminators: the class `\s` of a
      regular expression, and what `String.prototype.trim` removes. */
  predicate IsSpace(c: char) {
    || c == '\t' || c == '\n' || c == '\U{B}' || c == '\U{C}' || c == '\r' || c == ' '
    || c == '\U{A0}' || c == '\U{1680}' || ('\U{2000}' <= c <= '\U{200A}')
    || c == '\U{2028}' || c == '\U{2029}' || c == '\U{202F}' || c == '\U{205F}'
    || c == '\U{3000}' || c == '\U{FEFF}'
  }

  /** `s.startsWith(p)`. */
  predicate StartsWith(s: string, p: string) {
    p <= s
  }

  /** `s.includes(sub)`: `sub` occurs in `s` at some position. */
  predicate Contains(s: string, sub: string) {
    exists i :: 0 <= i <= |s| - |sub| && sub <= s[i..]
  }

  /** Every slice of a string occurs in it. */
  lemma ContainsSlice(s: string, a: int, b: int)
    requires 0 <= a <= b <= |s|
    ensures Contains(s, s[a..b])
  {
    assert s[a..b] <= s[a..];
  }

  /** Every string contains the empty string. */
  lemma ContainsEmpty(s: string)
    ensures Contains(s, "")
  {
    assert "" <= s[0..];
  }

  /** `toLowerCase` on one character (ASCII letters only). */
  function LowerChar(c: char): char {
    if 'A' <= c <= 'Z' then (c as int + 32) as char else c
  }

  /** `toUpperCase` on one character (ASCII letters only). */
  function UpperChar(c: char): char {
    if 'a' <= c <= 'z' then (c as int - 32) as char else c
  }

  /** `s.toLowerCase()`, character by character: no capital letter is left, every other character is
      kept, and each letter stays the same letter. */
  function ToLower(s: string): (r: string)
    ensures |r| == |s|
    ensures forall i :: 0 <= i < |s| ==> r[i] == LowerChar(s[i])
    ensures forall i :: 0 <= i < |r| ==> !('A' <= r[i] <= 'Z')
    ensures forall i :: 0 <= i < |s| && !('A' <= s[i] <= 'Z') ==> r[i] == s[i]
    ensures forall i :: 0 <= i < |s| ==> UpperChar(r[i]) == UpperChar(s[i])
  {
    seq(|s|, i requires 0 <= i < |s| => LowerChar(s[i]))
  }

  /** Lower-casing works piece by piece. */
  lemma ToLowerConcat(a: string, b: string)
    ensures ToLower(a + b) == ToLower(a) + ToLower(b)
  {
    assert forall i :: 0 <= i < |a + b| ==> ToLower(a + b)[i] == (ToLower(a) + ToLower(b))[i];
  }

  /** `s.charAt(0).toUpperCase() + s.slice(1)`: the rest is kept, and the first character is the same
      letter as before and not a small letter. */
  function UpperFirst(s: string): (r: string)
    ensures |r| == |s|
    ensures r != [] ==> r[0] == UpperChar(s[0]) && r[1..] == s[1..]
    ensures r != [] ==> !('a' <= r[0] <= 'z') && LowerChar(r[0]) == LowerChar(s[0])
  {
    if s == [] then [] else [UpperChar(s[0])] + s[1..]
  }

  /** The number of white-space characters at the start of `s`. */
  function LeadingSpaces(s: string): (k: nat)
    ensures k <= |s|
    ensures forall i :: 0 <= i < k ==> IsSpace(s[i])
    ensures k < |s| ==> !IsSpace(s[k])
  {
    if s == [] || !IsSpace(s[0]) then 0 else 1 + LeadingSpaces(s[1..])
  }

  /** The number of white-space characters at the end of `s`. */
  function TrailingSpaces(s: string): (k: nat)
    ensures k <= |s|
    ensures forall i :: |s| - k <= i < |s| ==> IsSpace(s[i])
    ensures k < |s| ==> !IsSpace(s[|s| - 1 - k])
  {
    if s == [] || !IsSpace(s[|s| - 1]) then 0 else 1 + TrailingSpaces(s[..|s| - 1])
  }

  /** `s.trimStart()`. */
  function TrimStart(s: string): string {
    s[LeadingSpaces(s)..]
  }

  /** `s.trim()`. */
  function Trim(s: string): string {
    var t := TrimStart(s);
    t[..|t| - TrailingSpaces(t)]
  }

  /** `t` neither starts nor ends with white space. */
  predicate IsTrimmed(t: string) {
    t == [] || (!IsSpace(t[0]) && !IsSpace(t[|t| - 1]))
  }

  /** What `trim` returns is the middle of its input: it removes white space from both ends and
      nothing else, and the result has no white space left at either end. */
  lemma TrimSpec(s: string) returns (a: nat, b: nat)
    ensures a <= b <= |s| && Trim(s) == s[a..b]
    ensures forall i :: 0 <= i < a ==> IsSpace(s[i])
    ensures forall i :: b <= i < |s| ==> IsSpace(s[i])
    ensures IsTrimmed(Trim(s))
  {
    var t := TrimStart(s);
    a := LeadingSpaces(s);
    b := a + |t| - TrailingSpaces(t);
    assert t == s[a..];
    assert Trim(s) == s[a..b];
    if Trim(s) != [] {
      assert |t| - TrailingSpaces(t) > 0;
      assert Trim(s)[0] == t[0];
    }
    forall i | b <= i < |s| ensures IsSpace(s[i]) {
      assert s[i] == t[i - a];
    }
  }

  /** A string contains its own trimmed form. */
  lemma ContainsTrimmed(s: string)
    ensures Contains(s, Trim(s))
  {
    var a, b := TrimSpec(s);
    ContainsSlice(s, a, b);
  }

  /** Trimming a string that has no white space at its ends changes nothing. */
  lemma TrimTrimmed(t: string)
    requires IsTrimmed(t)
    ensures Trim(t) == t
  {
    assert LeadingSpaces(t) == 0;
    assert TrimStart(t) == t;
  }

  /** Trimming is idempotent. */
  lemma TrimIdempotent(s: string)
    ensures Trim(Trim(s)) == Trim(s)
  {
    var _, _ := TrimSpec(s);
    TrimTrimmed(Trim(s));
  }

  /** `s.replace(pat, rep)` with a string pattern: only the first occurrence is replaced. */
  function ReplaceFirst(s: string, pat: string, rep: string): string
    decreases |s|
  {
    if pat <= s then rep + s[|pat|..]
    else if s == [] then s
    else [s[0]] + ReplaceFirst(s[1..], pat, rep)
  }

  /** `s.split(c)[0]`: the text before the first `c`, or all of `s`. */
  function BeforeFirst(s: string, c: char): (r: string)
    ensures r <= s && c !in r
    ensures |r| < |s| ==> s[|r|] == c
  {
    if s == [] || s[0] == c then [] else [s[0]] + BeforeFirst(s[1..], c)
  }

  /** A piece of `split(/\s+/)` that survives `filter(t => t)`: non-empty, without white space. */
  predicate IsWord(w: string) {
    w != [] && forall i :: 0 <= i < |w| ==> !IsSpace(w[i])
  }

  /** The number of non-white-space characters at the start of `s`. */
  function WordLength(s: string): (k: nat)
    ensures k <= |s|
    ensures forall i :: 0 <= i < k ==> !IsSpace(s[i])
    ensures k < |s| ==> IsSpace(s[k])
  {
    if s == [] || IsSpace(s[0]) then 0 else 1 + WordLength(s[1..])
  }

  /** `s.split(/\s+/).filter(t => t)`: the maximal runs of non-white-space characters, in order. */
  function Words(s: string): (ws: seq<string>)
    ensures forall k :: 0 <= k < |ws| ==> IsWord(ws[k])
    decreases |s|
  {
    var t := TrimStart(s);
    if t == [] then []
    else
      var k := WordLength(t);
      [t[..k]] + Words(t[k..])
  }

  /** The words joined by single spaces. */
  function JoinSpaced(ws: seq<string>): string {
    if ws == [] then []
    else if |ws| == 1 then ws[0]
    else ws[0] + " " + JoinSpaced(ws[1..])
  }

  /** The words concatenated without separators. */
  function Concat(ws: seq<string>): string {
    if ws == [] then [] else ws[0] + Concat(ws[1..])
  }

  /** A string without white space whose end is followed by white space or nothing. */
  lemma WordsAfterWord(w: string, rest: string)
    requires IsWord(w)
    requires rest == [] || IsSpace(rest[0])
    ensures Words(w + rest) == [w] + Words(rest)
  {
    var s := w + rest;
    assert LeadingSpaces(s) == 0;
    assert TrimStart(s) == s;
    assert WordLength(s) == |w| by {
      WordLengthAt(s, w, rest);
    }
    assert s[..|w|] == w && s[|w|..] == rest;
    if rest != [] {
      assert LeadingSpaces(rest) > 0;
    } else {
      assert Words(rest) == [];
    }
  }

  lemma {:induction false} WordLengthAt(s: string, w: string, rest: string)
    requires s == w + rest && forall i :: 0 <= i < |w| ==> !IsSpace(w[i])
    requires rest == [] || IsSpace(rest[0])
    ensures WordLength(s) == |w|
    decreases |w|
  {
    if w != [] {
      assert s[1..] == w[1..] + rest;
      WordLengthAt(s[1..], w[1..], rest);
    }
  }

  /** White space in front of a string does not change its words. */
  lemma {:induction false} WordsAfterSpace(s: string)
    requires s != [] && IsSpace(s[0])
    ensures Words(s) == Words(s[1..])
  {
    assert LeadingSpaces(s) == 1 + LeadingSpaces(s[1..]);
    assert TrimStart(s) == TrimStart(s[1..]);
  }

  /** Splitting on white space undoes joining words with single spaces. */
  lemma {:induction false} WordsOfJoin(ws: seq<string>)
    requires forall k :: 0 <= k < |ws| ==> IsWord(ws[k])
    ensures Words(JoinSpaced(ws)) == ws
  {
    if ws == [] {
      assert TrimStart([]) == [];
    } else if |ws| == 1 {
      WordsAfterWord(ws[0], []);
      assert ws[0] + [] == ws[0];
      assert TrimStart([]) == [];
    } else {
      var rest := " " + JoinSpaced(ws[1..]);
      assert JoinSpaced(ws) == ws[0] + rest;
      WordsAfterWord(ws[0], rest);
      WordsAfterSpace(rest);
      assert rest[1..] == JoinSpaced(ws[1..]);
      WordsOfJoin(ws[1..]);
    }
  }

  /** The words hold exactly the non-white-space characters of the input, in order. */
  lemma {:induction false} WordsKeepCharacters(s: string)
    ensures Concat(Words(s)) == Filter(s, c => !IsSpace(c))
    decreases |s|
  {
    var t := TrimStart(s);
    SpacesFilteredOut(s);
    if t != [] {
      var k := WordLength(t);
      WordCharactersKept(t);
      WordsKeepCharacters(t[k..]);
      assert Words(s) == [t[..k]] + Words(t[k..]);
      assert Concat(Words(s)) == t[..k] + Concat(Words(t[k..]));
    }
  }

  /** Leading white space contributes no characters. */
  lemma SpacesFilteredOut(s: string)
    ensures Filter(s, c => !IsSpace(c)) == Filter(TrimStart(s), c => !IsSpace(c))
  {
    var a := LeadingSpaces(s);
    assert s == s[..a] + TrimStart(s);
    FilterConcat(s[..a], TrimStart(s), c => !IsSpace(c));
    NoWordIn(s[..a]);
  }

  /** A word at the front contributes all of its characters. */
  lemma WordCharactersKept(t: string)
    ensures Filter(t, c => !IsSpace(c)) == t[..WordLength(t)] + Filter(t[WordLength(t)..], c => !IsSpace(c))
  {
    var k := WordLength(t);
    assert t == t[..k] + t[k..];
    FilterConcat(t[..k], t[k..], c => !IsSpace(c));
    FilterAll(t[..k], c => !IsSpace(c));
  }

  /** A string made only of white space has no characters left after filtering it out. */
  lemma {:induction false} NoWordIn(s: string)
    requires forall i :: 0 <= i < |s| ==> IsSpace(s[i])
    ensures Filter(s, c => !IsSpace(c)) == []
  {
    if s != [] {
      NoWordIn(s[1..]);
    }
  }
}
