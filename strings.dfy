/**
 * The parts of `kotlin.String` and `java.lang.String` that the modelled code relies on:
 * prefix and suffix tests, substring search, trimming, blank tests, splitting on a
 * separator, character replacement, ASCII case folding and the natural (lexicographic)
 * order used by `compareTo`, `<` and `sorted()`.
 */
module Strings {
  import opened Wrappers

  predicate StartsWith(s: string, prefix: string) {
    |prefix| <= |s| && s[..|prefix|] == prefix
  }

  predicate EndsWith(s: string, suffix: string) {
    |suffix| <= |s| && s[|s| - |suffix|..] == suffix
  }

  /** `s.contains(sub)`: `sub` occurs in `s` at some position. */
  predicate Contains(s: string, sub: string)
    decreases |s|
  {
    StartsWith(s, sub) || (|s| > 0 && Contains(s[1..], sub))
  }

  /** `sub` occurs in `s` at position `i`. */
  predicate OccursAt(s: string, sub: string, i: nat) {
    i + |sub| <= |s| && s[i..i + |sub|] == sub
  }

  /** Occurrences in `s` past its first character are the occurrences in `s[1..]`, shifted by one. */
  lemma OccursShift(s: string, sub: string)
    ensures OccursAt(s, sub, 0) <==> StartsWith(s, sub)
    ensures |s| > 0 ==> forall i: nat :: i > 0 ==> (OccursAt(s, sub, i) <==> OccursAt(s[1..], sub, i - 1))
  {
    assert |sub| <= |s| ==> s[0..|sub|] == s[..|sub|];
    if |s| > 0 {
      forall i: nat | i > 0
        ensures OccursAt(s, sub, i) <==> OccursAt(s[1..], sub, i - 1)
      {
        if i + |sub| <= |s| {
          var t := s[1..];
          var here, there := s[i..i + |sub|], t[i - 1..i - 1 + |sub|];
          assert forall k :: 0 <= k < |sub| ==> here[k] == there[k];
          assert here == there;
        }
      }
    }
  }

  lemma {:induction false} ContainsIffOccurs(s: string, sub: string)
    ensures Contains(s, sub) <==> exists i: nat :: OccursAt(s, sub, i)
    decreases |s|
  {
    OccursShift(s, sub);
    if StartsWith(s, sub) {
      assert OccursAt(s, sub, 0);
    } else if |s| > 0 {
      ContainsIffOccurs(s[1..], sub);
      if Contains(s[1..], sub) {
        var i: nat :| OccursAt(s[1..], sub, i);
        assert OccursAt(s, sub, i + 1);
      }
    }
  }

  /** A string contains each of the pieces it is glued from. */
  lemma ContainsInfix(a: string, b: string, c: string)
    ensures Contains(a + b + c, b)
  {
    ContainsIffOccurs(a + b + c, b);
    assert (a + b + c)[|a|..|a| + |b|] == b;
    assert OccursAt(a + b + c, b, |a|);
  }

  /** What a piece contains, a string glued around it contains too. */
  lemma ContainsWithin(a: string, b: string, c: string, sub: string)
    requires Contains(b, sub)
    ensures Contains(a + b + c, sub)
  {
    ContainsIffOccurs(b, sub);
    var i: nat :| OccursAt(b, sub, i);
    ContainsIffOccurs(a + b + c, sub);
    var whole := a + b + c;
    assert whole[|a| + i..|a| + i + |sub|] == b[i..i + |sub|];
    assert OccursAt(whole, sub, |a| + i);
  }

  /** What the left part of a string contains, the string contains. */
  lemma ContainsLeft(a: string, b: string, sub: string)
    requires Contains(a, sub)
    ensures Contains(a + b, sub)
  {
    ContainsWithin([], a, b, sub);
    assert [] + a + b == a + b;
  }

  /** What the right part of a string contains, the string contains. */
  lemma ContainsRight(a: string, b: string, sub: string)
    requires Contains(b, sub)
    ensures Contains(a + b, sub)
  {
    ContainsWithin(a, b, [], sub);
    assert a + b + [] == a + b;
  }

  /** `s.indexOf(sub)`, with `None` for Java's -1: the first position at which `sub` occurs. */
  function IndexOf(s: string, sub: string): (r: Option<nat>)
    ensures r.Some? ==> OccursAt(s, sub, r.value)
    ensures r.Some? ==> forall j: nat :: j < r.value ==> !OccursAt(s, sub, j)
    ensures r.None? <==> !Contains(s, sub)
    decreases |s|
  {
    OccursShift(s, sub);
    if StartsWith(s, sub) then Some(0)
    else if |s| == 0 then None
    else match IndexOf(s[1..], sub)
      case None => None
      case Some(k) => Some(k + 1)
  }

  /** `Character.isWhitespace(c) || Character.isSpaceChar(c)`, Kotlin's `Char.isWhitespace()`. */
  predicate IsWhitespace(c: char) {
    || c == ' ' || c == '\t' || c == '\n' || c == '\U{B}' || c == '\U{C}' || c == '\r'
    || ('\U{1C}' <= c <= '\U{1F}')
    || c == '\U{A0}' || c == '\U{1680}' || ('\U{2000}' <= c <= '\U{200A}')
    || c == '\U{2028}' || c == '\U{2029}' || c == '\U{202F}' || c == '\U{205F}' || c == '\U{3000}'
  }

  /** The test of `trim { it <= ' ' }` and of `java.lang.String.trim()`. */
  predicate IsSpaceOrControl(c: char) {
    c <= ' '
  }

  /** Kotlin's `isBlank()`: every character is whitespace (the empty string is blank). */
  predicate IsBlank(s: string) {
    forall i :: 0 <= i < |s| ==> IsWhitespace(s[i])
  }

  /** Kotlin's `isNullOrBlank()`. */
  predicate IsNullOrBlank(s: Option<string>) {
    s.None? || IsBlank(s.value)
  }

  /** Kotlin's `isNullOrEmpty()`. */
  predicate IsNullOrEmpty(s: Option<string>) {
    s.None? || s.value == ""
  }

  /** Drops the longest prefix of `s` whose characters all satisfy `p`. */
  function DropLeading(s: string, p: char -> bool): (r: string)
    ensures |r| <= |s| && r == s[|s| - |r|..]
    ensures forall i :: 0 <= i < |s| - |r| ==> p(s[i])
    ensures |r| > 0 ==> !p(r[0])
  {
    if |s| > 0 && p(s[0]) then DropLeading(s[1..], p) else s
  }

  /** Drops the longest suffix of `s` whose characters all satisfy `p`. */
  function DropTrailing(s: string, p: char -> bool): (r: string)
    ensures |r| <= |s| && r == s[..|r|]
    ensures forall i :: |r| <= i < |s| ==> p(s[i])
    ensures |r| > 0 ==> !p(r[|r| - 1])
  {
    if |s| > 0 && p(s[|s| - 1]) then DropTrailing(s[..|s| - 1], p) else s
  }

  /** Kotlin's `trim()`: strips leading and trailing whitespace. */
  function Trim(s: string): string {
    DropTrailing(DropLeading(s, IsWhitespace), IsWhitespace)
  }

  /** `trim { it <= ' ' }` (and Java's `trim()`): strips leading and trailing characters up to the space. */
  function TrimControl(s: string): string {
    DropTrailing(DropLeading(s, IsSpaceOrControl), IsSpaceOrControl)
  }

  /** A string is blank exactly when trimming it leaves nothing. */
  lemma BlankIffTrimEmpty(s: string)
    ensures IsBlank(s) <==> Trim(s) == ""
  {
    var d := DropLeading(s, IsWhitespace);
    if Trim(s) == "" {
      assert d == "";
    } else {
      assert !IsWhitespace(d[0]);
      assert d[0] == s[|s| - |d|];
    }
  }

  /** `s.replace(from, to)` for single characters. */
  function ReplaceChar(s: string, from: char, to: char): (r: string)
    ensures |r| == |s|
    ensures forall i :: 0 <= i < |s| ==> r[i] == (if s[i] == from then to else s[i])
  {
    seq(|s|, i requires 0 <= i < |s| => if s[i] == from then to else s[i])
  }

  /** ASCII case folding, the part of `equals(…, ignoreCase = true)` the model keeps. */
  function LowerChar(c: char): char {
    if 'A' <= c <= 'Z' then (c as int - 'A' as int + 'a' as int) as char else c
  }

  function Lower(s: string): (r: string)
    ensures |r| == |s|
  {
    seq(|s|, i requires 0 <= i < |s| => LowerChar(s[i]))
  }

  predicate EqualsIgnoreCase(a: string, b: string) {
    Lower(a) == Lower(b)
  }

  predicate ContainsIgnoreCase(s: string, sub: string) {
    Contains(Lower(s), Lower(sub))
  }

  /** Kotlin's `s.split(sep)` on a one-character separator: every piece, empty ones included. */
  function Split(s: string, sep: char): (r: seq<string>)
    ensures |r| >= 1
    ensures forall k :: 0 <= k < |r| ==> sep !in r[k]
    decreases |s|
  {
    if |s| == 0 then [""]
    else if s[0] == sep then [""] + Split(s[1..], sep)
    else
      var rest := Split(s[1..], sep);
      [[s[0]] + rest[0]] + rest[1..]
  }

  /** The inverse of `Split`: the pieces glued back with the separator between them. */
  function Join(pieces: seq<string>, sep: char): string
    requires |pieces| >= 1
  {
    if |pieces| == 1 then pieces[0] else pieces[0] + [sep] + Join(pieces[1..], sep)
  }

  lemma {:induction false} JoinSplit(s: string, sep: char)
    ensures Join(Split(s, sep), sep) == s
    decreases |s|
  {
    if |s| == 0 {
    } else if s[0] == sep {
      JoinSplit(s[1..], sep);
      assert Split(s, sep)[1..] == Split(s[1..], sep);
    } else {
      var rest := Split(s[1..], sep);
      JoinSplit(s[1..], sep);
      var r := Split(s, sep);
      assert r[1..] == rest[1..];
      if |rest| == 1 {
      } else {
        assert Join(rest, sep) == rest[0] + [sep] + Join(rest[1..], sep);
      }
    }
  }

  lemma {:induction false} SplitJoin(pieces: seq<string>, sep: char)
    requires |pieces| >= 1
    requires forall k :: 0 <= k < |pieces| ==> sep !in pieces[k]
    ensures Split(Join(pieces, sep), sep) == pieces
    decreases |Join(pieces, sep)|, |pieces[0]|
  {
    var p := pieces[0];
    if |p| == 0 {
      if |pieces| == 1 {
      } else {
        var s := Join(pieces, sep);
        assert s == [sep] + Join(pieces[1..], sep);
        assert s[1..] == Join(pieces[1..], sep);
        SplitJoin(pieces[1..], sep);
        assert Split(s, sep) == [""] + pieces[1..];
      }
    } else {
      var s := Join(pieces, sep);
      var shorter := [p[1..]] + pieces[1..];
      assert shorter[1..] == pieces[1..];
      assert Join(shorter, sep) == s[1..] by {
        if |pieces| == 1 {
        } else {
          assert s == p + [sep] + Join(pieces[1..], sep);
        }
      }
      assert p[0] in p;
      assert s[0] == p[0];
      assert forall k :: 0 <= k < |shorter| ==> sep !in shorter[k] by {
        assert forall c :: c in p[1..] ==> c in p;
      }
      SplitJoin(shorter, sep);
      assert [p[0]] + p[1..] == p;
    }
  }

  /** Kotlin's `dropLastWhile { it.isEmpty() }`. */
  function DropTrailingEmpty(pieces: seq<string>): (r: seq<string>)
    ensures |r| <= |pieces| && r == pieces[..|r|]
    ensures forall k :: |r| <= k < |pieces| ==> pieces[k] == ""
    ensures |r| > 0 ==> r[|r| - 1] != ""
  {
    if |pieces| > 0 && pieces[|pieces| - 1] == "" then DropTrailingEmpty(pieces[..|pieces| - 1]) else pieces
  }

  /** The decimal rendering of a natural number, as Kotlin's string templates print an `Int`. */
  function NatToString(n: nat): (r: string)
    ensures |r| >= 1
    ensures forall k :: 0 <= k < |r| ==> '0' <= r[k] <= '9'
  {
    if n < 10 then [('0' as int + n) as char]
    else NatToString(n / 10) + [('0' as int + n % 10) as char]
  }

  // ---------------------------------------------------------------------------------------
  // The natural order of strings: `compareTo`, character by character, a proper prefix first.

  predicate LexLessEq(a: string, b: string)
    decreases |a|
  {
    |a| == 0 || (|b| > 0 && (a[0] < b[0] || (a[0] == b[0] && LexLessEq(a[1..], b[1..]))))
  }

  /** Kotlin's `a < b` on strings. */
  predicate LexLess(a: string, b: string) {
    LexLessEq(a, b) && a != b
  }

  lemma {:induction false} LexTotal(a: string, b: string)
    ensures LexLessEq(a, b) || LexLessEq(b, a)
    decreases |a|
  {
    if |a| > 0 && |b| > 0 && a[0] == b[0] {
      LexTotal(a[1..], b[1..]);
    }
  }

  lemma {:induction false} LexAntisymmetric(a: string, b: string)
    requires LexLessEq(a, b) && LexLessEq(b, a)
    ensures a == b
    decreases |a|
  {
    if |a| > 0 {
      LexAntisymmetric(a[1..], b[1..]);
      assert a == [a[0]] + a[1..] && b == [b[0]] + b[1..];
    }
  }

  lemma {:induction false} LexTransitive(a: string, b: string, c: string)
    requires LexLessEq(a, b) && LexLessEq(b, c)
    ensures LexLessEq(a, c)
    decreases |a|
  {
    if |a| > 0 && a[0] == b[0] && b[0] == c[0] {
      LexTransitive(a[1..], b[1..], c[1..]);
    }
  }

  lemma LexLessAsymmetric(a: string, b: string)
    requires LexLess(a, b)
    ensures !LexLessEq(b, a)
  {
    if LexLessEq(b, a) { LexAntisymmetric(a, b); }
  }

  lemma LexLessTransitive(a: string, b: string, c: string)
    requires LexLess(a, b) && LexLess(b, c)
    ensures LexLess(a, c)
  {
    LexTransitive(a, b, c);
    if a == c { LexAntisymmetric(a, b); }
  }

  /** Strictly increasing in the natural order, so also free of duplicates. */
  predicate StrictlySorted(s: seq<string>) {
    forall i, j :: 0 <= i < j < |s| ==> LexLess(s[i], s[j])
  }

  /** Inserts `x` at its place in a strictly sorted sequence that does not hold it yet. */
  function InsertSorted(s: seq<string>, x: string): (r: seq<string>)
    requires StrictlySorted(s) && x !in s
    ensures StrictlySorted(r)
    ensures |r| == |s| + 1
    ensures forall y :: y in r <==> y in s || y == x
  {
    if |s| == 0 then [x]
    else if LexLessEq(x, s[0]) then
      assert forall j :: 0 < j < |s| ==> LexLess(x, s[j]) by {
        forall j | 0 < j < |s| ensures LexLess(x, s[j]) {
          LexTransitive(x, s[0], s[j]);
        }
      }
      [x] + s
    else
      LexTotal(x, s[0]);
      var tail := InsertSorted(s[1..], x);
      assert forall y :: y in tail ==> LexLess(s[0], y) by {
        forall y | y in tail ensures LexLess(s[0], y) {
          if y != x {
            var j :| 0 <= j < |s[1..]| && s[1..][j] == y;
            assert s[j + 1] == y;
          }
        }
      }
      [s[0]] + tail
  }

  /** Two strictly sorted sequences with the same elements are equal: sorting a set has one result. */
  lemma {:induction false} StrictlySortedUnique(a: seq<string>, b: seq<string>)
    requires StrictlySorted(a) && StrictlySorted(b)
    requires forall y :: y in a <==> y in b
    ensures a == b
    decreases |a|
  {
    assert |b| > 0 ==> b[0] in b;
    if |a| > 0 {
      assert a[0] in b;
      assert b != [] && b[0] in a;
      if a[0] != b[0] {
        var i :| 0 <= i < |a| && a[i] == b[0];
        var j :| 0 <= j < |b| && b[j] == a[0];
        assert LexLess(a[0], a[i]);
        assert LexLess(b[0], b[j]);
        LexLessAsymmetric(a[0], b[0]);
      }
      forall y ensures y in a[1..] <==> y in b[1..] {
        if y in a[1..] {
          var i :| 0 <= i < |a[1..]| && a[1..][i] == y;
          assert a[i + 1] == y && LexLess(a[0], y);
          assert y in b;
        }
        if y in b[1..] {
          var j :| 0 <= j < |b[1..]| && b[1..][j] == y;
          assert b[j + 1] == y && LexLess(b[0], y);
          assert y in a;
        }
      }
      StrictlySortedUnique(a[1..], b[1..]);
      assert a == [a[0]] + a[1..] && b == [b[0]] + b[1..];
    }
  }

  /** The elements of a finite set of strings in their natural order: Kotlin's `set.sorted()`. */
  ghost function SortedSet(s: set<string>): (r: seq<string>)
    ensures StrictlySorted(r)
    ensures forall y :: y in r <==> y in s
    ensures |r| == |s|
    decreases s
  {
    if s == {} then []
    else
      var x :| x in s;
      InsertSorted(SortedSet(s - {x}), x)
  }

  /** The empty sorted rendering belongs to the empty set only. */
  lemma SortedSetEmpty(s: set<string>)
    ensures SortedSet(s) == [] <==> s == {}
  {
  }
}
