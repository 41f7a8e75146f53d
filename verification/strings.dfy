/**
 * The handful of Python string operations the analysis pipeline relies on:
 * character classes, `lower()`, `strip()`, splitting into maximal runs
 * (`str.split()` and `re.findall(r'\b\w+\b', ...)`), `' '.join(...)`, the
 * `in` substring test, `str.count` and `str.split(',')`.
 */
module Strings {

  /** Whitespace as Python's `str.isspace` (and so `strip()`, `split()` and `\s`) sees it. */
  predicate IsSpace(c: char) {
    var n := c as int;
    || n == 0x20
    || 0x09 <= n <= 0x0D
    || 0x1C <= n <= 0x1F
    || n == 0x85 || n == 0xA0 || n == 0x1680
    || 0x2000 <= n <= 0x200A
    || n == 0x2028 || n == 0x2029 || n == 0x202F || n == 0x205F || n == 0x3000
  }

  predicate NotSpace(c: char) {
    !IsSpace(c)
  }

  predicate IsUpper(c: char) {
    'A' <= c <= 'Z'
  }

  /** A regular-expression word character `\w`, restricted to ASCII. */
  predicate IsWordChar(c: char) {
    'a' <= c <= 'z' || 'A' <= c <= 'Z' || '0' <= c <= '9' || c == '_'
  }

  /** Every character of `s` satisfies `p`. */
  predicate All(s: string, p: char -> bool) {
    forall i :: 0 <= i < |s| ==> p(s[i])
  }

  /** No character of `s` satisfies `p`. */
  predicate NoneOf(s: string, p: char -> bool) {
    forall i :: 0 <= i < |s| ==> !p(s[i])
  }

  predicate IsLowercase(s: string) {
    forall i :: 0 <= i < |s| ==> !IsUpper(s[i])
  }

  /** `c.lower()` for ASCII letters; every other character is its own lower case here. */
  function LowerChar(c: char): (d: char)
    ensures !IsUpper(d)
    ensures IsSpace(d) == IsSpace(c) && IsWordChar(d) == IsWordChar(c)
    ensures !IsUpper(c) ==> d == c
  {
    if IsUpper(c) then (c as int + 32) as char else c
  }

  /** `s.lower()`. */
  function Lower(s: string): (r: string)
    ensures |r| == |s| && IsLowercase(r)
    ensures forall i {:trigger r[i]} :: 0 <= i < |s| ==> r[i] == LowerChar(s[i])
  {
    seq(|s|, i requires 0 <= i < |s| => LowerChar(s[i]))
  }

  lemma LowerOfLowercase(s: string)
    requires IsLowercase(s)
    ensures Lower(s) == s
  {
  }

  /** Number of whitespace characters `strip()` removes from the front. */
  function LeadingSpaces(s: string): (n: nat)
    ensures n <= |s|
    ensures forall k :: 0 <= k < n ==> IsSpace(s[k])
    ensures n < |s| ==> !IsSpace(s[n])
  {
    if |s| > 0 && IsSpace(s[0]) then 1 + LeadingSpaces(s[1..]) else 0
  }

  /** Number of whitespace characters `strip()` removes from the back. */
  function TrailingSpaces(s: string): (n: nat)
    ensures n <= |s|
    ensures forall k :: |s| - n <= k < |s| ==> IsSpace(s[k])
    ensures n < |s| ==> !IsSpace(s[|s| - 1 - n])
  {
    if |s| > 0 && IsSpace(s[|s| - 1]) then 1 + TrailingSpaces(s[..|s| - 1]) else 0
  }

  /**
   * `s.strip()`: the slice of `s` that follows its leading whitespace, with
   * only whitespace after it, and neither starting nor ending in whitespace.
   */
  function Strip(s: string): (r: string)
    ensures |r| <= |s|
    ensures LeadingSpaces(s) + |r| <= |s| && r == s[LeadingSpaces(s)..LeadingSpaces(s) + |r|]
    ensures forall k :: LeadingSpaces(s) + |r| <= k < |s| ==> IsSpace(s[k])
    ensures |r| > 0 ==> NotSpace(r[0]) && NotSpace(r[|r| - 1])
  {
    var t := s[LeadingSpaces(s)..];
    t[..|t| - TrailingSpaces(t)]
  }

  lemma StripIdempotent(s: string)
    ensures Strip(Strip(s)) == Strip(s)
  {
    var r := Strip(s);
    assert LeadingSpaces(r) == 0;
  }

  /** `strip()` leaves nothing exactly when the text is all whitespace. */
  lemma StripEmptyIffBlank(s: string)
    ensures Strip(s) == "" <==> All(s, IsSpace)
  {
    if All(s, IsSpace) {
      assert LeadingSpaces(s) == |s|;
    }
  }

  /** `strip()` only removes characters. */
  lemma StripChars(s: string, c: char)
    ensures c in Strip(s) ==> c in s
  {
    var r := Strip(s);
    assert forall i :: 0 <= i < |r| ==> r[i] == s[LeadingSpaces(s) + i];
  }

  lemma StripOfLowercase(s: string)
    requires IsLowercase(s)
    ensures IsLowercase(Strip(s))
  {
    var r := Strip(s);
    var i := LeadingSpaces(s);
    forall k | 0 <= k < |r|
      ensures !IsUpper(r[k])
    {
      assert r[k] == s[i + k];
    }
  }

  lemma {:induction false} LeadingSpacesLower(s: string)
    ensures LeadingSpaces(Lower(s)) == LeadingSpaces(s)
    decreases |s|
  {
    if |s| > 0 {
      LowerSuffix(s, 1);
      LeadingSpacesLower(s[1..]);
    }
  }

  lemma {:induction false} TrailingSpacesLower(s: string)
    ensures TrailingSpaces(Lower(s)) == TrailingSpaces(s)
    decreases |s|
  {
    if |s| > 0 {
      LowerPrefix(s, |s| - 1);
      TrailingSpacesLower(s[..|s| - 1]);
    }
  }

  /** Lower-casing never turns a space into a non-space or back, so it commutes with `strip()`. */
  lemma LowerStrip(s: string)
    ensures Lower(Strip(s)) == Strip(Lower(s))
  {
    var n := LeadingSpaces(s);
    var t := s[n..];
    StripParts(s);
    StripParts(Lower(s));
    LeadingSpacesLower(s);
    LowerSuffix(s, n);
    TrailingSpacesLower(t);
    LowerPrefix(t, |t| - TrailingSpaces(t));
  }

  /** `strip()` as the two cuts it makes. */
  lemma StripParts(s: string)
    ensures var t := s[LeadingSpaces(s)..];
            Strip(s) == t[..|t| - TrailingSpaces(t)]
  {
  }

  /** Lower-casing works character by character, so it distributes over concatenation. */
  lemma LowerAppend(a: string, b: string)
    ensures Lower(a + b) == Lower(a) + Lower(b)
  {
    assert forall i :: 0 <= i < |a + b| ==> Lower(a + b)[i] == (Lower(a) + Lower(b))[i];
  }

  lemma LowerSuffix(s: string, n: nat)
    requires n <= |s|
    ensures Lower(s)[n..] == Lower(s[n..])
  {
  }

  lemma LowerPrefix(s: string, n: nat)
    requires n <= |s|
    ensures Lower(s)[..n] == Lower(s[..n])
  {
  }

  /** Length of the longest prefix of `s` whose characters all satisfy `p`. */
  function RunLength(s: string, p: char -> bool): (n: nat)
    ensures n <= |s|
    ensures forall k :: 0 <= k < n ==> p(s[k])
    ensures n < |s| ==> !p(s[n])
  {
    if |s| > 0 && p(s[0]) then 1 + RunLength(s[1..], p) else 0
  }

  /**
   * The maximal runs of characters satisfying `p`, left to right. With
   * `NotSpace` this is Python's `s.split()`; with `IsWordChar` it is
   * `re.findall(r'\b\w+\b', s)`.
   */
  function Runs(s: string, p: char -> bool): (r: seq<string>)
    ensures forall k :: 0 <= k < |r| ==> |r[k]| > 0 && All(r[k], p)
    ensures forall k, j :: 0 <= k < |r| && 0 <= j < |r[k]| ==> r[k][j] in s
    decreases |s|
  {
    if |s| == 0 then []
    else if !p(s[0]) then Runs(s[1..], p)
    else
      var n := RunLength(s, p);
      [s[..n]] + Runs(s[n..], p)
  }

  /** `sep.join(ws)`. */
  function Join(ws: seq<string>, sep: string): string
  {
    if |ws| == 0 then ""
    else if |ws| == 1 then ws[0]
    else ws[0] + sep + Join(ws[1..], sep)
  }

  lemma RunsSkip(u: string, rest: string, p: char -> bool)
    requires NoneOf(u, p)
    ensures Runs(u + rest, p) == Runs(rest, p)
    decreases |u|
  {
    if |u| > 0 {
      assert (u + rest)[1..] == u[1..] + rest;
      RunsSkip(u[1..], rest, p);
    } else {
      assert u + rest == rest;
    }
  }

  lemma RunsTakeRun(w: string, rest: string, p: char -> bool)
    requires |w| > 0 && All(w, p)
    requires |rest| == 0 || !p(rest[0])
    ensures Runs(w + rest, p) == [w] + Runs(rest, p)
  {
    var s := w + rest;
    var n := RunLength(s, p);
    assert forall k :: 0 <= k < |w| ==> s[k] == w[k];
    assert |rest| > 0 ==> s[|w|] == rest[0];
    assert s[..n] == w && s[n..] == rest;
  }

  /** The run length is the one position where the run of `p` characters stops. */
  lemma RunLengthUnique(s: string, p: char -> bool, n: nat)
    requires n <= |s| && (forall k :: 0 <= k < n ==> p(s[k])) && (n < |s| ==> !p(s[n]))
    ensures RunLength(s, p) == n
  {
  }

  /** A run that starts in `a` ends in `a` when no run crosses from `a` into `b`. */
  lemma RunLengthAppend(a: string, b: string, p: char -> bool)
    requires |a| > 0 && (|b| == 0 || !p(a[|a| - 1]) || !p(b[0]))
    ensures RunLength(a + b, p) == RunLength(a, p)
  {
    var m := RunLength(a, p);
    var s := a + b;
    assert forall k :: 0 <= k < m ==> s[k] == a[k];
    if m < |a| {
      assert s[m] == a[m];
    } else if |b| > 0 {
      assert p(a[|a| - 1]);
      assert s[m] == b[0];
    }
    RunLengthUnique(s, p, m);
  }

  /**
   * The runs of a concatenation are the runs of each part, when no run
   * crosses the boundary: one side is empty or a character next to it is
   * not a run character.
   */
  lemma {:induction false} RunsAppend(a: string, b: string, p: char -> bool)
    requires |a| == 0 || |b| == 0 || !p(a[|a| - 1]) || !p(b[0])
    ensures Runs(a + b, p) == Runs(a, p) + Runs(b, p)
    decreases |a|, 1
  {
    if |a| == 0 {
      assert a + b == b;
    } else if !p(a[0]) {
      RunsAppendSkip(a, b, p);
    } else {
      RunsAppendRun(a, b, p);
    }
  }

  /** `RunsAppend` when `a` starts with a non-run character, which both sides drop. */
  lemma {:induction false} RunsAppendSkip(a: string, b: string, p: char -> bool)
    requires |a| > 0 && !p(a[0])
    requires |b| == 0 || !p(a[|a| - 1]) || !p(b[0])
    ensures Runs(a + b, p) == Runs(a, p) + Runs(b, p)
    decreases |a|, 0
  {
    AppendSlices(a, b, 1);
    RunsAppend(a[1..], b, p);
  }

  /** `RunsAppend` when `a` starts with a run, which cannot reach into `b` and so is the first run of both sides. */
  lemma {:induction false} RunsAppendRun(a: string, b: string, p: char -> bool)
    requires |a| > 0 && p(a[0])
    requires |b| == 0 || !p(a[|a| - 1]) || !p(b[0])
    ensures Runs(a + b, p) == Runs(a, p) + Runs(b, p)
    decreases |a|, 0
  {
    var m := RunLength(a, p);
    var w, rest := a[..m], a[m..];
    FirstRunCut(a, b, p);
    RunsTakeRun(w, rest, p);
    RunsTakeRun(w, rest + b, p);
    RunsAppend(rest, b, p);
    ConsAppend(Runs(a + b, p), Runs(a, p), [w], Runs(rest, p), Runs(b, p), Runs(rest + b, p));
  }

  /** Re-bracketing `[w] + (x + y)` after rewriting both sides through equations. */
  lemma ConsAppend<T>(ab: seq<T>, a: seq<T>, w: seq<T>, x: seq<T>, y: seq<T>, xy: seq<T>)
    requires ab == w + xy && a == w + x && xy == x + y
    ensures ab == a + y
  {
  }

  /**
   * Cutting `a`, which starts with a run, after that run: the run is a
   * whole run of `a` and of `a + b`, and the rest still meets `b` at a
   * non-run character.
   */
  lemma FirstRunCut(a: string, b: string, p: char -> bool)
    requires |a| > 0 && p(a[0])
    requires |b| == 0 || !p(a[|a| - 1]) || !p(b[0])
    ensures var m := RunLength(a, p);
      var w, rest := a[..m], a[m..];
      && a == w + rest && a + b == w + (rest + b)
      && |w| > 0 && All(w, p)
      && (|rest| == 0 || !p(rest[0]))
      && (|rest + b| == 0 || !p((rest + b)[0]))
      && (|rest| == 0 || |b| == 0 || !p(rest[|rest| - 1]) || !p(b[0]))
  {
    var m := RunLength(a, p);
    var w, rest := a[..m], a[m..];
    assert a == w + rest;
    assert forall k :: 0 <= k < |w| ==> w[k] == a[k];
    if |rest| == 0 {
      assert w[m - 1] == a[|a| - 1];
      assert rest + b == b;
    } else {
      assert rest[0] == a[m];
      assert rest[|rest| - 1] == a[|a| - 1];
    }
  }

  /** Cutting a concatenation inside its first part. */
  lemma AppendSlices(a: string, b: string, m: nat)
    requires m <= |a|
    ensures (a + b)[..m] == a[..m] && (a + b)[m..] == a[m..] + b
    ensures m < |a| ==> a[m..][|a| - m - 1] == a[|a| - 1]
  {
  }

  /** Splitting a join back into runs gives the words back, when the separator is a non-run. */
  lemma {:induction false} RunsOfJoin(ws: seq<string>, sep: string, p: char -> bool)
    requires forall k :: 0 <= k < |ws| ==> |ws[k]| > 0 && All(ws[k], p)
    requires |sep| > 0 && NoneOf(sep, p)
    ensures Runs(Join(ws, sep), p) == ws
    decreases |ws|
  {
    if |ws| == 0 {
    } else if |ws| == 1 {
      RunsTakeRun(ws[0], "", p);
      assert ws[0] + "" == ws[0];
    } else {
      var tail := Join(ws[1..], sep);
      assert Join(ws, sep) == ws[0] + (sep + tail);
      RunsTakeRun(ws[0], sep + tail, p);
      RunsSkip(sep, tail, p);
      RunsOfJoin(ws[1..], sep, p);
      assert [ws[0]] + ws[1..] == ws;
    }
  }

  /** Every character of a join comes from a word or from the separator. */
  lemma {:induction false} JoinChars(ws: seq<string>, sep: string, c: char)
    requires c in Join(ws, sep)
    ensures c in sep || exists k :: 0 <= k < |ws| && c in ws[k]
    decreases |ws|
  {
    if |ws| >= 2 {
      var tail := Join(ws[1..], sep);
      assert Join(ws, sep) == ws[0] + sep + tail;
      if c !in ws[0] && c !in sep {
        assert c in tail;
        JoinChars(ws[1..], sep, c);
        var k :| 0 <= k < |ws[1..]| && c in ws[1..][k];
        assert c in ws[k + 1];
      }
    }
  }

  /** A join is at least as long as its first word. */
  lemma JoinLength(ws: seq<string>, sep: string)
    requires |ws| > 0
    ensures |Join(ws, sep)| >= |ws[0]|
  {
  }

  /** A join splits at any inner word boundary into two joins around one separator. */
  lemma {:induction false} JoinSplit(ws: seq<string>, sep: string, k: nat)
    requires 0 < k < |ws|
    ensures Join(ws, sep) == Join(ws[..k], sep) + sep + Join(ws[k..], sep)
    decreases k
  {
    if k == 1 {
      assert ws[..1] == [ws[0]];
      assert ws[1..] == ws[k..];
    } else {
      JoinSplit(ws[1..], sep, k - 1);
      assert ws[1..][..k - 1] == ws[..k][1..];
      assert ws[1..][k - 1..] == ws[k..];
    }
  }

  /** `p` occurs in `s` starting at index `i`. */
  predicate OccursAt(p: string, s: string, i: int) {
    0 <= i <= |s| - |p| && s[i..i + |p|] == p
  }

  /** Python's `p in s` for strings. */
  predicate IsSubstring(p: string, s: string) {
    exists i :: 0 <= i <= |s| - |p| && OccursAt(p, s, i)
  }

  /** The join of a contiguous run of the words occurs inside the join of all of them. */
  lemma JoinInfix(ws: seq<string>, sep: string, i: nat, j: nat)
    requires i < j <= |ws|
    ensures IsSubstring(Join(ws[i..j], sep), Join(ws, sep))
  {
    var mid := Join(ws[i..j], sep);
    var pre: string := if i == 0 then [] else Join(ws[..i], sep) + sep;
    var post: string := if j == |ws| then [] else sep + Join(ws[j..], sep);
    assert Join(ws[i..], sep) == mid + post by {
      if j < |ws| {
        JoinSplit(ws[i..], sep, j - i);
        assert ws[i..][..j - i] == ws[i..j];
        assert ws[i..][j - i..] == ws[j..];
      } else {
        assert ws[i..] == ws[i..j];
      }
    }
    assert Join(ws, sep) == pre + Join(ws[i..], sep) by {
      if i > 0 {
        JoinSplit(ws, sep, i);
      } else {
        assert ws == ws[i..];
      }
    }
    OccursInMiddle(pre, mid, post);
  }

  lemma OccursInMiddle(pre: string, mid: string, post: string)
    ensures OccursAt(mid, pre + (mid + post), |pre|)
  {
    assert (pre + (mid + post))[|pre|..|pre| + |mid|] == mid;
  }

  /** Every character of a substring is a character of the text. */
  lemma SubstringChars(p: string, s: string, c: char)
    requires IsSubstring(p, s) && c in p
    ensures c in s
  {
    var i :| 0 <= i <= |s| - |p| && OccursAt(p, s, i);
    var m :| 0 <= m < |p| && p[m] == c;
    assert s[i..i + |p|][m] == s[i + m];
  }

  /** Every character of a joined word is a character of the join. */
  lemma JoinedWordChars(ws: seq<string>, sep: string, k: nat, c: char)
    requires k < |ws| && c in ws[k]
    ensures c in Join(ws, sep)
  {
    JoinInfix(ws, sep, k, k + 1);
    assert ws[k..k + 1] == [ws[k]];
    SubstringChars(ws[k], Join(ws, sep), c);
  }

  predicate StartsWith(s: string, prefix: string) {
    |prefix| <= |s| && s[..|prefix|] == prefix
  }

  /** Strings whose first characters differ neither are equal nor start one with the other. */
  lemma FirstCharDiffers(s: string, p: string)
    requires |s| > 0 && |p| > 0 && s[0] != p[0]
    ensures !StartsWith(s, p) && s != p
  {
    assert |p| <= |s| ==> s[..|p|][0] == s[0];
  }

  /**
   * `t.count(p)`: occurrences of `p` found scanning left to right without
   * overlap; an empty `p` is counted at each of the `|t| + 1` positions.
   */
  function CountOccurrences(t: string, p: string): (n: nat)
    ensures |p| == 0 ==> n == |t| + 1
    ensures |p| > 0 ==> n <= |t|
    decreases |t|
  {
    if |p| == 0 then |t| + 1
    else if |t| < |p| then 0
    else if t[..|p|] == p then 1 + CountOccurrences(t[|p|..], p)
    else CountOccurrences(t[1..], p)
  }

  /** A non-empty pattern is counted at least once exactly when it is a substring. */
  lemma {:induction false} CountPositiveIffSubstring(t: string, p: string)
    requires |p| > 0
    ensures CountOccurrences(t, p) > 0 <==> IsSubstring(p, t)
    decreases |t|
  {
    if |t| < |p| {
    } else if t[..|p|] == p {
      assert OccursAt(p, t, 0);
    } else {
      CountPositiveIffSubstring(t[1..], p);
      if IsSubstring(p, t[1..]) {
        var i :| 0 <= i <= |t| - 1 - |p| && OccursAt(p, t[1..], i);
        assert t[1..][i..i + |p|] == t[i + 1..i + 1 + |p|];
        assert OccursAt(p, t, i + 1);
      }
      if IsSubstring(p, t) {
        var i :| 0 <= i <= |t| - |p| && OccursAt(p, t, i);
        assert i != 0;
        assert t[1..][i - 1..i - 1 + |p|] == t[i..i + |p|];
        assert OccursAt(p, t[1..], i - 1);
      }
    }
  }

  /** Occurrences are counted without overlap, so they fit side by side in the text. */
  lemma {:induction false} CountFitsText(t: string, p: string)
    requires |p| > 0
    ensures CountOccurrences(t, p) * |p| <= |t|
    decreases |t|
  {
    if |t| < |p| {
    } else if t[..|p|] == p {
      var c := CountOccurrences(t[|p|..], p);
      assert CountOccurrences(t, p) == 1 + c;
      assert c * |p| <= |t| - |p| by {
        CountFitsText(t[|p|..], p);
      }
      OneMoreTimes(c, |p|);
    } else {
      assert CountOccurrences(t, p) == CountOccurrences(t[1..], p);
      CountFitsText(t[1..], p);
    }
  }

  lemma OneMoreTimes(c: nat, k: nat)
    ensures (1 + c) * k == k + c * k
  {
  }

  lemma CountAfterMatch(p: string, t: string)
    requires |p| > 0
    ensures CountOccurrences(p + t, p) == 1 + CountOccurrences(t, p)
  {
    assert (p + t)[..|p|] == p && (p + t)[|p|..] == t;
  }

  lemma CountSkipChar(c: char, t: string, p: string)
    requires |p| > 0 && c != p[0]
    ensures CountOccurrences([c] + t, p) == CountOccurrences(t, p)
  {
    assert ([c] + t)[1..] == t;
    if |[c] + t| >= |p| {
      assert ([c] + t)[..|p|][0] == c;
    }
  }

  /** A text without the pattern's first character contains no occurrence of it. */
  lemma {:induction false} CountWithoutFirstChar(t: string, p: string)
    requires |p| > 0 && p[0] !in t
    ensures CountOccurrences(t, p) == 0
    decreases |t|
  {
    if |t| >= |p| {
      assert t[..|p|][0] == t[0];
      assert forall c :: c in t[1..] ==> c in t;
      CountWithoutFirstChar(t[1..], p);
    }
  }

  /** Position of the first `c` in `s`. */
  function IndexOf(s: string, c: char): (i: nat)
    requires c in s
    ensures i < |s| && s[i] == c && c !in s[..i]
  {
    if s[0] == c then 0 else 1 + IndexOf(s[1..], c)
  }

  /** `s.split(sep)` for a one-character separator: the pieces between separators, rejoined to `s`. */
  function SplitOn(s: string, sep: char): (r: seq<string>)
    ensures |r| >= 1
    ensures forall k :: 0 <= k < |r| ==> sep !in r[k]
    ensures Join(r, [sep]) == s
    decreases |s|
  {
    if sep !in s then [s]
    else
      var i := IndexOf(s, sep);
      var rest := SplitOn(s[i + 1..], sep);
      assert Join([s[..i]] + rest, [sep]) == s[..i] + [sep] + Join(rest, [sep]) by {
        assert ([s[..i]] + rest)[1..] == rest;
      }
      assert s == s[..i] + [sep] + s[i + 1..];
      [s[..i]] + rest
  }
}
