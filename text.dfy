/**
 * The Python string operations the pipeline relies on, stated over `string`
 * (a sequence of Unicode scalar values): `strip`, `in`, `find`, `split(sep, 1)`,
 * `replace`, a case-insensitive `re.sub` of a literal, ASCII `lower`, `join`,
 * splitting into lines, `textwrap.dedent` and `str(int)`.
 */
module Text {
  import opened Wrappers

  // ---------------------------------------------------------------------------
  // Whitespace and strip()

  /** The characters Python's `str.isspace()` accepts, which `str.strip()` removes. */
  predicate IsSpace(c: char) {
    c == ' ' || ('\t' <= c <= '\r') || ('\U{1C}' <= c <= '\U{1F}')
    || c == '\U{85}' || c == '\U{A0}' || c == '\U{1680}'
    || ('\U{2000}' <= c <= '\U{200A}') || c == '\U{2028}' || c == '\U{2029}'
    || c == '\U{202F}' || c == '\U{205F}' || c == '\U{3000}'
  }

  /** Neither end of `s` is whitespace. */
  predicate Stripped(s: string) {
    s == [] || (!IsSpace(s[0]) && !IsSpace(s[|s| - 1]))
  }

  /** `s.lstrip()`: the longest suffix of `s` that does not start with whitespace. */
  function LStrip(s: string): (r: string)
    ensures |r| <= |s| && r == s[|s| - |r|..]
    ensures forall k :: 0 <= k < |s| - |r| ==> IsSpace(s[k])
    ensures r != [] ==> !IsSpace(r[0])
  {
    if |s| > 0 && IsSpace(s[0]) then LStrip(s[1..]) else s
  }

  /** `s.rstrip()`: the longest prefix of `s` that does not end with whitespace. */
  function RStrip(s: string): (r: string)
    ensures |r| <= |s| && r == s[..|r|]
    ensures forall k :: |r| <= k < |s| ==> IsSpace(s[k])
    ensures r != [] ==> !IsSpace(r[|r| - 1])
  {
    if |s| > 0 && IsSpace(s[|s| - 1]) then RStrip(s[..|s| - 1]) else s
  }

  /**
   * `s.strip()`: `s` without its leading and trailing whitespace. The result
   * is the slice s[i..i+|r|] and everything cut off on either side is whitespace.
   */
  function Strip(s: string): (r: string)
    ensures Stripped(r)
    ensures exists i: nat :: OccursAt(s, r, i) && SpacesBetween(s, 0, i) && SpacesBetween(s, i + |r|, |s|)
  {
    var t := LStrip(s);
    var r := RStrip(t);
    TrimmedBothEnds(s, t, r);
    r
  }

  /** A text whose leading spaces and then whose trailing spaces were cut off is a stripped slice. */
  lemma TrimmedBothEnds(s: string, t: string, r: string)
    requires |t| <= |s| && t == s[|s| - |t|..] && SpacesBetween(s, 0, |s| - |t|) && (t != [] ==> !IsSpace(t[0]))
    requires |r| <= |t| && r == t[..|r|] && SpacesBetween(t, |r|, |t|) && (r != [] ==> !IsSpace(r[|r| - 1]))
    ensures Stripped(r)
    ensures OccursAt(s, r, |s| - |t|) && SpacesBetween(s, 0, |s| - |t|) && SpacesBetween(s, |s| - |t| + |r|, |s|)
  {
    var i := |s| - |t|;
    assert r == s[i..][..|r|];
    assert SpacesBetween(s, i + |r|, |s|) by {
      forall k | i + |r| <= k < |s| ensures IsSpace(s[k]) {
        assert s[k] == t[k - i];
      }
    }
    assert r != [] ==> r[0] == t[0];
  }

  /** Every character of `s` from index `i` up to `j` is whitespace. */
  predicate SpacesBetween(s: string, i: nat, j: nat) {
    forall k :: i <= k < j && k < |s| ==> IsSpace(s[k])
  }

  lemma StripOfStripped(s: string)
    requires Stripped(s)
    ensures Strip(s) == s
  {
  }

  lemma StripIdempotent(s: string)
    ensures Strip(Strip(s)) == Strip(s)
  {
    StripOfStripped(Strip(s));
  }

  /** Stripping cannot introduce a character: what `s` lacks, `strip(s)` lacks. */
  lemma StripKeepsAbsent(s: string, c: char)
    requires c !in s
    ensures c !in Strip(s)
  {
    var r := Strip(s);
    var i: nat :| OccursAt(s, r, i);
    forall k | 0 <= k < |r| ensures r[k] != c {
      assert r[k] == s[i + k];
    }
  }

  /** A trailing whitespace character survives the left strip only when something else does. */
  lemma {:induction false} LStripThenSpace(b: string, c: char)
    requires IsSpace(c)
    ensures LStrip(b + [c]) == (if LStrip(b) == [] then [] else LStrip(b) + [c])
    decreases |b|
  {
    var s := b + [c];
    if |b| == 0 {
      assert s == [c] && s[1..] == [];
      assert LStrip(s) == LStrip(s[1..]);
    } else if IsSpace(b[0]) {
      assert s[0] == b[0] && s[1..] == b[1..] + [c];
      assert LStrip(s) == LStrip(b[1..] + [c]);
      assert LStrip(b) == LStrip(b[1..]);
      LStripThenSpace(b[1..], c);
    } else {
      assert s[0] == b[0];
      assert LStrip(s) == s && LStrip(b) == b;
    }
  }

  /** The same whitespace character on both sides of a text does not change its strip. */
  lemma StripBetweenSpaces(b: string, c: char)
    requires IsSpace(c)
    ensures Strip([c] + b + [c]) == Strip(b)
  {
    var s := [c] + b + [c];
    assert LStrip(s) == LStrip(b + [c]) by {
      assert s[0] == c && s[1..] == b + [c];
    }
    LStripThenSpace(b, c);
    var l := LStrip(b);
    if l == [] {
      assert LStrip(s) == [];
    } else {
      assert LStrip(s) == l + [c];
      assert RStrip(l + [c]) == RStrip(l) by {
        assert (l + [c])[..|l|] == l;
      }
    }
    assert Strip(s) == RStrip(LStrip(s)) && Strip(b) == RStrip(l);
  }

  /** One extra leading space in front of a stripped text is removed again. */
  lemma StripSpaceThenStripped(x: string)
    requires Stripped(x)
    ensures Strip([' '] + x) == x
  {
    assert ([' '] + x)[1..] == x;
    assert LStrip([' '] + x) == LStrip(x);
  }

  // ---------------------------------------------------------------------------
  // Substrings: `w in s`, `s.find(w)`, `s.split(w, 1)`

  /** `w` occurs in `s` starting at index `i`. */
  predicate OccursAt(s: string, w: string, i: nat) {
    i + |w| <= |s| && s[i..i + |w|] == w
  }

  /** Python's `w in s`. */
  predicate Contains(s: string, w: string) {
    exists i: nat :: i <= |s| && OccursAt(s, w, i)
  }

  /** The first index at or after `i` where `w` occurs, if any. */
  function IndexFrom(s: string, w: string, i: nat): (r: Option<nat>)
    ensures r.Some? ==> (i <= r.value && OccursAt(s, w, r.value)
                         && forall j: nat :: i <= j < r.value ==> !OccursAt(s, w, j))
    ensures r.None? ==> forall j: nat :: i <= j ==> !OccursAt(s, w, j)
    decreases |s| - i
  {
    if i + |w| > |s| then None
    else if OccursAt(s, w, i) then Some(i)
    else IndexFrom(s, w, i + 1)
  }

  /** `s.find(w)`: the first occurrence of `w` in `s`, or None where Python gives -1. */
  function IndexOf(s: string, w: string): (r: Option<nat>)
    ensures r.Some? <==> Contains(s, w)
    ensures r.Some? ==> (OccursAt(s, w, r.value)
                         && forall j: nat :: j < r.value ==> !OccursAt(s, w, j))
  {
    IndexFrom(s, w, 0)
  }

  /** `s.split(sep, 1)`: the parts before and after the first `sep`, or `[s]` when it is absent. */
  function SplitOnce(s: string, sep: string): (r: seq<string>)
    requires |sep| > 0
    ensures Contains(s, sep) ==> |r| == 2 && r[0] + sep + r[1] == s && !Contains(r[0], sep)
    ensures !Contains(s, sep) ==> r == [s]
  {
    match IndexOf(s, sep)
    case Some(k) =>
      assert s[..k] + sep + s[k + |sep|..] == s by {
        assert s[k..k + |sep|] == sep;
        assert s == s[..k] + s[k..k + |sep|] + s[k + |sep|..];
      }
      assert !Contains(s[..k], sep) by {
        forall j: nat | OccursAt(s[..k], sep, j) ensures false {
          assert s[j..j + |sep|] == s[..k][j..j + |sep|];
          assert OccursAt(s, sep, j);
        }
      }
      [s[..k], s[k + |sep|..]]
    case None => [s]
  }

  /** A word that is not in `a` and not in `b` and has no line break is not in `a + "\n" + b`. */
  lemma NotContainsAcrossNewline(a: string, b: string, w: string)
    requires '\n' !in w && |w| > 0
    requires !Contains(a, w) && !Contains(b, w)
    ensures !Contains(a + "\n" + b, w)
  {
    var s := a + "\n" + b;
    forall i: nat | i + |w| <= |s| ensures !OccursAt(s, w, i) {
      if i + |w| <= |a| {
        assert a[i..i + |w|] == s[i..i + |w|];
        assert !OccursAt(a, w, i);
      } else if i > |a| {
        assert b[i - |a| - 1..i - |a| - 1 + |w|] == s[i..i + |w|];
        assert !OccursAt(b, w, i - |a| - 1);
      } else {
        assert s[i..i + |w|][|a| - i] == '\n';
        assert w[|a| - i] != '\n';
      }
    }
  }

  /**
   * A word without line breaks that occurs in neither part does not occur in
   * their concatenation when a line break sits at the seam.
   */
  lemma NotContainsJoined(a: string, b: string, w: string)
    requires '\n' !in w && |w| > 0
    requires !Contains(a, w) && !Contains(b, w)
    requires (|a| > 0 && a[|a| - 1] == '\n') || (|b| > 0 && b[0] == '\n')
    ensures !Contains(a + b, w)
  {
    var s := a + b;
    forall i: nat | i + |w| <= |s| ensures !OccursAt(s, w, i) {
      if i + |w| <= |a| {
        assert a[i..i + |w|] == s[i..i + |w|];
        assert !OccursAt(a, w, i);
      } else if i >= |a| {
        assert b[i - |a|..i - |a| + |w|] == s[i..i + |w|];
        assert !OccursAt(b, w, i - |a|);
      } else if |a| > 0 && a[|a| - 1] == '\n' {
        assert s[i..i + |w|][|a| - 1 - i] == '\n';
        assert w[|a| - 1 - i] != '\n';
      } else {
        assert s[i..i + |w|][|a| - i] == '\n';
        assert w[|a| - i] != '\n';
      }
    }
  }

  /** A word cannot start inside a text that lacks its first character. */
  lemma NotContainsAfterUnstartable(a: string, b: string, w: string)
    requires |w| > 0 && w[0] !in a && !Contains(b, w)
    ensures !Contains(a + b, w)
  {
    var s := a + b;
    forall i: nat | i + |w| <= |s| ensures !OccursAt(s, w, i) {
      if i < |a| {
        assert s[i..i + |w|][0] == a[i];
      } else {
        assert b[i - |a|..i - |a| + |w|] == s[i..i + |w|];
        assert !OccursAt(b, w, i - |a|);
      }
    }
  }

  /** The last character of `w` occurs nowhere else in it, so no occurrence of `w` can overlap another. */
  predicate UniqueLast(w: string) {
    |w| > 0 && w[|w| - 1] !in w[..|w| - 1]
  }

  /** When `before` lacks `w` and `w` cannot overlap itself, the first `w` in `before + w + after` is the one after `before`. */
  lemma FirstOccurrenceAfter(before: string, w: string, after: string)
    requires UniqueLast(w) && !Contains(before, w)
    ensures IndexOf(before + w + after, w) == Some(|before|)
  {
    var s := before + w + after;
    assert s[|before|..|before| + |w|] == w;
    assert OccursAt(s, w, |before|);
    forall j: nat | j < |before| && j + |w| <= |s| ensures !OccursAt(s, w, j) {
      if j + |w| <= |before| {
        assert before[j..j + |w|] == s[j..j + |w|];
        assert !OccursAt(before, w, j);
      } else {
        var d := j + |w| - 1 - |before|;
        assert s[j..j + |w|][|w| - 1] == w[d];
        assert w[..|w| - 1][d] == w[d];
      }
    }
    var r := IndexOf(s, w);
    assert !(r.value < |before|) && !(r.value > |before|);
  }

  /** Under the same conditions `split(w, 1)` cuts at the seam after `before`. */
  lemma SplitAtFirst(before: string, w: string, after: string)
    requires UniqueLast(w) && !Contains(before, w)
    ensures SplitOnce(before + w + after, w) == [before, after]
  {
    var s := before + w + after;
    FirstOccurrenceAfter(before, w, after);
    assert s[..|before|] == before;
    assert s[|before| + |w|..] == after;
  }

  /** A word that starts and ends with non-whitespace and occurs in `s` still occurs in `strip(s)`. */
  lemma StripKeepsContained(s: string, w: string)
    requires |w| > 0 && !IsSpace(w[0]) && !IsSpace(w[|w| - 1]) && Contains(s, w)
    ensures Contains(Strip(s), w)
  {
    var r := Strip(s);
    var i: nat :| OccursAt(s, r, i) && SpacesBetween(s, 0, i) && SpacesBetween(s, i + |r|, |s|);
    InsideSpaces(s, r, i, w);
  }

  /** A word with no space at either end that occurs in `s` occurs in a slice of `s` with only spaces around it. */
  lemma InsideSpaces(s: string, r: string, i: nat, w: string)
    requires |w| > 0 && !IsSpace(w[0]) && !IsSpace(w[|w| - 1])
    requires OccursAt(s, r, i) && SpacesBetween(s, 0, i) && SpacesBetween(s, i + |r|, |s|)
    requires Contains(s, w)
    ensures Contains(r, w)
  {
    var j: nat :| j <= |s| && OccursAt(s, w, j);
    SliceInside(s, r, i, w, j);
    assert OccursAt(r, w, j - i);
  }

  lemma SliceInside(s: string, r: string, i: nat, w: string, j: nat)
    requires |w| > 0 && !IsSpace(w[0]) && !IsSpace(w[|w| - 1])
    requires OccursAt(s, r, i) && SpacesBetween(s, 0, i) && SpacesBetween(s, i + |r|, |s|)
    requires OccursAt(s, w, j)
    ensures i <= j && OccursAt(r, w, j - i)
  {
    assert s[j] == w[0] by { assert s[j..j + |w|][0] == s[j]; }
    assert s[j + |w| - 1] == w[|w| - 1] by { assert s[j..j + |w|][|w| - 1] == s[j + |w| - 1]; }
    assert i <= j && j + |w| <= i + |r|;
    forall k | 0 <= k < |w| ensures r[j - i + k] == w[k] {
      assert r[j - i + k] == s[i..i + |r|][j - i + k];
      assert s[j..j + |w|][k] == s[j + k];
    }
  }

  /** A word with a character that `s` lacks does not occur in `s`. */
  lemma MissingCharNotContained(s: string, w: string, c: char)
    requires c in w && c !in s
    ensures !Contains(s, w)
  {
    forall i: nat | i + |w| <= |s| ensures !OccursAt(s, w, i) {
      var k :| 0 <= k < |w| && w[k] == c;
      assert s[i..i + |w|][k] == s[i + k];
    }
  }

  /** A text occurs in any text that has it as a slice. */
  lemma ContainsSlice(s: string, i: nat, j: nat)
    requires i <= j <= |s|
    ensures Contains(s, s[i..j])
  {
    assert OccursAt(s, s[i..j], i);
  }

  /** Every part of a concatenation occurs in it. */
  lemma ContainsPart(a: string, x: string, b: string)
    ensures Contains(a + x + b, x)
  {
    assert (a + x + b)[|a|..|a| + |x|] == x;
    assert OccursAt(a + x + b, x, |a|);
  }

  /**
   * If `p` ends with a line break, has no occurrence of `w`, and `w` has no
   * line break, then the first occurrence of `w` in `p + w + g` is right after `p`.
   */
  lemma FirstOccurrenceAfterNewline(p: string, w: string, g: string)
    requires |p| > 0 && p[|p| - 1] == '\n'
    requires '\n' !in w && !Contains(p, w)
    ensures IndexOf(p + w + g, w) == Some(|p|)
  {
    var s := p + w + g;
    assert s[|p|..|p| + |w|] == w;
    assert OccursAt(s, w, |p|);
    forall j: nat | j < |p| && j + |w| <= |s| ensures !OccursAt(s, w, j) {
      if j + |w| <= |p| {
        assert p[j..j + |w|] == s[j..j + |w|];
        assert !OccursAt(p, w, j);
      } else {
        assert s[j..j + |w|][|p| - 1 - j] == '\n';
        assert w[|p| - 1 - j] != '\n';
      }
    }
    var r := IndexOf(s, w);
    assert r.Some?;
    assert !(r.value < |p|) && !(r.value > |p|);
  }

  // ---------------------------------------------------------------------------
  // replace() and a case-insensitive re.sub of a literal

  /** `s.replace(pat, rep)`: every non-overlapping occurrence, scanned left to right. */
  function Replace(s: string, pat: string, rep: string): (r: string)
    requires |pat| > 0
    decreases |s|
  {
    if |s| < |pat| then s
    else if s[..|pat|] == pat then rep + Replace(s[|pat|..], pat, rep)
    else [s[0]] + Replace(s[1..], pat, rep)
  }

  /** ASCII letters are equal up to case; every other character only to itself. */
  predicate SameIgnoringCase(a: string, b: string) {
    |a| == |b| && forall k :: 0 <= k < |a| ==> LowerChar(a[k]) == LowerChar(b[k])
  }

  /** One position whose characters differ even in lower case tells two texts apart. */
  lemma DifferentIgnoringCase(a: string, b: string, k: nat)
    requires k < |a| && k < |b| && LowerChar(a[k]) != LowerChar(b[k])
    ensures !SameIgnoringCase(a, b)
  {
  }

  /** `re.sub(pattern, rep, s, flags=re.IGNORECASE)` for a pattern with no special characters. */
  function ReplaceIgnoringCase(s: string, pattern: string, rep: string): (r: string)
    requires |pattern| > 0
    decreases |s|
  {
    if |s| < |pattern| then s
    else if SameIgnoringCase(s[..|pattern|], pattern) then rep + ReplaceIgnoringCase(s[|pattern|..], pattern, rep)
    else [s[0]] + ReplaceIgnoringCase(s[1..], pattern, rep)
  }

  /** Removing every one-character occurrence leaves none. */
  lemma {:induction false} ReplaceCharRemovesIt(s: string, c: char)
    ensures c !in Replace(s, [c], "")
    decreases |s|
  {
    if |s| >= 1 {
      ReplaceCharRemovesIt(s[1..], c);
      if s[..1] != [c] {
        assert s[0] != c;
      }
    }
  }

  /** Replacing leaves a text unchanged when the pattern's first character is absent. */
  lemma {:induction false} ReplaceAbsent(s: string, pat: string, rep: string)
    requires |pat| > 0 && pat[0] !in s
    ensures Replace(s, pat, rep) == s
    decreases |s|
  {
    if |s| >= |pat| {
      assert s[..|pat|] != pat by { assert s[..|pat|][0] == s[0]; }
      ReplaceAbsent(s[1..], pat, rep);
      assert [s[0]] + s[1..] == s;
    }
  }

  /** Replacement introduces no character that neither the text nor the replacement has. */
  lemma {:induction false} ReplaceKeepsAbsent(s: string, pat: string, rep: string, c: char)
    requires |pat| > 0 && c !in s && c !in rep
    ensures c !in Replace(s, pat, rep)
    decreases |s|
  {
    if |s| >= |pat| {
      if s[..|pat|] == pat {
        ReplaceKeepsAbsent(s[|pat|..], pat, rep, c);
      } else {
        ReplaceKeepsAbsent(s[1..], pat, rep, c);
      }
    }
  }

  /** The same for the case-insensitive form. */
  lemma {:induction false} ReplaceIgnoringCaseAbsent(s: string, pattern: string, rep: string)
    requires |pattern| > 0 && forall k :: 0 <= k < |s| ==> LowerChar(s[k]) != LowerChar(pattern[0])
    ensures ReplaceIgnoringCase(s, pattern, rep) == s
    decreases |s|
  {
    if |s| >= |pattern| {
      assert !SameIgnoringCase(s[..|pattern|], pattern) by {
        assert s[..|pattern|][0] == s[0];
      }
      ReplaceIgnoringCaseAbsent(s[1..], pattern, rep);
      assert [s[0]] + s[1..] == s;
    }
  }

  /** Deleting a pattern that starts with a character a prefix lacks works past that prefix. */
  lemma {:induction false} ReplaceAfterPrefix(x: string, t: string, pat: string, rep: string)
    requires |pat| > 0 && pat[0] !in x
    ensures Replace(x + t, pat, rep) == x + Replace(t, pat, rep)
    decreases |x|
  {
    if |x| > 0 {
      var s := x + t;
      assert x[0] != pat[0];
      assert s[1..] == x[1..] + t;
      ReplaceAfterPrefix(x[1..], t, pat, rep);
      if |s| >= |pat| {
        assert s[..|pat|][0] == x[0];
        assert Replace(s, pat, rep) == [x[0]] + (x[1..] + Replace(t, pat, rep));
      } else {
        assert Replace(t, pat, rep) == t;
        assert Replace(s, pat, rep) == s;
      }
      assert [x[0]] + x[1..] == x;
    } else {
      assert x + t == t;
    }
  }

  /** Where the pattern does not start, the character is kept and replacement goes on after it. */
  lemma ReplaceIgnoringCaseSkip(c: char, t: string, pattern: string, rep: string)
    requires |pattern| > 0
    requires |t| + 1 >= |pattern| ==> !SameIgnoringCase(([c] + t)[..|pattern|], pattern)
    ensures ReplaceIgnoringCase([c] + t, pattern, rep) == [c] + ReplaceIgnoringCase(t, pattern, rep)
  {
    assert ([c] + t)[1..] == t;
    if |t| + 1 < |pattern| {
      ReplaceIgnoringCaseShortTail([], [c] + t, pattern, rep);
      ReplaceIgnoringCaseShortTail([], t, pattern, rep);
      assert [] + t == t && [] + ([c] + t) == [c] + t;
    }
  }

  /**
   * The case-insensitive replacement leaves `x + t` as it is when no character
   * of `x` can start the pattern and `t` is too short to hold it.
   */
  lemma {:induction false} ReplaceIgnoringCaseShortTail(x: string, t: string, pattern: string, rep: string)
    requires |pattern| > |t|
    requires forall k :: 0 <= k < |x| ==> LowerChar(x[k]) != LowerChar(pattern[0])
    ensures ReplaceIgnoringCase(x + t, pattern, rep) == x + t
    decreases |x|
  {
    var s := x + t;
    if |s| >= |pattern| {
      assert x[0] == s[0];
      assert !SameIgnoringCase(s[..|pattern|], pattern) by {
        assert s[..|pattern|][0] == s[0];
      }
      assert s[1..] == x[1..] + t;
      ReplaceIgnoringCaseShortTail(x[1..], t, pattern, rep);
      assert [s[0]] + (x[1..] + t) == s;
    }
  }

  // ---------------------------------------------------------------------------
  // Runs of backticks: what `replace("```", "")` leaves behind

  /** The number of backticks `s` starts with. */
  function LeadingTicks(s: string): (n: nat)
    ensures n <= |s|
    ensures forall k :: 0 <= k < n ==> s[k] == '`'
    ensures n < |s| ==> s[n] != '`'
  {
    if |s| > 0 && s[0] == '`' then 1 + LeadingTicks(s[1..]) else 0
  }

  /** A text that starts with at most two backticks does not start with "```". */
  lemma NoFenceAtStart(r: string)
    requires LeadingTicks(r) <= 2
    ensures !OccursAt(r, "```", 0)
  {
    if |r| >= 3 {
      assert r[..3][LeadingTicks(r)] != '`';
    }
  }

  /**
   * Removing every "```" from left to right leaves no "```": each run of
   * backticks is cut down to its length modulo three and the runs stay apart.
   */
  lemma {:induction false} RemoveFencesLeavesNone(s: string)
    ensures !Contains(Replace(s, "```", ""), "```")
    ensures LeadingTicks(Replace(s, "```", "")) == LeadingTicks(s) % 3
    decreases |s|
  {
    if |s| < 3 {
      ShortHasNoFence(s);
    } else if s[..3] == "```" {
      RemoveFencesLeavesNone(s[3..]);
      RemoveFenceStep(s);
    } else {
      RemoveFencesLeavesNone(s[1..]);
      RemoveFencesStep(s);
    }
  }

  lemma ShortHasNoFence(s: string)
    requires |s| < 3
    ensures !Contains(Replace(s, "```", ""), "```")
    ensures LeadingTicks(Replace(s, "```", "")) == LeadingTicks(s) % 3
  {
    assert Replace(s, "```", "") == s;
    forall i: nat | i <= |s| ensures !OccursAt(s, "```", i) {
    }
    SmallMod(LeadingTicks(s));
  }

  lemma SmallMod(n: nat)
    requires n < 3
    ensures n % 3 == n
  {
  }

  lemma ModAfterThree(a: nat, b: nat)
    requires a == 3 + b
    ensures a % 3 == b % 3
  {
  }

  /** The step for a text that starts with "```": the fence is dropped. */
  lemma RemoveFenceStep(s: string)
    requires |s| >= 3 && s[..3] == "```"
    requires !Contains(Replace(s[3..], "```", ""), "```")
    requires LeadingTicks(Replace(s[3..], "```", "")) == LeadingTicks(s[3..]) % 3
    ensures !Contains(Replace(s, "```", ""), "```")
    ensures LeadingTicks(Replace(s, "```", "")) == LeadingTicks(s) % 3
  {
    var t := Replace(s[3..], "```", "");
    FenceDropped(s);
    assert Replace(s, "```", "") == t;
    LeadingTicksOfFence(s);
    ModAfterThree(LeadingTicks(s), LeadingTicks(s[3..]));
  }

  lemma FenceDropped(s: string)
    requires |s| >= 3 && s[..3] == "```"
    ensures Replace(s, "```", "") == Replace(s[3..], "```", "")
  {
  }

  lemma LeadingTicksOfFence(s: string)
    requires |s| >= 3 && s[..3] == "```"
    ensures LeadingTicks(s) == 3 + LeadingTicks(s[3..])
  {
    assert s[0] == '`' && s[1] == '`' && s[2] == '`';
    assert s[1..][1..][1..] == s[3..];
  }

  /** The step for a text that does not start with "```": one character is kept. */
  lemma RemoveFencesStep(s: string)
    requires |s| >= 3 && s[..3] != "```"
    requires !Contains(Replace(s[1..], "```", ""), "```")
    requires LeadingTicks(Replace(s[1..], "```", "")) == LeadingTicks(s[1..]) % 3
    ensures !Contains(Replace(s, "```", ""), "```")
    ensures LeadingTicks(Replace(s, "```", "")) == LeadingTicks(s) % 3
  {
    var t := Replace(s[1..], "```", "");
    var r := Replace(s, "```", "");
    assert r == [s[0]] + t;
    KeptCharTicks(s, t, r);
    NoFenceAtStart(r);
    NoFenceAfterStart(t, r);
  }

  lemma KeptCharTicks(s: string, t: string, r: string)
    requires |s| >= 3 && s[..3] != "```" && r == [s[0]] + t
    requires LeadingTicks(t) == LeadingTicks(s[1..]) % 3
    ensures LeadingTicks(r) == LeadingTicks(s) % 3 && LeadingTicks(r) <= 2
  {
    assert r[1..] == t && r[0] == s[0];
    if s[0] == '`' {
      NotThreeTicks(s);
      var n := LeadingTicks(s[1..]);
      SmallMod(n);
      assert LeadingTicks(s) == 1 + n;
      assert LeadingTicks(r) == 1 + LeadingTicks(t);
      SmallMod(1 + n);
    } else {
      assert LeadingTicks(s) == 0 && LeadingTicks(r) == 0;
    }
  }

  lemma NotThreeTicks(s: string)
    requires |s| >= 3 && s[..3] != "```" && s[0] == '`'
    ensures LeadingTicks(s[1..]) <= 1
  {
    if s[1] == '`' {
      assert s[2] != '`' by {
        assert s[..3] == [s[0], s[1], s[2]];
      }
      assert s[1..][1..][0] == s[2];
    }
  }

  lemma NoFenceAfterStart(t: string, r: string)
    requires |r| > 0 && r[1..] == t && !Contains(t, "```")
    ensures forall i: nat :: 0 < i ==> !OccursAt(r, "```", i)
  {
    forall i: nat | 0 < i && i + 3 <= |r| ensures !OccursAt(r, "```", i) {
      assert r[i..i + 3] == t[i - 1..i - 1 + 3];
      assert !OccursAt(t, "```", i - 1);
    }
  }

  /** A word that does not occur in `s` does not occur in `s.strip()`. */
  lemma StripKeepsNotContained(s: string, w: string)
    requires !Contains(s, w)
    ensures !Contains(Strip(s), w)
  {
    ContainedInStrip(s, w);
  }

  /** Whatever occurs in `s.strip()` occurs in `s`. */
  lemma ContainedInStrip(s: string, w: string)
    ensures Contains(Strip(s), w) ==> Contains(s, w)
  {
    if Contains(Strip(s), w) {
      var r := Strip(s);
      var i: nat :| OccursAt(s, r, i);
      ContainedInOccurrence(s, r, i, w);
    }
  }

  /** Whatever occurs in a text occurring in `s` occurs in `s`. */
  lemma ContainedInOccurrence(s: string, r: string, i: nat, w: string)
    requires OccursAt(s, r, i) && Contains(r, w)
    ensures Contains(s, w)
  {
    var j: nat :| j <= |r| && OccursAt(r, w, j);
    SliceOfSlice(s, i, i + |r|, j, j + |w|);
    assert OccursAt(s, w, i + j);
  }

  /** A slice of a slice is a slice of the whole. */
  lemma SliceOfSlice(s: string, a: nat, b: nat, c: nat, d: nat)
    requires a <= b <= |s| && c <= d <= b - a
    ensures s[a..b][c..d] == s[a + c..a + d]
  {
    forall k | 0 <= k < d - c ensures s[a..b][c..d][k] == s[a + c..a + d][k] {
      assert s[a..b][c + k] == s[a + c + k];
    }
  }

  // ---------------------------------------------------------------------------
  // lower()

  /** Lower-cases an ASCII capital letter and leaves every other character. */
  function LowerChar(c: char): (r: char)
    ensures ('A' <= c <= 'Z') ==> 'a' <= r <= 'z' && r as int == c as int + 32
    ensures !('A' <= c <= 'Z') ==> r == c
  {
    if 'A' <= c <= 'Z' then (c as int + 32) as char else c
  }

  /** `s.lower()` on the ASCII letters. */
  function Lower(s: string): (r: string)
    ensures |r| == |s| && forall k :: 0 <= k < |s| ==> r[k] == LowerChar(s[k])
  {
    if s == [] then [] else [LowerChar(s[0])] + Lower(s[1..])
  }

  // ---------------------------------------------------------------------------
  // join() and lines

  /** `sep.join(parts)`. */
  function JoinWith(sep: string, parts: seq<string>): string {
    if |parts| == 0 then ""
    else if |parts| == 1 then parts[0]
    else parts[0] + sep + JoinWith(sep, parts[1..])
  }

  /** Joins two non-empty lists: the separator appears once more between them. */
  lemma {:induction false} JoinWithAppend(sep: string, a: seq<string>, b: seq<string>)
    requires |a| > 0 && |b| > 0
    ensures JoinWith(sep, a + b) == JoinWith(sep, a) + sep + JoinWith(sep, b)
    decreases |a|
  {
    if |a| == 1 {
      assert (a + b)[1..] == b;
    } else {
      assert (a + b)[1..] == a[1..] + b;
      JoinWithAppend(sep, a[1..], b);
    }
  }

  /** The index of the first `c` in `s`. */
  function IndexOfChar(s: string, c: char): (k: nat)
    requires c in s
    ensures k < |s| && s[k] == c && c !in s[..k]
  {
    if s[0] == c then 0 else 1 + IndexOfChar(s[1..], c)
  }

  /** `s.split("\n")`: the lines of `s`, always at least one. */
  function Lines(s: string): (r: seq<string>)
    ensures |r| > 0
    ensures forall k :: 0 <= k < |r| ==> '\n' !in r[k]
    decreases |s|
  {
    if '\n' in s then
      var k := IndexOfChar(s, '\n');
      [s[..k]] + Lines(s[k + 1..])
    else [s]
  }

  /** Joining the lines of `s` with line breaks gives `s` back. */
  lemma {:induction false} JoinLinesOfText(s: string)
    ensures JoinWith("\n", Lines(s)) == s
    decreases |s|
  {
    if '\n' in s {
      var k := IndexOfChar(s, '\n');
      JoinLinesOfText(s[k + 1..]);
      JoinWithAppend("\n", [s[..k]], Lines(s[k + 1..]));
      assert s == s[..k] + "\n" + s[k + 1..];
    }
  }

  /** The lines of `a + "\n" + b` are the lines of `a` followed by the lines of `b`. */
  lemma {:induction false} LinesAppend(a: string, b: string)
    ensures Lines(a + "\n" + b) == Lines(a) + Lines(b)
    decreases |a|
  {
    if '\n' in a {
      var k := IndexOfChar(a, '\n');
      SplitAround(a, k);
      LinesAppend(a[k + 1..], b);
      FirstLineOfAppend(a[..k], a[k + 1..], b);
    } else {
      LinesAfterFirst(a, b);
      LinesOfLine(a);
    }
  }

  /** The first line of `x + "\n" + tail` stays the first line when more lines follow. */
  lemma FirstLineOfAppend(x: string, tail: string, b: string)
    requires '\n' !in x
    requires Lines(tail + "\n" + b) == Lines(tail) + Lines(b)
    ensures Lines(x + "\n" + tail + "\n" + b) == Lines(x + "\n" + tail) + Lines(b)
  {
    Reassociate(x, "\n", tail, b);
    LinesAfterFirst(x, tail);
    LinesAfterFirst(x, tail + "\n" + b);
    ConsAssociative(x, Lines(tail), Lines(b));
  }

  lemma ConsAssociative(x: string, p: seq<string>, q: seq<string>)
    ensures [x] + (p + q) == [x] + p + q
  {
  }

  /** A line break at `k` sits between the text before it and the text after it. */
  lemma SplitAround(a: string, k: nat)
    requires k < |a| && a[k] == '\n'
    ensures a == a[..k] + "\n" + a[k + 1..]
  {
    assert a[k..k + 1] == "\n";
  }

  lemma Reassociate(x: string, m: string, y: string, z: string)
    ensures x + m + y + m + z == x + m + (y + m + z)
  {
  }

  /** A first line without line breaks, then the lines of the rest. */
  lemma LinesAfterFirst(x: string, rest: string)
    requires '\n' !in x
    ensures Lines(x + "\n" + rest) == [x] + Lines(rest)
  {
    var s := x + "\n" + rest;
    assert s[..|x|] == x && s[|x| + 1..] == rest;
    LinesSplitAt(s, |x|);
  }

  /** The first line break of `s` at `k` ends its first line. */
  lemma LinesSplitAt(s: string, k: nat)
    requires k < |s| && s[k] == '\n' && '\n' !in s[..k]
    ensures Lines(s) == [s[..k]] + Lines(s[k + 1..])
  {
    IndexOfCharAt(s, '\n', k);
  }

  /** The first `c` in `s` is at `k` when `s[k]` is `c` and no earlier character is. */
  lemma {:induction false} IndexOfCharAt(s: string, c: char, k: nat)
    requires k < |s| && s[k] == c && c !in s[..k]
    ensures IndexOfChar(s, c) == k
    decreases k
  {
    if k > 0 {
      assert s[0] == s[..k][0];
      assert s[1..][..k - 1] == s[..k][1..];
      IndexOfCharAt(s[1..], c, k - 1);
    }
  }

  /** The lines of a text without line breaks are that text alone. */
  lemma LinesOfLine(s: string)
    requires '\n' !in s
    ensures Lines(s) == [s]
  {
  }

  // ---------------------------------------------------------------------------
  // textwrap.dedent()

  /** Only spaces and tabs, and at least one of them. */
  predicate BlankLine(l: string) {
    |l| > 0 && forall k :: 0 <= k < |l| ==> l[k] == ' ' || l[k] == '\t'
  }

  /** dedent's first step on one line: a line of only spaces and tabs becomes empty. */
  function ClearBlank(l: string): string {
    if BlankLine(l) then "" else l
  }

  function ClearBlanks(ls: seq<string>): (r: seq<string>)
    ensures |r| == |ls| && forall k :: 0 <= k < |ls| ==> r[k] == ClearBlank(ls[k])
  {
    if ls == [] then [] else [ClearBlank(ls[0])] + ClearBlanks(ls[1..])
  }

  /** `s` with every line made only of spaces and tabs emptied. */
  function ClearBlankLines(s: string): string {
    JoinWith("\n", ClearBlanks(Lines(s)))
  }

  /** The leading spaces and tabs of a line. */
  function Indent(l: string): (r: string)
    ensures |r| <= |l| && r == l[..|r|]
    ensures |r| < |l| ==> l[|r|] != ' ' && l[|r|] != '\t'
  {
    if |l| > 0 && (l[0] == ' ' || l[0] == '\t') then [l[0]] + Indent(l[1..]) else []
  }

  predicate IsPrefix(p: string, s: string) {
    |p| <= |s| && s[..|p|] == p
  }

  function CommonPrefix(a: string, b: string): (r: string)
    ensures IsPrefix(r, a) && IsPrefix(r, b)
  {
    if a == [] || b == [] || a[0] != b[0] then [] else [a[0]] + CommonPrefix(a[1..], b[1..])
  }

  /** One step of dedent's margin loop: narrow the margin so far by the next line's indent. */
  function Narrow(margin: Option<string>, indent: string): string {
    match margin
    case None => indent
    case Some(m) =>
      if IsPrefix(m, indent) then m
      else if IsPrefix(indent, m) then indent
      else CommonPrefix(m, indent)
  }

  /** The margin of dedent: the indents of the non-empty lines narrowed in order. */
  function Margin(ls: seq<string>, margin: Option<string>): Option<string> {
    if ls == [] then margin
    else Margin(ls[1..], if ls[0] == "" then margin else Some(Narrow(margin, Indent(ls[0]))))
  }

  function RemoveMargin(ls: seq<string>, m: string): (r: seq<string>)
    ensures |r| == |ls|
  {
    if ls == [] then []
    else [if IsPrefix(m, ls[0]) then ls[0][|m|..] else ls[0]] + RemoveMargin(ls[1..], m)
  }

  /**
   * `textwrap.dedent(s)` as in CPython 3.8 to 3.13: lines of only spaces and
   * tabs are emptied, then the common leading spaces and tabs of the other
   * lines are removed from every line that has them.
   */
  function Dedent(s: string): string {
    var ls := ClearBlanks(Lines(s));
    match Margin(ls, None)
    case Some(m) => if m != "" then JoinWith("\n", RemoveMargin(ls, m)) else JoinWith("\n", ls)
    case None => JoinWith("\n", ls)
  }

  /** Once some non-empty line has no indent the margin is empty for good. */
  lemma {:induction false} MarginEmptied(ls: seq<string>, margin: Option<string>, i: nat)
    requires i < |ls| && ls[i] != "" && Indent(ls[i]) == ""
    ensures Margin(ls, margin) == Some("")
    decreases |ls|
  {
    var next := if ls[0] == "" then margin else Some(Narrow(margin, Indent(ls[0])));
    if i == 0 {
      assert next == Some("");
      MarginStaysEmpty(ls[1..]);
    } else {
      MarginEmptied(ls[1..], next, i - 1);
    }
  }

  lemma {:induction false} MarginStaysEmpty(ls: seq<string>)
    ensures Margin(ls, Some("")) == Some("")
    decreases |ls|
  {
    if ls != [] {
      MarginStaysEmpty(ls[1..]);
    }
  }

  /**
   * When one line of `s` starts with neither a space nor a tab, dedent
   * removes no indentation and only empties the blank lines.
   */
  lemma DedentWithoutMargin(s: string, i: nat)
    requires i < |Lines(s)| && Lines(s)[i] != "" && Lines(s)[i][0] != ' ' && Lines(s)[i][0] != '\t'
    ensures Dedent(s) == ClearBlankLines(s)
  {
    var ls := ClearBlanks(Lines(s));
    assert ls[i] == Lines(s)[i] by { assert !BlankLine(Lines(s)[i]); }
    MarginEmptied(ls, None, i);
  }

  /** Emptying blank lines acts on each line-separated part on its own. */
  /** `a` and `b` on consecutive lines. */
  function Ln(a: string, b: string): string {
    a + "\n" + b
  }

  /** A line that does not start with indentation is untouched by emptying blank lines. */
  lemma HeadingUnchanged(h: string)
    requires h != [] && h[0] != ' ' && h[0] != '\t' && '\n' !in h
    ensures ClearBlankLines(h) == h && Lines(h) == [h]
  {
    LinesOfLine(h);
  }

  lemma ClearBlankLinesAppend(a: string, b: string)
    ensures ClearBlankLines(a + "\n" + b) == ClearBlankLines(a) + "\n" + ClearBlankLines(b)
  {
    LinesAppend(a, b);
    assert ClearBlanks(Lines(a) + Lines(b)) == ClearBlanks(Lines(a)) + ClearBlanks(Lines(b));
    JoinWithAppend("\n", ClearBlanks(Lines(a)), ClearBlanks(Lines(b)));
  }

  /** Emptying the blank lines of parts joined by line breaks is done part by part. */
  lemma {:induction false} ClearBlankLinesJoin(parts: seq<string>)
    requires |parts| > 0
    ensures ClearBlankLines(JoinWith("\n", parts)) == JoinWith("\n", MapClearBlankLines(parts))
    decreases |parts|
  {
    if |parts| > 1 {
      ClearBlankLinesJoin(parts[1..]);
      ClearBlankLinesAppend(parts[0], JoinWith("\n", parts[1..]));
    }
  }

  function MapClearBlankLines(parts: seq<string>): (r: seq<string>)
    ensures |r| == |parts| && forall k :: 0 <= k < |parts| ==> r[k] == ClearBlankLines(parts[k])
  {
    if parts == [] then [] else [ClearBlankLines(parts[0])] + MapClearBlankLines(parts[1..])
  }

  /** A text none of whose lines is blank is left as it is. */
  lemma ClearBlankLinesNone(s: string)
    requires forall k :: 0 <= k < |Lines(s)| ==> !BlankLine(Lines(s)[k])
    ensures ClearBlankLines(s) == s
  {
    assert ClearBlanks(Lines(s)) == Lines(s);
    JoinLinesOfText(s);
  }

  /** A part without line breaks is one of the lines of the parts joined by line breaks. */
  lemma {:induction false} LinesOfJoin(parts: seq<string>, k: nat)
    requires k < |parts| && '\n' !in parts[k]
    ensures parts[k] in Lines(JoinWith("\n", parts))
    decreases |parts|
  {
    if |parts| == 1 {
      LinesOfLine(parts[0]);
    } else {
      var rest := JoinWith("\n", parts[1..]);
      assert JoinWith("\n", parts) == parts[0] + "\n" + rest;
      LinesAppend(parts[0], rest);
      if k == 0 {
        LinesOfLine(parts[0]);
      } else {
        LinesOfJoin(parts[1..], k - 1);
        assert parts[1..][k - 1] == parts[k];
      }
    }
  }

  /**
   * dedent of parts joined by line breaks, one of which is a single line with
   * no indentation, empties the blank lines of each part and changes nothing else.
   */
  lemma DedentJoin(parts: seq<string>, k: nat)
    requires k < |parts| && '\n' !in parts[k] && parts[k] != "" && parts[k][0] != ' ' && parts[k][0] != '\t'
    ensures Dedent(JoinWith("\n", parts)) == JoinWith("\n", MapClearBlankLines(parts))
  {
    LinesOfJoin(parts, k);
    var i :| 0 <= i < |Lines(JoinWith("\n", parts))| && Lines(JoinWith("\n", parts))[i] == parts[k];
    DedentWithoutMargin(JoinWith("\n", parts), i);
    ClearBlankLinesJoin(parts);
  }

  // ---------------------------------------------------------------------------
  // str(n) for a natural number

  function DigitChar(d: nat): (c: char)
    requires d < 10
    ensures '0' <= c <= '9' && c as int - '0' as int == d
  {
    ('0' as int + d) as char
  }

  /** `str(n)`: the decimal digits of `n`, without leading zeros. */
  function NatToString(n: nat): (r: string)
    ensures 0 < |r| && (n < 10 <==> |r| == 1)
    ensures forall k :: 0 <= k < |r| ==> '0' <= r[k] <= '9'
  {
    if n < 10 then [DigitChar(n)] else NatToString(n / 10) + [DigitChar(n % 10)]
  }

  /** Distinct numbers have distinct decimal forms. */
  lemma {:induction false} NatToStringInjective(a: nat, b: nat)
    requires NatToString(a) == NatToString(b)
    ensures a == b
    decreases a
  {
    if a >= 10 && b >= 10 {
      var sa, sb := NatToString(a), NatToString(b);
      assert sa[|sa| - 1] == DigitChar(a % 10) && sb[|sb| - 1] == DigitChar(b % 10);
      assert sa[..|sa| - 1] == NatToString(a / 10);
      assert sb[..|sb| - 1] == NatToString(b / 10);
      NatToStringInjective(a / 10, b / 10);
    } else if a < 10 && b < 10 {
      assert NatToString(a)[0] == DigitChar(a);
    }
  }
}
