/**
 * The string primitives of Python that the services rely on: whitespace and
 * line-boundary classes, strip, startswith, splitlines, split, join, substring
 * search, lower-casing and decimal rendering of integers.
 *
 * Functions that are evaluated on literal strings in the scenario lemmas walk
 * an index `i` over the string rather than slicing it, so that Dafny can unfold
 * them on constants.
 */
module Text {

  /** The characters for which Python's `str.isspace()` holds; `\s` in a `re` str pattern matches the same set. */
  predicate IsSpace(c: char) {
    ('\t' <= c <= '\r') || ('\U{1C}' <= c <= '\U{1F}') || c == ' ' || c == '\U{85}' || c == '\U{A0}'
    || c == '\U{1680}' || ('\U{2000}' <= c <= '\U{200A}') || c == '\U{2028}' || c == '\U{2029}'
    || c == '\U{202F}' || c == '\U{205F}' || c == '\U{3000}'
  }

  /** The line boundaries of Python's `str.splitlines()` (`\r\n` counts as one boundary). */
  predicate IsLineBreak(c: char) {
    c == '\n' || c == '\r' || c == '\U{0B}' || c == '\U{0C}' || ('\U{1C}' <= c <= '\U{1E}')
    || c == '\U{85}' || c == '\U{2028}' || c == '\U{2029}'
  }

  predicate NoLineBreak(s: string) {
    forall k | 0 <= k < |s| :: !IsLineBreak(s[k])
  }

  /** `NoLineBreak` character by character, which a literal unfolds. */
  predicate NoLineBreakFrom(s: string, i: nat)
    decreases |s| - i
  {
    i >= |s| || (!IsLineBreak(s[i]) && NoLineBreakFrom(s, i + 1))
  }

  lemma {:induction false} NoLineBreakFromAll(s: string, i: nat)
    requires NoLineBreakFrom(s, i)
    ensures forall k | i <= k < |s| :: !IsLineBreak(s[k])
    decreases |s| - i
  {
    if i < |s| {
      NoLineBreakFromAll(s, i + 1);
    }
  }

  // ---------------------------------------------------------------- strip

  /** The first index at or after `i` that is not whitespace. */
  function SkipSpaces(s: string, i: nat): (j: nat)
    requires i <= |s|
    ensures i <= j <= |s|
    ensures j == |s| || !IsSpace(s[j])
    decreases |s| - i
  {
    if i < |s| && IsSpace(s[i]) then SkipSpaces(s, i + 1) else i
  }

  /** Everything `SkipSpaces` passes over is whitespace. */
  lemma {:induction false} SkipSpacesSpaces(s: string, i: nat)
    requires i <= |s|
    ensures forall k | i <= k < SkipSpaces(s, i) :: IsSpace(s[k])
    decreases |s| - i
  {
    if i < |s| && IsSpace(s[i]) {
      SkipSpacesSpaces(s, i + 1);
    }
  }

  /** `SkipSpaces` stops at the first character after a run of whitespace. */
  lemma {:induction false} SkipSpacesOver(s: string, i: nat, j: nat)
    requires i <= j <= |s|
    requires forall k | i <= k < j :: IsSpace(s[k])
    requires j == |s| || !IsSpace(s[j])
    ensures SkipSpaces(s, i) == j
    decreases j - i
  {
    if i < j {
      SkipSpacesOver(s, i + 1, j);
    }
  }

  /** The end of `s[..j]` once its trailing whitespace is removed. */
  function TrimEnd(s: string, j: nat): (k: nat)
    requires j <= |s|
    ensures k <= j
    ensures k == 0 || !IsSpace(s[k - 1])
    decreases j
  {
    if j > 0 && IsSpace(s[j - 1]) then TrimEnd(s, j - 1) else j
  }

  /** Everything `TrimEnd` cuts off is whitespace. */
  lemma {:induction false} TrimEndSpaces(s: string, j: nat)
    requires j <= |s|
    ensures forall m | TrimEnd(s, j) <= m < j :: IsSpace(s[m])
    decreases j
  {
    if j > 0 && IsSpace(s[j - 1]) {
      TrimEndSpaces(s, j - 1);
    }
  }

  /** Python's `s.lstrip()`. */
  function LStrip(s: string): (r: string)
    ensures r == s[SkipSpaces(s, 0)..]
    ensures r == [] || !IsSpace(r[0])
  {
    s[SkipSpaces(s, 0)..]
  }

  /** Python's `s.strip()`: `s` with leading and trailing whitespace removed. */
  function Strip(s: string): (r: string)
    ensures r == [] || (!IsSpace(r[0]) && !IsSpace(r[|r| - 1]))
    ensures |r| <= |s|
  {
    var a := SkipSpaces(s, 0);
    var b := TrimEnd(s, |s|);
    if a < b then s[a..b] else ""
  }

  lemma StripUnchanged(s: string)
    requires s == [] || (!IsSpace(s[0]) && !IsSpace(s[|s| - 1]))
    ensures Strip(s) == s
  {
  }

  /** `p` occurs in `s` at index `i`, compared character by character from `p[k]` on. */
  predicate MatchesAt(s: string, i: nat, p: string, k: nat)
    requires k <= |p|
    decreases |p| - k
  {
    if k == |p| then i + k <= |s| else i + k < |s| && s[i + k] == p[k] && MatchesAt(s, i, p, k + 1)
  }

  /** `p` is the slice of `s` that starts at `j`. */
  predicate OccursAt(s: string, p: string, j: nat) {
    j + |p| <= |s| && s[j..j + |p|] == p
  }

  lemma {:induction false} MatchesAtIff(s: string, i: nat, p: string, k: nat)
    requires k <= |p|
    ensures MatchesAt(s, i, p, k) <==> i + |p| <= |s| && s[i + k..i + |p|] == p[k..]
    decreases |p| - k
  {
    if k < |p| {
      MatchesAtIff(s, i, p, k + 1);
      if i + |p| <= |s| && s[i + k..i + |p|] == p[k..] {
        assert s[i + k] == p[k] by { assert s[i + k..i + |p|][0] == p[k..][0]; }
        assert s[i + k + 1..i + |p|] == s[i + k..i + |p|][1..];
        assert p[k + 1..] == p[k..][1..];
      }
      if MatchesAt(s, i, p, k) {
        assert s[i + k..i + |p|] == [s[i + k]] + s[i + k + 1..i + |p|];
        assert p[k..] == [p[k]] + p[k + 1..];
      }
    }
  }

  /** Python's `s.startswith(p)`. */
  predicate StartsWith(s: string, p: string) {
    MatchesAt(s, 0, p, 0)
  }

  lemma StartsWithIff(s: string, p: string)
    ensures StartsWith(s, p) <==> |p| <= |s| && s[..|p|] == p
  {
    MatchesAtIff(s, 0, p, 0);
  }

  // ---------------------------------------------------------------- substring search

  predicate ContainsFrom(s: string, p: string, i: nat)
    decreases |s| - i
  {
    i + |p| <= |s| && (MatchesAt(s, i, p, 0) || ContainsFrom(s, p, i + 1))
  }

  /** Python's `p in s`; for a pattern without metacharacters also `re.search(p, s) is not None`. */
  predicate Contains(s: string, p: string) {
    ContainsFrom(s, p, 0)
  }

  /** The character-by-character search finds exactly the occurrences of `p` as a slice of `s`. */
  lemma {:induction false} ContainsFromIff(s: string, p: string, i: nat)
    ensures ContainsFrom(s, p, i) <==> exists j :: i <= j && OccursAt(s, p, j)
    decreases |s| - i
  {
    if i + |p| <= |s| {
      ContainsFromIff(s, p, i + 1);
      MatchesAtIff(s, i, p, 0);
      if exists j :: i <= j && OccursAt(s, p, j) {
        var j :| i <= j && OccursAt(s, p, j);
        if j == i {
          assert MatchesAt(s, i, p, 0);
        } else {
          assert i + 1 <= j;
        }
      }
      if MatchesAt(s, i, p, 0) {
        assert OccursAt(s, p, i);
      }
    }
  }

  lemma ContainsIff(s: string, p: string)
    ensures Contains(s, p) <==> exists j :: 0 <= j && OccursAt(s, p, j)
  {
    ContainsFromIff(s, p, 0);
  }

  // ---------------------------------------------------------------- lower

  /** Python's `str.lower()` on one character, for the ASCII letters. */
  function LowerChar(c: char): char {
    if 'A' <= c <= 'Z' then (c as int + 32) as char else c
  }

  function Lower(s: string): (r: string)
    ensures |r| == |s|
    ensures forall k | 0 <= k < |s| :: r[k] == LowerChar(s[k])
  {
    seq(|s|, k requires 0 <= k < |s| => LowerChar(s[k]))
  }

  // ---------------------------------------------------------------- splitlines

  /** The lines of `s[start..]`, where `s[start..i]` holds no boundary yet. */
  function SplitLinesFrom(s: string, start: nat, i: nat): seq<string>
    requires start <= i <= |s|
    decreases |s| - i
  {
    if i == |s| then
      (if start < |s| then [s[start..]] else [])
    else if IsLineBreak(s[i]) then
      var next := if s[i] == '\r' && i + 1 < |s| && s[i + 1] == '\n' then i + 2 else i + 1;
      [s[start..i]] + SplitLinesFrom(s, next, next)
    else
      SplitLinesFrom(s, start, i + 1)
  }

  /** Python's `s.splitlines()`: no boundary is kept, and a final boundary opens no empty line. */
  function SplitLines(s: string): seq<string> {
    SplitLinesFrom(s, 0, 0)
  }

  lemma {:induction false} SplitLinesFromNoBreak(s: string, start: nat, i: nat)
    requires start <= i <= |s|
    requires forall k | i <= k < |s| :: !IsLineBreak(s[k])
    ensures SplitLinesFrom(s, start, i) == if start < |s| then [s[start..]] else []
    decreases |s| - i
  {
    if i < |s| {
      SplitLinesFromNoBreak(s, start, i + 1);
    }
  }

  /** A text without line boundaries is one line, or none when it is empty. */
  lemma SplitLinesNoBreak(s: string)
    requires NoLineBreak(s)
    ensures SplitLines(s) == if s == [] then [] else [s]
  {
    SplitLinesFromNoBreak(s, 0, 0);
  }

  /** A final boundary opens no empty line. */
  lemma SplitLinesTerminated(s: string)
    requires NoLineBreak(s) && s != []
    ensures SplitLines(s + "\n") == [s]
  {
    SplitLinesFromTerminated(s, 0);
  }

  lemma {:induction false} SplitLinesFromTerminated(s: string, i: nat)
    requires NoLineBreak(s) && s != [] && i <= |s|
    ensures SplitLinesFrom(s + "\n", 0, i) == [s]
    decreases |s| - i
  {
    var t := s + "\n";
    if i < |s| {
      assert t[i] == s[i];
      SplitLinesFromTerminated(s, i + 1);
    } else {
      assert t[i] == '\n';
      assert t[0..i] == s;
    }
  }

  // ---------------------------------------------------------------- split and join

  /** The pieces of `s[start..]` separated by `sep`, where `s[start..i]` holds no separator yet. */
  function SplitFrom(s: string, sep: char, start: nat, i: nat): (parts: seq<string>)
    requires start <= i <= |s|
    ensures |parts| >= 1
    decreases |s| - i
  {
    if i == |s| then [s[start..]]
    else if s[i] == sep then [s[start..i]] + SplitFrom(s, sep, i + 1, i + 1)
    else SplitFrom(s, sep, start, i + 1)
  }

  /** Python's `s.split(sep)` for a one-character separator. */
  function Split(s: string, sep: char): seq<string> {
    SplitFrom(s, sep, 0, 0)
  }

  /** Python's `sep.join(parts)`. */
  function Join(parts: seq<string>, sep: string): string
    decreases |parts|
  {
    if parts == [] then ""
    else if |parts| == 1 then parts[0]
    else parts[0] + sep + Join(parts[1..], sep)
  }

  lemma {:induction false} JoinAppend(a: seq<string>, b: seq<string>, sep: string)
    requires a != [] && b != []
    ensures Join(a + b, sep) == Join(a, sep) + sep + Join(b, sep)
    decreases |a|
  {
    if |a| == 1 {
      assert a + b == [a[0]] + b;
      assert (a + b)[1..] == b;
    } else {
      assert (a + b)[1..] == a[1..] + b;
      JoinAppend(a[1..], b, sep);
    }
  }

  /** Two or more parts joined are longer than any one of them by at least the separator. */
  lemma {:induction false} JoinLong(parts: seq<string>, sep: string, j: nat)
    requires |parts| >= 2 && j < |parts|
    ensures |Join(parts, sep)| >= |parts[j]| + |sep|
    decreases |parts|
  {
    if j > 0 && |parts| > 2 {
      JoinLong(parts[1..], sep, j - 1);
    }
  }

  lemma JoinSingle(a: seq<string>, x: string, sep: string)
    requires a != []
    ensures Join(a + [x], sep) == Join(a, sep) + sep + x
  {
    JoinAppend(a, [x], sep);
  }

  lemma {:induction false} JoinSplitFrom(s: string, sep: char, start: nat, i: nat)
    requires start <= i <= |s|
    requires forall k | start <= k < i :: s[k] != sep
    ensures Join(SplitFrom(s, sep, start, i), [sep]) == s[start..]
    decreases |s| - i
  {
    if i == |s| {
    } else if s[i] == sep {
      JoinSplitFrom(s, sep, i + 1, i + 1);
      var rest := SplitFrom(s, sep, i + 1, i + 1);
      assert ([s[start..i]] + rest)[1..] == rest;
      assert s[start..] == s[start..i] + [sep] + s[i + 1..];
    } else {
      JoinSplitFrom(s, sep, start, i + 1);
    }
  }

  /** Joining the pieces of a split with the same separator gives the text back. */
  lemma JoinSplit(s: string, sep: char)
    ensures Join(Split(s, sep), [sep]) == s
  {
    JoinSplitFrom(s, sep, 0, 0);
  }

  // ---------------------------------------------------------------- rstrip of one character

  /** Python's `s.rstrip(c)` for one character `c`. */
  function RStripChar(s: string, c: char): (r: string)
    ensures |r| <= |s| && r == s[..|r|]
    ensures r == [] || r[|r| - 1] != c
    ensures forall k | |r| <= k < |s| :: s[k] == c
    decreases |s|
  {
    if s != [] && s[|s| - 1] == c then RStripChar(s[..|s| - 1], c) else s
  }

  // ---------------------------------------------------------------- integers as text

  function DigitChar(d: nat): char
    requires d < 10
  {
    ('0' as int + d) as char
  }

  /** Decimal digits of `n`, without leading zeros: Python's `str(n)` for `n >= 0`. */
  function NatToString(n: nat): (r: string)
    ensures |r| >= 1 && '0' <= r[0] <= '9'
    ensures |r| > 1 ==> r[0] != '0'
    ensures n > 0 ==> r[0] != '0'
    decreases n
  {
    if n < 10 then [DigitChar(n)] else NatToString(n / 10) + [DigitChar(n % 10)]
  }

  /** `str(n)` consists of decimal digits only. */
  lemma {:induction false} NatToStringDigits(n: nat)
    ensures forall k | 0 <= k < |NatToString(n)| :: '0' <= NatToString(n)[k] <= '9'
    decreases n
  {
    if n >= 10 {
      NatToStringDigits(n / 10);
      var r := NatToString(n);
      var d := NatToString(n / 10);
      forall k | 0 <= k < |r|
        ensures '0' <= r[k] <= '9'
      {
        if k < |d| {
          assert r[k] == d[k];
        }
      }
    }
  }

  /** Python's `str(i)` for an `int`. */
  function IntToString(i: int): string {
    if i < 0 then "-" + NatToString(-i) else NatToString(i)
  }
}
