/**
 * The delimiter directive recognised inside comment lines:
 * `^\s*((--)|(//))?\s*(//)?\s*@DELIMITER\s+([^\s]+)`, case-insensitive,
 * applied with `find()`. Group 5 becomes the new delimiter.
 *
 * `MatchDirective` is a deterministic scanner; `Matches` states what a match
 * of the pattern is, span by span, and the two are proved to agree.
 */
module DelimiterDirective {
  import opened Options

  /** The regex class `\s`: space, tab, newline, vertical tab, form feed, carriage return. */
  predicate IsSpace(c: char) {
    c == ' ' || c == '\t' || c == '\n' || c == '\U{B}' || c == '\U{C}' || c == '\r'
  }

  /** Every character of `s[i..k]` is `\s`. */
  predicate SpacesBetween(s: string, i: nat, k: nat)
    requires i <= k <= |s|
  {
    forall x :: i <= x < k ==> IsSpace(s[x])
  }

  /** No character of `s[i..k]` is `\s`. */
  predicate TokenBetween(s: string, i: nat, k: nat)
    requires i <= k <= |s|
  {
    forall x :: i <= x < k ==> !IsSpace(s[x])
  }

  predicate NoSpace(s: string) { forall i :: 0 <= i < |s| ==> !IsSpace(s[i]) }

  const Keyword: string := "@DELIMITER"

  /**
   * Case-insensitive comparison of one character against an upper-case
   * pattern character; only US-ASCII letters fold, as in a pattern compiled
   * with CASE_INSENSITIVE and without UNICODE_CASE.
   */
  predicate SameIgnoringCase(c: char, upper: char) {
    c == upper || ('A' <= upper <= 'Z' && c as int == upper as int + 32)
  }

  /** The keyword `@DELIMITER`, in any letter case, starts at index `p`. */
  predicate KeywordAt(s: string, p: nat) {
    p + |Keyword| <= |s| &&
    forall i :: 0 <= i < |Keyword| ==> SameIgnoringCase(s[p + i], Keyword[i])
  }

  /** `s[i..i + 2]` is the marker `cc` (`--` or `//`). */
  predicate DoubledAt(s: string, i: nat, c: char) {
    i + 2 <= |s| && s[i] == c && s[i + 1] == c
  }

  /** First index at or after `i` that is not `\s` (or `|s|`). */
  function SkipSpace(s: string, i: nat): (k: nat)
    requires i <= |s|
    ensures i <= k <= |s|
    ensures SpacesBetween(s, i, k)
    ensures k < |s| ==> !IsSpace(s[k])
    decreases |s| - i
  {
    if i == |s| || !IsSpace(s[i]) then i else SkipSpace(s, i + 1)
  }

  /** First index at or after `i` that is `\s` (or `|s|`). */
  function SkipToken(s: string, i: nat): (k: nat)
    requires i <= |s|
    ensures i <= k <= |s|
    ensures TokenBetween(s, i, k)
    ensures k < |s| ==> IsSpace(s[k])
    decreases |s| - i
  {
    if i == |s| || IsSpace(s[i]) then i else SkipToken(s, i + 1)
  }

  /** Where `\s*((--)|(//))?` stops. */
  function AfterFirstMarker(s: string): nat
  {
    var a := SkipSpace(s, 0);
    if DoubledAt(s, a, '-') || DoubledAt(s, a, '/') then a + 2 else a
  }

  /** Where `\s*((--)|(//))?\s*(//)?\s*` stops: the only place `@DELIMITER` may start. */
  function KeywordStart(s: string): (p: nat)
    ensures p <= |s|
  {
    var b := AfterFirstMarker(s);
    var c := SkipSpace(s, b);
    var d := if DoubledAt(s, c, '/') then c + 2 else c;
    SkipSpace(s, d)
  }

  /** The new delimiter named by a directive line, if the line is one. */
  function MatchDirective(s: string): (r: Option<string>)
    ensures r.Some? ==> |r.value| > 0 && NoSpace(r.value)
  {
    var p := KeywordStart(s);
    if !KeywordAt(s, p) then None
    else
      var q := SkipSpace(s, p + |Keyword|);
      if q == p + |Keyword| || q == |s| then None
      else Some(s[q..SkipToken(s, q)])
  }

  /**
   * The group boundaries of one match of the pattern against `s`:
   * `s[..i]` spaces, `s[i..j]` the optional `--` or `//`, `s[j..k]` spaces,
   * `s[k..l]` the optional `//`, `s[l..p]` spaces, the keyword at `p`,
   * spaces up to `q`, and group 5 as `s[q..e]`, the longest run of
   * non-spaces (the quantifier is greedy).
   */
  datatype Span = Span(i: nat, j: nat, k: nat, l: nat, p: nat, q: nat, e: nat)

  ghost predicate Matches(s: string, m: Span) {
    && m.i <= m.j <= m.k <= m.l <= m.p
    && m.p + |Keyword| < m.q < m.e <= |s|
    && SpacesBetween(s, 0, m.i)
    && (m.j == m.i || (m.j == m.i + 2 && (DoubledAt(s, m.i, '-') || DoubledAt(s, m.i, '/'))))
    && SpacesBetween(s, m.j, m.k)
    && (m.l == m.k || (m.l == m.k + 2 && DoubledAt(s, m.k, '/')))
    && SpacesBetween(s, m.l, m.p)
    && KeywordAt(s, m.p)
    && SpacesBetween(s, m.p + |Keyword|, m.q)
    && TokenBetween(s, m.q, m.e)
    && (m.e == |s| || IsSpace(s[m.e]))
  }

  /** `SkipSpace` stops at the first non-space: any such landing point is it. */
  lemma SkipSpaceLands(s: string, i: nat, k: nat)
    requires i <= k <= |s|
    requires SpacesBetween(s, i, k)
    requires k == |s| || !IsSpace(s[k])
    ensures SkipSpace(s, i) == k
    decreases k - i
  {
    if i < k {
      SkipSpaceLands(s, i + 1, k);
    }
  }

  /** `SkipToken` stops at the first space: any such landing point is it. */
  lemma SkipTokenLands(s: string, i: nat, k: nat)
    requires i <= k <= |s|
    requires TokenBetween(s, i, k)
    requires k == |s| || IsSpace(s[k])
    ensures SkipToken(s, i) == k
    decreases k - i
  {
    if i < k {
      SkipTokenLands(s, i + 1, k);
    }
  }

  /**
   * In any match, the optional prefix ends exactly where the scanner says:
   * none of `-`, `/` and `@` is a space, so the scanner cannot overshoot or
   * stop short of the keyword.
   */
  lemma {:induction false} KeywordStartOfMatch(s: string, m: Span)
    requires Matches(s, m)
    ensures KeywordStart(s) == m.p
  {
    assert s[m.p] == '@' by { assert SameIgnoringCase(s[m.p + 0], Keyword[0]); }
    assert !DoubledAt(s, m.p, '-') && !DoubledAt(s, m.p, '/');
    if m.i < m.j {
      SkipSpaceLands(s, 0, m.i);
      assert AfterFirstMarker(s) == m.j;
      if m.k < m.l {
        SkipSpaceLands(s, m.j, m.k);
        SkipSpaceLands(s, m.l, m.p);
      } else {
        SkipSpaceLands(s, m.j, m.p);
        SkipSpaceLands(s, m.p, m.p);
      }
    } else if m.k < m.l {
      SkipSpaceLands(s, 0, m.k);
      assert AfterFirstMarker(s) == m.l;
      SkipSpaceLands(s, m.l, m.p);
      SkipSpaceLands(s, m.p, m.p);
    } else {
      SkipSpaceLands(s, 0, m.p);
      assert AfterFirstMarker(s) == m.p;
      SkipSpaceLands(s, m.p, m.p);
    }
  }

  /**
   * Completeness: whenever the pattern matches, the scanner finds the
   * directive and returns exactly group 5.
   */
  lemma {:induction false} MatchDirectiveComplete(s: string, m: Span)
    requires Matches(s, m)
    ensures MatchDirective(s) == Some(s[m.q..m.e])
  {
    KeywordStartOfMatch(s, m);
    SkipSpaceLands(s, m.p + |Keyword|, m.q);
    SkipTokenLands(s, m.q, m.e);
  }

  /**
   * Soundness: whatever the scanner returns is group 5 of a match of the
   * pattern.
   */
  lemma {:induction false} MatchDirectiveSound(s: string)
    ensures MatchDirective(s).Some? ==>
              exists m :: Matches(s, m) && MatchDirective(s).value == s[m.q..m.e]
  {
    if MatchDirective(s).Some? {
      var a := SkipSpace(s, 0);
      var b := AfterFirstMarker(s);
      var c := SkipSpace(s, b);
      var d := if DoubledAt(s, c, '/') then c + 2 else c;
      var p := KeywordStart(s);
      var q := SkipSpace(s, p + |Keyword|);
      var m := Span(a, b, c, d, p, q, SkipToken(s, q));
      assert Matches(s, m);
    }
  }

  /** All matches of the pattern capture the same delimiter. */
  lemma MatchesAgree(s: string, m1: Span, m2: Span)
    requires Matches(s, m1) && Matches(s, m2)
    ensures s[m1.q..m1.e] == s[m2.q..m2.e]
  {
    MatchDirectiveComplete(s, m1);
    MatchDirectiveComplete(s, m2);
  }
}
