/**
 * The few java.lang.String operations the script runner relies on, written
 * over `seq<char>`: `trim`, `startsWith`, `contains`, `lastIndexOf`,
 * `replaceAll("\r\n", "\n")`, and the appending of a line separator
 * (`sep`, the platform's `line.separator`: "\n" or "\r\n").
 */
module JavaText {

  /** `String.trim` removes every character whose code is at most U+0020. */
  predicate IsBlank(c: char) { c <= ' ' }

  predicate AllBlank(s: string) { forall i :: 0 <= i < |s| ==> IsBlank(s[i]) }

  /** Index of the first non-blank character at or after `i` (or `|s|`). */
  function SkipBlanks(s: string, i: nat): (k: nat)
    requires i <= |s|
    ensures i <= k <= |s|
    ensures AllBlank(s[i..k])
    ensures k < |s| ==> !IsBlank(s[k])
    decreases |s| - i
  {
    if i == |s| || !IsBlank(s[i]) then i else SkipBlanks(s, i + 1)
  }

  /** End (exclusive) of `s[lo..hi]` once its trailing blanks are dropped. */
  function DropTrailingBlanks(s: string, lo: nat, hi: nat): (k: nat)
    requires lo <= hi <= |s|
    ensures lo <= k <= hi
    ensures AllBlank(s[k..hi])
    ensures k > lo ==> !IsBlank(s[k - 1])
    decreases hi - lo
  {
    if hi == lo || !IsBlank(s[hi - 1]) then hi
    else
      var k := DropTrailingBlanks(s, lo, hi - 1);
      assert s[k..hi] == s[k..hi - 1] + [s[hi - 1]];
      k
  }

  function TrimStart(s: string): nat { SkipBlanks(s, 0) }

  function TrimEnd(s: string): nat { DropTrailingBlanks(s, TrimStart(s), |s|) }

  /** Java's `String.trim()`. */
  function Trim(s: string): (t: string)
    ensures t == "" || (!IsBlank(t[0]) && !IsBlank(t[|t| - 1]))
    ensures TrimStart(s) + |t| <= |s| && s[TrimStart(s)..TrimStart(s) + |t|] == t
    ensures AllBlank(s[..TrimStart(s)]) && AllBlank(s[TrimStart(s) + |t|..])
  {
    s[TrimStart(s)..TrimEnd(s)]
  }

  predicate StartsWith(s: string, prefix: string) {
    |prefix| <= |s| && s[..|prefix|] == prefix
  }

  /** `sub` occurs in `s` starting at index `i`. */
  predicate OccursAt(s: string, sub: string, i: int) {
    0 <= i && i + |sub| <= |s| && s[i..i + |sub|] == sub
  }

  /** The largest `j <= k` at which `sub` occurs in `s`, or -1. */
  function LastIndexAtOrBelow(s: string, sub: string, k: int): (r: int)
    ensures r == -1 || 0 <= r <= k
    ensures r == -1 || OccursAt(s, sub, r)
    ensures forall j :: r < j <= k ==> !OccursAt(s, sub, j)
    decreases if k < 0 then 0 else k + 1
  {
    if k < 0 then -1
    else if OccursAt(s, sub, k) then k
    else LastIndexAtOrBelow(s, sub, k - 1)
  }

  /** Java's `String.lastIndexOf(String)`: -1 when `sub` does not occur. */
  function LastIndexOf(s: string, sub: string): (r: int)
    ensures r == -1 || OccursAt(s, sub, r)
    ensures forall j :: r < j ==> !OccursAt(s, sub, j)
  {
    LastIndexAtOrBelow(s, sub, |s| - |sub|)
  }

  /** Java's `String.contains(String)`. */
  predicate Contains(s: string, sub: string) { LastIndexOf(s, sub) >= 0 }

  lemma ContainsIffOccurs(s: string, sub: string)
    ensures Contains(s, sub) <==> exists j :: OccursAt(s, sub, j)
  {
    if !Contains(s, sub) {
      forall j ensures !OccursAt(s, sub, j) { }
    }
  }

  /** Java's `replaceAll("\r\n", "\n")`: matches are taken left to right. */
  function ReplaceCrLf(s: string): (r: string)
    ensures |r| <= |s|
  {
    if |s| < 2 then s
    else if s[0] == '\r' && s[1] == '\n' then "\n" + ReplaceCrLf(s[2..])
    else [s[0]] + ReplaceCrLf(s[1..])
  }

  /**
   * The rewrite read one character at a time: a carriage return is dropped
   * exactly when a line feed follows it; every other character, a lone
   * carriage return included, is kept.
   */
  function DropCrBeforeLf(s: string): string {
    if s == [] then []
    else if s[0] == '\r' && |s| > 1 && s[1] == '\n' then DropCrBeforeLf(s[1..])
    else [s[0]] + DropCrBeforeLf(s[1..])
  }

  /** The lines, each followed by the separator: the whole-script text. */
  function JoinLines(lines: seq<string>, sep: string): (r: string)
    ensures lines != [] ==> |r| >= |sep| && r[|r| - |sep|..] == sep
  {
    if lines == [] then ""
    else JoinLines(lines[..|lines| - 1], sep) + lines[|lines| - 1] + sep
  }

  /** A string with no blank at either end is its own trim. */
  lemma TrimUnpadded(s: string)
    requires s != "" && !IsBlank(s[0]) && !IsBlank(s[|s| - 1])
    ensures Trim(s) == s
  {
    assert TrimStart(s) == 0;
    assert TrimEnd(s) == |s|;
  }

  /** A line trims to the empty string exactly when it is all blanks. */
  lemma TrimEmptyIffAllBlank(s: string)
    ensures Trim(s) == "" <==> AllBlank(s)
  {
    if Trim(s) == "" {
      assert s == s[..TrimStart(s)] + s[TrimStart(s)..];
    }
  }

  /** An occurrence inside the trimmed line is an occurrence in the line itself. */
  lemma TrimmedOccurrence(line: string, sub: string, j: int)
    requires OccursAt(Trim(line), sub, j)
    ensures OccursAt(line, sub, TrimStart(line) + j)
  {
    var a, t := TrimStart(line), Trim(line);
    assert line[a..a + |t|] == t;
    forall k | 0 <= k < |sub|
      ensures line[a + j..a + j + |sub|][k] == sub[k]
    {
      assert t[j + k] == sub[k];
      assert line[a..a + |t|][j + k] == line[a + j + k];
    }
  }

  /** Whatever the trimmed line contains, the untrimmed line contains too. */
  lemma TrimmedContains(line: string, sub: string)
    requires Contains(Trim(line), sub)
    ensures Contains(line, sub)
  {
    TrimmedOccurrence(line, sub, LastIndexOf(Trim(line), sub));
  }

  /** Without a carriage return there is nothing for the CR-LF rewrite to do. */
  lemma {:induction false} ReplaceCrLfWithoutCr(s: string)
    requires forall i :: 0 <= i < |s| ==> s[i] != '\r'
    ensures ReplaceCrLf(s) == s
  {
    if |s| >= 2 {
      ReplaceCrLfWithoutCr(s[1..]);
    }
  }

  /**
   * The CR-LF rewrite, which consumes two characters per match, drops
   * exactly the carriage returns that precede a line feed and keeps the rest.
   */
  lemma {:induction false} ReplaceCrLfDropsCrBeforeLf(s: string)
    ensures ReplaceCrLf(s) == DropCrBeforeLf(s)
  {
    if |s| == 1 {
      assert DropCrBeforeLf(s) == [s[0]] + DropCrBeforeLf([]);
    } else if |s| >= 2 {
      if s[0] == '\r' && s[1] == '\n' {
        ReplaceCrLfDropsCrBeforeLf(s[2..]);
        assert s[1..][1..] == s[2..];
        assert DropCrBeforeLf(s[1..]) == "\n" + DropCrBeforeLf(s[2..]);
      } else {
        ReplaceCrLfDropsCrBeforeLf(s[1..]);
      }
    }
  }

  /**
   * The rewrite is a single left-to-right pass: a carriage return before a
   * CR-LF pair survives, so the result can still contain CR-LF.
   */
  lemma LoneCrSurvives()
    ensures ReplaceCrLf("\r\r\n") == "\r\n"
    ensures ReplaceCrLf("a\rb") == "a\rb"
  {
    assert "\r\r\n"[1..] == "\r\n";
    assert "a\rb"[1..] == "\rb" && "\rb"[1..] == "b";
  }

  /** Joining a script in two pieces gives the joined whole. */
  lemma {:induction false} JoinLinesAppend(a: seq<string>, b: seq<string>, sep: string)
    ensures JoinLines(a + b, sep) == JoinLines(a, sep) + JoinLines(b, sep)
  {
    if b != [] {
      assert (a + b)[..|a + b| - 1] == a + b[..|b| - 1];
      JoinLinesAppend(a, b[..|b| - 1], sep);
    } else {
      assert a + b == a;
    }
  }
}
