/**
 * The parsing half of `handleLine`: how one script line changes the command
 * buffer and the current delimiter, and which statement text it completes.
 * `Fold` carries that step over a script; the runner's loop is proved to
 * follow it.
 */
module ScriptParser {
  import opened Options
  import opened JavaText
  import opened DelimiterDirective

  /** The mutable parse state of a line-by-line run. */
  datatype ParseState = ParseState(buffer: string, delimiter: string)

  /** `lineIsComment`: the trimmed line starts with `//` or `--`. */
  predicate IsComment(trimmed: string) {
    StartsWith(trimmed, "//") || StartsWith(trimmed, "--")
  }

  /**
   * `commandReadyToExecute`: the trimmed line contains the delimiter, or,
   * in full-line mode, is exactly the delimiter.
   */
  predicate ReadyToExecute(trimmed: string, delimiter: string, fullLine: bool) {
    (!fullLine && Contains(trimmed, delimiter)) || (fullLine && trimmed == delimiter)
  }

  /** What one line does to the parse state, and what it echoes and dispatches. */
  datatype Effect = Effect(state: ParseState, statement: Option<string>, echo: Option<string>)

  /** The statement completed by a terminator line: everything before the last delimiter. */
  function CompletedStatement(ps: ParseState, line: string, sep: string): string
    requires Contains(line, ps.delimiter)
  {
    ps.buffer + line[..LastIndexOf(line, ps.delimiter)] + sep
  }

  /** `handleLine`, less the execution of the statement it completes. */
  function Step(ps: ParseState, line: string, fullLine: bool, sep: string): Effect
  {
    var trimmed := Trim(line);
    if IsComment(trimmed) then
      var delimiter := match MatchDirective(trimmed)
        case Some(d) => d
        case None => ps.delimiter;
      Effect(ParseState(ps.buffer, delimiter), None, Some(trimmed))
    else if ReadyToExecute(trimmed, ps.delimiter, fullLine) then
      assert Contains(trimmed, ps.delimiter) by {
        if fullLine { assert OccursAt(trimmed, ps.delimiter, 0); }
      }
      TrimmedContains(line, ps.delimiter);
      var statement := CompletedStatement(ps, line, sep);
      Effect(ParseState("", ps.delimiter), Some(statement), Some(statement))
    else if |trimmed| > 0 then
      Effect(ParseState(ps.buffer + line + sep, ps.delimiter), None, None)
    else
      Effect(ps, None, None)
  }

  /** The statements dispatched, the lines echoed and the final parse state. */
  datatype Split = Split(statements: seq<string>, echoes: seq<string>, state: ParseState)

  function Opt(o: Option<string>): seq<string> {
    match o
    case Some(x) => [x]
    case None => []
  }

  /** A line handler: `Step` for one choice of delimiter mode. */
  type LineStep = (ParseState, string) -> Effect

  function LineHandler(fullLine: bool, sep: string): LineStep {
    (ps, line) => Step(ps, line, fullLine, sep)
  }

  /** Feeding every line of `lines` to `step`, starting from `ps`. */
  function Fold(step: LineStep, ps: ParseState, lines: seq<string>): Split
  {
    if lines == [] then Split([], [], ps)
    else
      var before := Fold(step, ps, lines[..|lines| - 1]);
      var e := step(before.state, lines[|lines| - 1]);
      Split(before.statements + Opt(e.statement), before.echoes + Opt(e.echo), e.state)
  }

  /** A script read from an empty buffer with the configured delimiter. */
  function SplitScript(lines: seq<string>, delimiter: string, fullLine: bool, sep: string): Split
  {
    Fold(LineHandler(fullLine, sep), ParseState("", delimiter), lines)
  }

  /**
   * A comment line never touches the command buffer and never dispatches,
   * even when it contains the delimiter: the comment test comes first.
   */
  lemma CommentLineIsInert(ps: ParseState, line: string, fullLine: bool, sep: string)
    requires IsComment(Trim(line))
    ensures Step(ps, line, fullLine, sep).state.buffer == ps.buffer
    ensures Step(ps, line, fullLine, sep).statement == None
    ensures Step(ps, line, fullLine, sep).echo == Some(Trim(line))
  {
  }

  /**
   * A comment line that is a directive switches to the delimiter it names;
   * any other comment line keeps the current one.
   */
  lemma DirectiveSetsDelimiter(ps: ParseState, line: string, fullLine: bool, sep: string)
    requires IsComment(Trim(line))
    ensures MatchDirective(Trim(line)).Some? ==>
              Step(ps, line, fullLine, sep).state.delimiter == MatchDirective(Trim(line)).value
    ensures MatchDirective(Trim(line)).None? ==>
              Step(ps, line, fullLine, sep).state.delimiter == ps.delimiter
  {
  }

  /**
   * Contains mode: a non-comment line whose trimmed form contains the
   * delimiter completes the buffer with the line up to the last occurrence
   * of the delimiter (the rest of the line is dropped) and empties the buffer.
   */
  lemma ContainsModeDispatch(ps: ParseState, line: string, sep: string)
    requires !IsComment(Trim(line)) && Contains(Trim(line), ps.delimiter)
    ensures var cut := LastIndexOf(line, ps.delimiter);
      && cut >= 0
      && OccursAt(line, ps.delimiter, cut)
      && (forall j :: cut < j ==> !OccursAt(line, ps.delimiter, j))
      && Step(ps, line, false, sep).statement == Some(ps.buffer + line[..cut] + sep)
      && Step(ps, line, false, sep).state == ParseState("", ps.delimiter)
  {
    TrimmedContains(line, ps.delimiter);
  }

  /**
   * Full-line mode: only a line that trims to exactly the delimiter
   * dispatches; a line that merely contains it is part of the statement.
   */
  lemma FullLineModeDispatch(ps: ParseState, line: string, sep: string)
    requires !IsComment(Trim(line))
    ensures Step(ps, line, true, sep).statement.Some? <==> Trim(line) == ps.delimiter
    ensures Trim(line) == ps.delimiter ==>
              Step(ps, line, true, sep).state == ParseState("", ps.delimiter)
    ensures Trim(line) != ps.delimiter && Trim(line) != "" ==>
              Step(ps, line, true, sep).state == ParseState(ps.buffer + line + sep, ps.delimiter)
  {
  }

  /** A line that neither comments nor terminates is appended whole, then the separator. */
  lemma ContinuationLineIsAppended(ps: ParseState, line: string, fullLine: bool, sep: string)
    requires !IsComment(Trim(line)) && !ReadyToExecute(Trim(line), ps.delimiter, fullLine)
    requires Trim(line) != ""
    ensures Step(ps, line, fullLine, sep) ==
            Effect(ParseState(ps.buffer + line + sep, ps.delimiter), None, None)
  {
  }

  /** A blank line changes nothing, as long as the delimiter is not empty. */
  lemma BlankLineIsIgnored(ps: ParseState, line: string, fullLine: bool, sep: string)
    requires AllBlank(line) && ps.delimiter != ""
    ensures Step(ps, line, fullLine, sep) == Effect(ps, None, None)
  {
    TrimEmptyIffAllBlank(line);
    assert !OccursAt(Trim(line), ps.delimiter, LastIndexOf(Trim(line), ps.delimiter));
  }

  /** One more line after a script: `Fold` unfolded once. */
  lemma FoldSnoc(step: LineStep, ps: ParseState, lines: seq<string>, line: string)
    ensures var before := Fold(step, ps, lines);
            var e := step(before.state, line);
            Fold(step, ps, lines + [line]) ==
              Split(before.statements + Opt(e.statement), before.echoes + Opt(e.echo), e.state)
  {
    assert (lines + [line])[..|lines|] == lines;
  }

  /**
   * Reading a script in two pieces: the second piece is read from the state
   * the first one left (its buffer and its delimiter), so a directive governs
   * only the lines after it.
   */
  lemma {:induction false} FoldAppend(step: LineStep, ps: ParseState, a: seq<string>, b: seq<string>)
    ensures var first := Fold(step, ps, a);
            var second := Fold(step, first.state, b);
            Fold(step, ps, a + b) ==
              Split(first.statements + second.statements, first.echoes + second.echoes, second.state)
  {
    if b == [] {
      assert a + b == a;
    } else {
      var init, last := b[..|b| - 1], b[|b| - 1];
      assert (a + b)[..|a + b| - 1] == a + init;
      assert (a + b)[|a + b| - 1] == last;
      FoldAppend(step, ps, a, init);
    }
  }

  /** Every dispatched statement ends with the line separator. */
  lemma {:induction false} StatementsEndWithSeparator(ps: ParseState, lines: seq<string>, fullLine: bool, sep: string)
    ensures forall s :: s in Fold(LineHandler(fullLine, sep), ps, lines).statements ==>
              |s| >= |sep| && s[|s| - |sep|..] == sep
  {
    if lines != [] {
      var init := lines[..|lines| - 1];
      StatementsEndWithSeparator(ps, init, fullLine, sep);
      var before := Fold(LineHandler(fullLine, sep), ps, init);
      StepStatementEndsWithSeparator(before.state, lines[|lines| - 1], fullLine, sep);
    }
  }

  lemma StepStatementEndsWithSeparator(ps: ParseState, line: string, fullLine: bool, sep: string)
    ensures match Step(ps, line, fullLine, sep).statement
      case Some(s) => |s| >= |sep| && s[|s| - |sep|..] == sep
      case None => true
  {
  }

  /**
   * A worked script: a comment, a statement ended by `;`, a directive that
   * switches to `$$`, and a statement ended by `$$`.
   */
  lemma DirectiveExample()
    ensures SplitScript(["-- comment", "SELECT 1;", "-- @DELIMITER $$", "SELECT 2$$"], ";", false, "\n")
         == Split(["SELECT 1\n", "SELECT 2\n"],
                  ["-- comment", "SELECT 1\n", "-- @DELIMITER $$", "SELECT 2\n"],
                  ParseState("", "$$"))
  {
    ExampleThreeLines();
    ExampleSecondStatement();
    FoldSnoc(LineHandler(false, "\n"), ParseState("", ";"), ["-- comment", "SELECT 1;", "-- @DELIMITER $$"], "SELECT 2$$");
    SnocFour("-- comment", "SELECT 1;", "-- @DELIMITER $$", "SELECT 2$$");
  }

  lemma ExampleThreeLines()
    ensures Fold(LineHandler(false, "\n"), ParseState("", ";"), ["-- comment", "SELECT 1;", "-- @DELIMITER $$"])
         == Split(["SELECT 1\n"], ["-- comment", "SELECT 1\n", "-- @DELIMITER $$"], ParseState("", "$$"))
  {
    ExampleTwoLines();
    ExampleDirective();
    FoldSnoc(LineHandler(false, "\n"), ParseState("", ";"), ["-- comment", "SELECT 1;"], "-- @DELIMITER $$");
    SnocThree("-- comment", "SELECT 1;", "-- @DELIMITER $$");
  }

  lemma ExampleTwoLines()
    ensures Fold(LineHandler(false, "\n"), ParseState("", ";"), ["-- comment", "SELECT 1;"])
         == Split(["SELECT 1\n"], ["-- comment", "SELECT 1\n"], ParseState("", ";"))
  {
    ExampleOneLine();
    ExampleFirstStatement();
    FoldSnoc(LineHandler(false, "\n"), ParseState("", ";"), ["-- comment"], "SELECT 1;");
    SnocTwo("-- comment", "SELECT 1;");
  }

  lemma ExampleOneLine()
    ensures Fold(LineHandler(false, "\n"), ParseState("", ";"), ["-- comment"])
         == Split([], ["-- comment"], ParseState("", ";"))
  {
    ExampleComment();
    FoldSnoc(LineHandler(false, "\n"), ParseState("", ";"), [], "-- comment");
    assert [] + ["-- comment"] == ["-- comment"];
  }

  lemma ExampleComment()
    ensures Step(ParseState("", ";"), "-- comment", false, "\n")
         == Effect(ParseState("", ";"), None, Some("-- comment"))
  {
    var l := "-- comment";
    TrimUnpadded(l);
    assert IsComment(l) by { assert l[..2] == "--"; }
    assert MatchDirective(l) == None by {
      assert SkipSpace(l, 0) == 0 && DoubledAt(l, 0, '-');
      assert AfterFirstMarker(l) == 2;
      assert SkipSpace(l, 2) == 3 by { assert SkipSpace(l, 3) == 3; }
      assert !DoubledAt(l, 3, '/');
      assert KeywordStart(l) == 3;
      assert !KeywordAt(l, 3) by { assert l[3] == 'c'; }
    }
  }

  lemma ExampleFirstStatement()
    ensures Step(ParseState("", ";"), "SELECT 1;", false, "\n")
         == Effect(ParseState("", ";"), Some("SELECT 1\n"), Some("SELECT 1\n"))
  {
    var l := "SELECT 1;";
    TrimUnpadded(l);
    assert !IsComment(l) by { assert l[..2] == "SE"; }
    assert OccursAt(l, ";", 8);
    assert LastIndexOf(l, ";") == 8;
    assert ReadyToExecute(l, ";", false);
    assert CompletedStatement(ParseState("", ";"), l, "\n") == "SELECT 1\n";
  }

  lemma ExampleDirective()
    ensures Step(ParseState("", ";"), "-- @DELIMITER $$", false, "\n")
         == Effect(ParseState("", "$$"), None, Some("-- @DELIMITER $$"))
  {
    var l := "-- @DELIMITER $$";
    TrimUnpadded(l);
    ExampleDirectiveMatch();
    assert IsComment(l) by { assert l[..2] == "--"; }
  }

  lemma ExampleDirectiveMatch()
    ensures MatchDirective("-- @DELIMITER $$") == Some("$$")
  {
    var l := "-- @DELIMITER $$";
    assert SkipSpace(l, 0) == 0 && DoubledAt(l, 0, '-');
    assert AfterFirstMarker(l) == 2;
    assert SkipSpace(l, 2) == 3 by { assert SkipSpace(l, 3) == 3; }
    assert !DoubledAt(l, 3, '/');
    assert KeywordStart(l) == 3;
    assert KeywordAt(l, 3);
    assert SkipSpace(l, 13) == 14 by { assert SkipSpace(l, 14) == 14; }
    assert SkipToken(l, 14) == 16 by { assert SkipToken(l, 16) == 16; assert SkipToken(l, 15) == 16; }
    assert l[14..16] == "$$";
  }

  lemma ExampleSecondStatement()
    ensures Step(ParseState("", "$$"), "SELECT 2$$", false, "\n")
         == Effect(ParseState("", "$$"), Some("SELECT 2\n"), Some("SELECT 2\n"))
  {
    var l := "SELECT 2$$";
    TrimUnpadded(l);
    assert !IsComment(l) by { assert l[..2] == "SE"; }
    assert OccursAt(l, "$$", 8);
    assert LastIndexOf(l, "$$") == 8;
    assert ReadyToExecute(l, "$$", false);
    assert CompletedStatement(ParseState("", "$$"), l, "\n") == "SELECT 2\n";
  }

  /** List literals extended by one element; kept as lemmas so the example's proof stays small. */
  lemma SnocTwo<T>(a: T, b: T)
    ensures [a] + [b] == [a, b]
  {
  }

  lemma SnocThree<T>(a: T, b: T, c: T)
    ensures [a, b] + [c] == [a, b, c]
  {
  }

  lemma SnocFour<T>(a: T, b: T, c: T, d: T)
    ensures [a, b, c] + [d] == [a, b, c, d]
  {
  }
}
