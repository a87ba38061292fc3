/**
 * The error policy of `executeStatement` carried through a whole
 * line-by-line run. Without stop-on-error, every statement that throws is
 * reported, in order, and the run goes on. With it, the first statement that
 * fails (it throws, or warns while warnings are escalated) ends the run:
 * it is the last statement executed, it names the thrown failure, and no
 * commit follows.
 */
module ErrorPolicy {
  import opened Options
  import opened JavaText
  import opened ScriptParser
  import opened Jdbc
  import opened RunnerSpec
  import opened RunnerProperties

  /**
   * The reports a run without stop-on-error owes, read front to back: one for
   * each statement whose execution throws once the statements before it
   * have run.
   */
  function ThrowsInOrder(driver: Driver, removeCRs: bool, prior: seq<string>, commands: seq<string>): seq<Failure>
    decreases commands
  {
    if commands == [] then []
    else
      var sql := SqlText(removeCRs, commands[0]);
      (if driver(prior, sql).Threw? then [ErrorExecuting(commands[0], SqlError)] else [])
        + ThrowsInOrder(driver, removeCRs, prior + [sql], commands[1..])
  }

  lemma {:induction false} ThrowsInOrderSnoc(driver: Driver, removeCRs: bool, prior: seq<string>,
                                             commands: seq<string>, c: string)
    ensures ThrowsInOrder(driver, removeCRs, prior, commands + [c]) ==
            ThrowsInOrder(driver, removeCRs, prior, commands) +
            (if driver(prior + SqlTexts(removeCRs, commands), SqlText(removeCRs, c)).Threw?
             then [ErrorExecuting(c, SqlError)] else [])
    decreases commands
  {
    if commands == [] {
      assert commands + [c] == [c];
      assert prior + SqlTexts(removeCRs, commands) == prior;
    } else {
      var sql, rest := SqlText(removeCRs, commands[0]), commands[1..];
      var p1 := prior + [sql];
      var head := if driver(prior, sql).Threw? then [ErrorExecuting(commands[0], SqlError)] else [];
      var last := if driver(prior + SqlTexts(removeCRs, commands), SqlText(removeCRs, c)).Threw?
                  then [ErrorExecuting(c, SqlError)] else [];
      SqlTextsCons(removeCRs, commands);
      assert p1 + SqlTexts(removeCRs, rest) == prior + SqlTexts(removeCRs, commands);
      ThrowsInOrderSnoc(driver, removeCRs, p1, rest, c);
      assert ThrowsInOrder(driver, removeCRs, prior, commands + [c]) ==
             head + ThrowsInOrder(driver, removeCRs, p1, rest + [c]) by {
        assert (commands + [c])[0] == commands[0];
        assert (commands + [c])[1..] == rest + [c];
      }
      assert ThrowsInOrder(driver, removeCRs, prior, commands) == head + ThrowsInOrder(driver, removeCRs, p1, rest);
    }
  }

  lemma SqlTextsCons(removeCRs: bool, commands: seq<string>)
    requires commands != []
    ensures SqlTexts(removeCRs, commands) == [SqlText(removeCRs, commands[0])] + SqlTexts(removeCRs, commands[1..])
  {
    assert [commands[0]] + commands[1..] == commands;
    SqlTextsAppend(removeCRs, [commands[0]], commands[1..]);
    assert SqlTexts(removeCRs, [commands[0]]) == [SqlText(removeCRs, commands[0])];
  }

  /**
   * Without stop-on-error the error writer receives a report for exactly the
   * statements that threw, in the order they ran, and nothing else.
   */
  lemma {:induction false} NonStopReportsEveryThrow(cfg: Settings, driver: Driver, prior: seq<string>, commands: seq<string>)
    requires !cfg.stopOnError
    ensures FailureReports(cfg, driver, prior, commands) == ThrowsInOrder(driver, cfg.removeCRs, prior, commands)
  {
    if commands != [] {
      var init, c := commands[..|commands| - 1], commands[|commands| - 1];
      assert commands == init + [c];
      NonStopReportsEveryThrow(cfg, driver, prior, init);
      ThrowsInOrderSnoc(driver, cfg.removeCRs, prior, init, c);
    }
  }

  /**
   * Line by line without stop-on-error: the error writer holds one report per
   * statement of the script that threw, in order, then the failure the run
   * throws at its end, if any.
   */
  lemma LineByLineReportsEveryThrow(cfg: Settings, driver: Driver, prior: seq<string>, delimiter: string,
                                    lines: seq<string>, autoCommit: bool, f: Faults)
    requires !cfg.stopOnError
    ensures var s := SplitScript(lines, delimiter, cfg.fullLineDelimiter, cfg.lineSeparator);
            var r := LineByLine(cfg, driver, prior, delimiter, lines, autoCommit, f);
            r.errors == ThrowsInOrder(driver, cfg.removeCRs, prior, s.statements) + Thrown(r.outcome)
  {
    var s := SplitScript(lines, delimiter, cfg.fullLineDelimiter, cfg.lineSeparator);
    LineByLineRunsEveryStatement(cfg, driver, prior, delimiter, lines, autoCommit, f);
    NonStopReportsEveryThrow(cfg, driver, prior, s.statements);
  }

  /** What executing statement `k` of `commands` yields, once the statements before it have run. */
  function VerdictAt(cfg: Settings, driver: Driver, prior: seq<string>, commands: seq<string>, k: int): Verdict
    requires 0 <= k < |commands|
  {
    Judge(cfg, driver(prior + SqlTexts(cfg.removeCRs, commands[..k]), SqlText(cfg.removeCRs, commands[k])))
  }

  /** Statement `k` fails, in the sense that aborts a run. */
  predicate FailsAt(cfg: Settings, driver: Driver, prior: seq<string>, commands: seq<string>, k: int)
    requires 0 <= k < |commands|
  {
    VerdictAt(cfg, driver, prior, commands, k).abort.Some?
  }

  /** None of the first `n` statements fails. */
  predicate NoneFailBefore(cfg: Settings, driver: Driver, prior: seq<string>, commands: seq<string>, n: int)
    requires 0 <= n <= |commands|
  {
    forall j :: 0 <= j < n ==> !FailsAt(cfg, driver, prior, commands, j)
  }

  /** A statement's verdict depends only on it and the statements before it. */
  lemma VerdictAtPrefix(cfg: Settings, driver: Driver, prior: seq<string>, a: seq<string>, b: seq<string>, j: int)
    requires a <= b && 0 <= j < |a|
    ensures VerdictAt(cfg, driver, prior, a, j) == VerdictAt(cfg, driver, prior, b, j)
  {
    assert a[..j] == b[..j];
    assert a[j] == b[j];
  }

  lemma NoneFailInPrefix(cfg: Settings, driver: Driver, prior: seq<string>, a: seq<string>, b: seq<string>, n: int)
    requires a <= b && 0 <= n <= |a| && NoneFailBefore(cfg, driver, prior, b, n)
    ensures NoneFailBefore(cfg, driver, prior, a, n)
  {
    forall j | 0 <= j < n ensures !FailsAt(cfg, driver, prior, a, j) {
      assert !FailsAt(cfg, driver, prior, b, j);
      VerdictAtPrefix(cfg, driver, prior, a, b, j);
    }
  }

  /** When no statement of the split fails, the loop is never aborted. */
  lemma {:induction false} DriveRunsClean(step: LineStep, cfg: Settings, driver: Driver, prior: seq<string>,
                                          delimiter: string, lines: seq<string>)
    requires var s := Fold(step, ParseState("", delimiter), lines);
             NoneFailBefore(cfg, driver, prior, s.statements, |s.statements|)
    ensures Drive(step, cfg, driver, prior, Start(delimiter), lines).abort.None?
  {
    if lines != [] {
      var t0 := Start(delimiter);
      var init, line := lines[..|lines| - 1], lines[|lines| - 1];
      assert lines == init + [line];
      FoldSnoc(step, t0.parse, init, line);
      DriveSnoc(step, cfg, driver, prior, t0, init, line);
      var before, s := Fold(step, t0.parse, init), Fold(step, t0.parse, lines);
      var e := step(before.state, line);
      NoneFailInPrefix(cfg, driver, prior, before.statements, s.statements, |before.statements|);
      DriveRunsClean(step, cfg, driver, prior, delimiter, init);
      DriveFollowsSplit(step, cfg, driver, prior, t0, init);
      var t := Drive(step, cfg, driver, prior, t0, init);
      assert prior + t0.sent == prior;
      assert t.parse == before.state;
      if e.statement.Some? {
        var k := |before.statements|;
        assert s.statements == before.statements + [e.statement.value];
        assert s.statements[..k] == before.statements;
        assert !FailsAt(cfg, driver, prior, s.statements, k);
        assert t.sent == SqlTexts(cfg.removeCRs, before.statements);
      }
    }
  }

  /**
   * When statement `k` of the split is the first to fail, the loop is
   * aborted by it: it names the failure, the statements up to and including
   * it are exactly what was sent, and the errors written are the reports of
   * the statements before it.
   */
  lemma {:induction false} DriveStopsAtFirstFailure(step: LineStep, cfg: Settings, driver: Driver, prior: seq<string>,
                                                    delimiter: string, lines: seq<string>, k: int)
    requires var s := Fold(step, ParseState("", delimiter), lines);
             && 0 <= k < |s.statements|
             && NoneFailBefore(cfg, driver, prior, s.statements, k)
             && FailsAt(cfg, driver, prior, s.statements, k)
    ensures var s := Fold(step, ParseState("", delimiter), lines);
            var t := Drive(step, cfg, driver, prior, Start(delimiter), lines);
            && t.abort == Some(ErrorExecuting(s.statements[k], VerdictAt(cfg, driver, prior, s.statements, k).abort.value))
            && t.sent == SqlTexts(cfg.removeCRs, s.statements[..k + 1])
            && t.errors == FailureReports(cfg, driver, prior, s.statements[..k])
  {
    var t0 := Start(delimiter);
    var init, line := lines[..|lines| - 1], lines[|lines| - 1];
    assert lines == init + [line];
    FoldSnoc(step, t0.parse, init, line);
    DriveSnoc(step, cfg, driver, prior, t0, init, line);
    var before, s := Fold(step, t0.parse, init), Fold(step, t0.parse, lines);
    if k < |before.statements| {
      NoneFailInPrefix(cfg, driver, prior, before.statements, s.statements, k);
      VerdictAtPrefix(cfg, driver, prior, before.statements, s.statements, k);
      DriveStopsAtFirstFailure(step, cfg, driver, prior, delimiter, init, k);
      assert before.statements[..k + 1] == s.statements[..k + 1];
      assert before.statements[..k] == s.statements[..k];
    } else {
      StopsAtNewStatement(step, cfg, driver, prior, delimiter, init, line, k);
    }
  }

  /** The case of `DriveStopsAtFirstFailure` where the failing statement is completed by the last line. */
  lemma StopsAtNewStatement(step: LineStep, cfg: Settings, driver: Driver, prior: seq<string>,
                            delimiter: string, init: seq<string>, line: string, k: int)
    requires var before := Fold(step, ParseState("", delimiter), init);
             var s := Fold(step, ParseState("", delimiter), init + [line]);
             && k == |before.statements| < |s.statements|
             && NoneFailBefore(cfg, driver, prior, s.statements, k)
             && FailsAt(cfg, driver, prior, s.statements, k)
    ensures var s := Fold(step, ParseState("", delimiter), init + [line]);
            var t := Drive(step, cfg, driver, prior, Start(delimiter), init + [line]);
            && t.abort == Some(ErrorExecuting(s.statements[k], VerdictAt(cfg, driver, prior, s.statements, k).abort.value))
            && t.sent == SqlTexts(cfg.removeCRs, s.statements[..k + 1])
            && t.errors == FailureReports(cfg, driver, prior, s.statements[..k])
  {
    var t0 := Start(delimiter);
    FoldSnoc(step, t0.parse, init, line);
    DriveSnoc(step, cfg, driver, prior, t0, init, line);
    var before, s := Fold(step, t0.parse, init), Fold(step, t0.parse, init + [line]);
    var e := step(before.state, line);
    var c := e.statement.value;
    assert s.statements == before.statements + [c];
    assert s.statements[..k] == before.statements && s.statements[k] == c;
    assert s.statements[..k + 1] == s.statements;
    NoneFailInPrefix(cfg, driver, prior, before.statements, s.statements, k);
    DriveRunsClean(step, cfg, driver, prior, delimiter, init);
    DriveFollowsSplit(step, cfg, driver, prior, t0, init);
    var t := Drive(step, cfg, driver, prior, t0, init);
    assert prior + t0.sent == prior;
    assert t.parse == before.state;
    assert t.sent == SqlTexts(cfg.removeCRs, before.statements);
    assert t.errors == FailureReports(cfg, driver, prior, before.statements);
    SqlTextsSnoc(cfg.removeCRs, before.statements, c);
  }

  /**
   * Line by line with stop-on-error, when statement `k` of the script is the
   * first to fail: the run throws the failure of that statement, with the
   * cause the driver gave; exactly the statements up to it were executed,
   * and no commit was sent; the error writer receives only the thrown
   * failure.
   */
  lemma LineByLineStopsAtFirstFailure(cfg: Settings, driver: Driver, prior: seq<string>, delimiter: string,
                                      lines: seq<string>, autoCommit: bool, f: Faults, k: int)
    requires cfg.stopOnError
    requires var s := SplitScript(lines, delimiter, cfg.fullLineDelimiter, cfg.lineSeparator);
             && 0 <= k < |s.statements|
             && NoneFailBefore(cfg, driver, prior, s.statements, k)
             && FailsAt(cfg, driver, prior, s.statements, k)
    ensures var s := SplitScript(lines, delimiter, cfg.fullLineDelimiter, cfg.lineSeparator);
            var r := LineByLine(cfg, driver, prior, delimiter, lines, autoCommit, f);
            && r.outcome == Raised(ErrorExecuting(s.statements[k], VerdictAt(cfg, driver, prior, s.statements, k).abort.value))
            && Executed(r.requests) == SqlTexts(cfg.removeCRs, s.statements[..k + 1])
            && Commit !in r.requests
            && r.errors == [r.outcome.failure]
  {
    var step := LineHandler(cfg.fullLineDelimiter, cfg.lineSeparator);
    var s := Fold(step, ParseState("", delimiter), lines);
    DriveStopsAtFirstFailure(step, cfg, driver, prior, delimiter, lines, k);
    var t := Drive(step, cfg, driver, prior, Start(delimiter), lines);
    StopModeReportsNothing(cfg, driver, prior, s.statements[..k]);
    var r := Finish(t, autoCommit, f);
    assert r.requests == Executions(t.sent);
    ExecutedExecutions(t.sent);
    assert Commit !in r.requests by {
      forall i | 0 <= i < |r.requests| ensures r.requests[i] != Commit {
        assert r.requests[i] == Execute(t.sent[i]);
      }
    }
  }

  /**
   * Line by line with stop-on-error, when no statement of the script fails:
   * every statement is executed in order, and the run then ends as the
   * commit and the script check decide, with only a thrown failure written
   * to the error writer.
   */
  lemma LineByLineWithoutFailure(cfg: Settings, driver: Driver, prior: seq<string>, delimiter: string,
                                 lines: seq<string>, autoCommit: bool, f: Faults)
    requires cfg.stopOnError
    requires var s := SplitScript(lines, delimiter, cfg.fullLineDelimiter, cfg.lineSeparator);
             NoneFailBefore(cfg, driver, prior, s.statements, |s.statements|)
    ensures var s := SplitScript(lines, delimiter, cfg.fullLineDelimiter, cfg.lineSeparator);
            var r := LineByLine(cfg, driver, prior, delimiter, lines, autoCommit, f);
            && Executed(r.requests) == SqlTexts(cfg.removeCRs, s.statements)
            && r.log == s.echoes
            && r.delimiter == s.state.delimiter
            && r.errors == Thrown(r.outcome)
            && (r.outcome == Completed <==> CommitSucceeds(autoCommit, f) && Trim(s.state.buffer) == "")
  {
    var step := LineHandler(cfg.fullLineDelimiter, cfg.lineSeparator);
    var t0 := Start(delimiter);
    DriveRunsClean(step, cfg, driver, prior, delimiter, lines);
    DriveFollowsSplit(step, cfg, driver, prior, t0, lines);
    var t := Drive(step, cfg, driver, prior, t0, lines);
    var s := Fold(step, t0.parse, lines);
    assert prior + t0.sent == prior;
    StopModeReportsNothing(cfg, driver, prior, s.statements);
    assert t.sent == SqlTexts(cfg.removeCRs, s.statements) && t.log == s.echoes && t.errors == [];
    FinishedUnaborted(cfg.removeCRs, t, s, autoCommit, f);
  }

  /** The end of a line-by-line run whose loop did what the split `s` says and reported nothing. */
  lemma FinishedUnaborted(removeCRs: bool, t: Trace, s: Split, autoCommit: bool, f: Faults)
    requires t.abort.None? && t.sent == SqlTexts(removeCRs, s.statements) && t.log == s.echoes
    requires t.parse == s.state && t.errors == []
    ensures var r := Finish(t, autoCommit, f);
            && Executed(r.requests) == SqlTexts(removeCRs, s.statements)
            && r.log == s.echoes
            && r.delimiter == s.state.delimiter
            && r.errors == Thrown(r.outcome)
            && (r.outcome == Completed <==> CommitSucceeds(autoCommit, f) && Trim(s.state.buffer) == "")
  {
    var r := Finish(t, autoCommit, f);
    assert r.log == t.log && r.delimiter == t.parse.delimiter;
    UnabortedOutcome(t, autoCommit, f);
    assert r.requests == Executions(t.sent) + CommitCalls(autoCommit, f);
    ExecutedAppend(Executions(t.sent), CommitCalls(autoCommit, f));
    ExecutedExecutions(t.sent);
    CommitCallsExecuteNothing(autoCommit, f);
  }

  lemma UnabortedOutcome(t: Trace, autoCommit: bool, f: Faults)
    requires t.abort.None? && t.errors == []
    ensures var r := Finish(t, autoCommit, f);
            && r.errors == Thrown(r.outcome)
            && (r.outcome == Completed <==> CommitSucceeds(autoCommit, f) && Trim(t.parse.buffer) == "")
  {
    var r := Finish(t, autoCommit, f);
    assert r.outcome == LineByLineOutcome(t, autoCommit, f);
    assert r.errors == [] + Thrown(r.outcome);
  }
}
