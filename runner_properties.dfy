/**
 * Properties of a run: the line-by-line loop carries out exactly the
 * statements the parser splits the script into, and stops right after the
 * first one that aborts; the transaction is closed as the runner promises.
 */
module RunnerProperties {
  import opened Options
  import opened JavaText
  import opened ScriptParser
  import opened Jdbc
  import opened RunnerSpec

  /** The loop unfolded once. */
  lemma DriveSnoc(step: LineStep, cfg: Settings, driver: Driver, prior: seq<string>, t0: Trace,
                  lines: seq<string>, line: string)
    ensures var t := Drive(step, cfg, driver, prior, t0, lines);
            Drive(step, cfg, driver, prior, t0, lines + [line]) ==
              if t.abort.Some? then t else Feed(cfg, driver, prior, t, step(t.parse, line))
  {
    assert (lines + [line])[..|lines|] == lines;
  }

  lemma SqlTextsSnoc(removeCRs: bool, commands: seq<string>, c: string)
    ensures SqlTexts(removeCRs, commands + [c]) == SqlTexts(removeCRs, commands) + [SqlText(removeCRs, c)]
  {
    assert (commands + [c])[..|commands|] == commands;
  }

  lemma FailureReportsSnoc(cfg: Settings, driver: Driver, prior: seq<string>, commands: seq<string>, c: string)
    ensures FailureReports(cfg, driver, prior, commands + [c]) ==
            FailureReports(cfg, driver, prior, commands) +
            Report(Judge(cfg, driver(prior + SqlTexts(cfg.removeCRs, commands), SqlText(cfg.removeCRs, c))), c)
  {
    assert (commands + [c])[..|commands|] == commands;
  }

  /**
   * The trace `t` has done what the split `s` of the same lines says: same
   * parse state, the same statements sent in order, the same echoes, and one
   * error report per failed statement.
   */
  ghost predicate Follows(cfg: Settings, driver: Driver, prior: seq<string>, t0: Trace, t: Trace, s: Split)
  {
    && t.parse == s.state
    && t.sent == t0.sent + SqlTexts(cfg.removeCRs, s.statements)
    && t.log == t0.log + s.echoes
    && t.errors == t0.errors + FailureReports(cfg, driver, prior + t0.sent, s.statements)
  }

  /** One line carried out without abort keeps the trace in step with the split. */
  lemma FeedFollows(cfg: Settings, driver: Driver, prior: seq<string>, t0: Trace, t: Trace, s: Split, e: Effect)
    requires Follows(cfg, driver, prior, t0, t, s)
    requires Feed(cfg, driver, prior, t, e).abort.None?
    ensures Follows(cfg, driver, prior, t0, Feed(cfg, driver, prior, t, e),
                    Split(s.statements + Opt(e.statement), s.echoes + Opt(e.echo), e.state))
  {
    if e.statement.Some? {
      var c := e.statement.value;
      SqlTextsSnoc(cfg.removeCRs, s.statements, c);
      FailureReportsSnoc(cfg, driver, prior + t0.sent, s.statements, c);
      assert Opt(e.statement) == [c];
      assert prior + t.sent == prior + t0.sent + SqlTexts(cfg.removeCRs, s.statements);
      var u := Feed(cfg, driver, prior, t, e);
      var sql := SqlText(cfg.removeCRs, c);
      var v := Judge(cfg, driver(prior + t.sent, sql));
      assert u.sent == t.sent + [sql];
      assert u.errors == t.errors + Report(v, c);
    } else {
      assert Opt(e.statement) == [];
      assert s.statements + Opt(e.statement) == s.statements;
    }
  }

  /** As long as nothing aborted, the loop has done what the split of the lines read so far says. */
  lemma {:induction false} DriveFollowsSplit(step: LineStep, cfg: Settings, driver: Driver,
                                             prior: seq<string>, t0: Trace, lines: seq<string>)
    requires t0.abort.None?
    ensures Drive(step, cfg, driver, prior, t0, lines).abort.None? ==>
              Follows(cfg, driver, prior, t0, Drive(step, cfg, driver, prior, t0, lines), Fold(step, t0.parse, lines))
  {
    if lines != [] {
      var init, line := lines[..|lines| - 1], lines[|lines| - 1];
      assert lines == init + [line];
      DriveFollowsSplit(step, cfg, driver, prior, t0, init);
      DriveSnoc(step, cfg, driver, prior, t0, init, line);
      FoldSnoc(step, t0.parse, init, line);
      var t := Drive(step, cfg, driver, prior, t0, init);
      if t.abort.None? && Drive(step, cfg, driver, prior, t0, lines).abort.None? {
        var s := Fold(step, t0.parse, init);
        FeedFollows(cfg, driver, prior, t0, t, s, step(s.state, line));
      }
    }
  }

  /** Without stop-on-error nothing a statement does can abort the loop. */
  lemma {:induction false} NonStopNeverAborts(step: LineStep, cfg: Settings, driver: Driver,
                                              prior: seq<string>, t0: Trace, lines: seq<string>)
    requires t0.abort.None? && !cfg.stopOnError
    ensures Drive(step, cfg, driver, prior, t0, lines).abort.None?
  {
    if lines != [] {
      var init := lines[..|lines| - 1];
      NonStopNeverAborts(step, cfg, driver, prior, t0, init);
    }
  }

  /** The loop was stopped by line `n`: nothing before it aborted, and line `n` did. */
  ghost predicate StoppedBy(step: LineStep, cfg: Settings, driver: Driver, prior: seq<string>,
                            t0: Trace, lines: seq<string>, n: int)
    requires 0 <= n < |lines|
  {
    var before := Drive(step, cfg, driver, prior, t0, lines[..n]);
    && before.abort.None?
    && Drive(step, cfg, driver, prior, t0, lines) == Feed(cfg, driver, prior, before, step(before.parse, lines[n]))
  }

  lemma {:induction false} StoppedSomewhere(step: LineStep, cfg: Settings, driver: Driver,
                                            prior: seq<string>, t0: Trace, lines: seq<string>)
    requires t0.abort.None?
    ensures Drive(step, cfg, driver, prior, t0, lines).abort.Some? ==>
              exists n :: 0 <= n < |lines| && StoppedBy(step, cfg, driver, prior, t0, lines, n)
  {
    if lines != [] && Drive(step, cfg, driver, prior, t0, lines).abort.Some? {
      var init, line := lines[..|lines| - 1], lines[|lines| - 1];
      assert lines == init + [line];
      DriveSnoc(step, cfg, driver, prior, t0, init, line);
      if Drive(step, cfg, driver, prior, t0, init).abort.Some? {
        StoppedSomewhere(step, cfg, driver, prior, t0, init);
        var n :| 0 <= n < |init| && StoppedBy(step, cfg, driver, prior, t0, init, n);
        assert init[..n] == lines[..n];
        assert StoppedBy(step, cfg, driver, prior, t0, lines, n);
      } else {
        assert lines[..|init|] == init;
        assert StoppedBy(step, cfg, driver, prior, t0, lines, |init|);
      }
    }
  }

  /** The line that aborts completed a statement; it is sent, and becomes the buffer and the failure's command. */
  lemma FeedAborts(cfg: Settings, driver: Driver, prior: seq<string>, t0: Trace, t: Trace, s: Split, e: Effect)
    requires Follows(cfg, driver, prior, t0, t, s)
    requires t.abort.None? && Feed(cfg, driver, prior, t, e).abort.Some?
    ensures cfg.stopOnError && e.statement.Some?
    ensures var u := Feed(cfg, driver, prior, t, e);
            var c := e.statement.value;
            && u.abort.value.ErrorExecuting?
            && u.abort.value.command == c
            && u.parse == ParseState(c, e.state.delimiter)
            && u.sent == t0.sent + SqlTexts(cfg.removeCRs, s.statements + [c])
            && u.log == t0.log + (s.echoes + Opt(e.echo))
            && u.errors == t0.errors + FailureReports(cfg, driver, prior + t0.sent, s.statements)
  {
    var c := e.statement.value;
    SqlTextsSnoc(cfg.removeCRs, s.statements, c);
  }

  /**
   * The loop aborted at line `n`: the statement completed by that line is the
   * last one sent, it stays in the buffer and names the failure, nothing
   * after it was sent, and every statement before it ran without an error
   * report (stop-on-error reports nothing, it throws).
   */
  ghost predicate AbortedAt(step: LineStep, cfg: Settings, driver: Driver, prior: seq<string>,
                            t0: Trace, lines: seq<string>, n: int)
    requires 0 <= n < |lines|
  {
    var t := Drive(step, cfg, driver, prior, t0, lines);
    var s := Fold(step, t0.parse, lines[..n + 1]);
    && Drive(step, cfg, driver, prior, t0, lines[..n]).abort.None?
    && |s.statements| > 0
    && t.abort.Some?
    && t.abort.value.ErrorExecuting?
    && t.abort.value.command == s.statements[|s.statements| - 1]
    && t.parse == ParseState(t.abort.value.command, s.state.delimiter)
    && t.sent == t0.sent + SqlTexts(cfg.removeCRs, s.statements)
    && t.log == t0.log + s.echoes
    && t.errors == t0.errors + FailureReports(cfg, driver, prior + t0.sent, s.statements[..|s.statements| - 1])
  }

  /** Stop-on-error: a loop that aborts does so only under stop-on-error, at some line as `AbortedAt` says. */
  lemma AbortStopsTheLoop(step: LineStep, cfg: Settings, driver: Driver,
                          prior: seq<string>, t0: Trace, lines: seq<string>)
    requires t0.abort.None?
    ensures Drive(step, cfg, driver, prior, t0, lines).abort.Some? ==>
              cfg.stopOnError && exists n :: 0 <= n < |lines| && AbortedAt(step, cfg, driver, prior, t0, lines, n)
  {
    if Drive(step, cfg, driver, prior, t0, lines).abort.Some? {
      StoppedSomewhere(step, cfg, driver, prior, t0, lines);
      var n :| 0 <= n < |lines| && StoppedBy(step, cfg, driver, prior, t0, lines, n);
      var before := lines[..n];
      assert lines[..n + 1] == before + [lines[n]];
      DriveFollowsSplit(step, cfg, driver, prior, t0, before);
      FoldSnoc(step, t0.parse, before, lines[n]);
      var t := Drive(step, cfg, driver, prior, t0, before);
      var s := Fold(step, t0.parse, before);
      var e := step(s.state, lines[n]);
      FeedAborts(cfg, driver, prior, t0, t, s, e);
      assert (s.statements + [e.statement.value])[..|s.statements|] == s.statements;
      assert AbortedAt(step, cfg, driver, prior, t0, lines, n);
    }
  }

  /** One line aborts only when it completes a statement and stop-on-error is set. */
  lemma NonStopOrAbort(cfg: Settings, driver: Driver, prior: seq<string>, t: Trace, e: Effect)
    requires t.abort.None?
    ensures Feed(cfg, driver, prior, t, e).abort.Some? ==>
              cfg.stopOnError && e.statement.Some? &&
              Feed(cfg, driver, prior, t, e).abort.value == ErrorExecuting(e.statement.value,
                Judge(cfg, driver(prior + t.sent, SqlText(cfg.removeCRs, e.statement.value))).abort.value)
  {
  }

  /** The statements split from a prefix of the lines are a prefix of the statements. */
  lemma FoldPrefix(step: LineStep, ps: ParseState, lines: seq<string>, m: nat)
    requires m <= |lines|
    ensures Fold(step, ps, lines[..m]).statements <= Fold(step, ps, lines).statements
  {
    assert lines == lines[..m] + lines[m..];
    FoldAppend(step, ps, lines[..m], lines[m..]);
  }

  lemma SqlTextsPrefix(removeCRs: bool, a: seq<string>, b: seq<string>)
    requires a <= b
    ensures SqlTexts(removeCRs, a) <= SqlTexts(removeCRs, b)
  {
    assert b == a + b[|a|..];
    SqlTextsAppend(removeCRs, a, b[|a|..]);
  }

  lemma LastSqlText(removeCRs: bool, commands: seq<string>)
    requires |commands| > 0
    ensures SqlTexts(removeCRs, commands)[|commands| - 1] == SqlText(removeCRs, commands[|commands| - 1])
  {
  }

  lemma {:induction false} SqlTextsAppend(removeCRs: bool, a: seq<string>, b: seq<string>)
    ensures SqlTexts(removeCRs, a + b) == SqlTexts(removeCRs, a) + SqlTexts(removeCRs, b)
  {
    if b != [] {
      var init, c := b[..|b| - 1], b[|b| - 1];
      assert b == init + [c];
      assert a + b == (a + init) + [c];
      SqlTextsAppend(removeCRs, a, init);
      SqlTextsSnoc(removeCRs, a + init, c);
      SqlTextsSnoc(removeCRs, init, c);
    } else {
      assert a + b == a;
    }
  }

  /** Under stop-on-error nothing is reported without being thrown. */
  lemma {:induction false} StopModeReportsNothing(cfg: Settings, driver: Driver, prior: seq<string>, commands: seq<string>)
    requires cfg.stopOnError
    ensures FailureReports(cfg, driver, prior, commands) == []
  {
    if commands != [] {
      StopModeReportsNothing(cfg, driver, prior, commands[..|commands| - 1]);
    }
  }

  /** The transaction calls that close a strategy never execute SQL. */
  lemma CommitCallsExecuteNothing(autoCommit: bool, f: Faults)
    ensures Executed(CommitCalls(autoCommit, f)) == []
    ensures Executed(RollbackCalls(autoCommit, f)) == []
    ensures Executed(AutoCommitCalls(autoCommit, !autoCommit, f)) == []
    ensures Executed(AutoCommitCalls(autoCommit, autoCommit, f)) == []
  {
  }

  /**
   * Line by line without stop-on-error: every statement the parser splits the
   * script into is executed, in order; the log holds the echoes, the error
   * writer one report per failed statement and then the thrown failure; the
   * delimiter is the one the last directive set; and the run completes
   * exactly when the commit succeeds and nothing is left in the buffer, any
   * failure naming that leftover text.
   */
  lemma LineByLineRunsEveryStatement(cfg: Settings, driver: Driver, prior: seq<string>, delimiter: string,
                                     lines: seq<string>, autoCommit: bool, f: Faults)
    requires !cfg.stopOnError
    ensures var s := SplitScript(lines, delimiter, cfg.fullLineDelimiter, cfg.lineSeparator);
            var r := LineByLine(cfg, driver, prior, delimiter, lines, autoCommit, f);
            && Executed(r.requests) == SqlTexts(cfg.removeCRs, s.statements)
            && r.log == s.echoes
            && r.delimiter == s.state.delimiter
            && r.errors == FailureReports(cfg, driver, prior, s.statements) + Thrown(r.outcome)
            && (r.outcome == Completed <==> CommitSucceeds(autoCommit, f) && Trim(s.state.buffer) == "")
            && (r.outcome.Raised? ==> r.outcome.failure.ErrorExecuting? && r.outcome.failure.command == s.state.buffer)
  {
    RunsEveryStatement(LineHandler(cfg.fullLineDelimiter, cfg.lineSeparator), cfg, driver, prior, delimiter, lines, autoCommit, f);
  }

  lemma RunsEveryStatement(step: LineStep, cfg: Settings, driver: Driver, prior: seq<string>, delimiter: string,
                           lines: seq<string>, autoCommit: bool, f: Faults)
    requires !cfg.stopOnError
    ensures var s := Fold(step, ParseState("", delimiter), lines);
            var r := LineByLineWith(step, cfg, driver, prior, delimiter, lines, autoCommit, f);
            && Executed(r.requests) == SqlTexts(cfg.removeCRs, s.statements)
            && r.log == s.echoes
            && r.delimiter == s.state.delimiter
            && r.errors == FailureReports(cfg, driver, prior, s.statements) + Thrown(r.outcome)
            && (r.outcome == Completed <==> CommitSucceeds(autoCommit, f) && Trim(s.state.buffer) == "")
            && (r.outcome.Raised? ==> r.outcome.failure.ErrorExecuting? && r.outcome.failure.command == s.state.buffer)
  {
    var t0 := Start(delimiter);
    NonStopNeverAborts(step, cfg, driver, prior, t0, lines);
    DriveFollowsSplit(step, cfg, driver, prior, t0, lines);
    var t := Drive(step, cfg, driver, prior, t0, lines);
    var s := Fold(step, t0.parse, lines);
    assert prior + t0.sent == prior;
    assert Follows(cfg, driver, prior, t0, t, s);
    assert t.sent == SqlTexts(cfg.removeCRs, s.statements) && t.log == s.echoes && t.parse == s.state;
    assert t.errors == FailureReports(cfg, driver, prior, s.statements);
    var r := LineByLineWith(step, cfg, driver, prior, delimiter, lines, autoCommit, f);
    assert r.requests == Executions(t.sent) + CommitCalls(autoCommit, f);
    assert r.outcome == LineByLineOutcome(t, autoCommit, f);
    ExecutedAppend(Executions(t.sent), CommitCalls(autoCommit, f));
    ExecutedExecutions(t.sent);
    CommitCallsExecuteNothing(autoCommit, f);
  }

  /**
   * Line by line with stop-on-error: the error writer receives only the
   * failure that is thrown; what was executed is an initial part of the
   * script's statements; and a statement that fails is the last request:
   * there is no commit after it and its text is the failure's command.
   */
  lemma LineByLineStopsAtFailure(cfg: Settings, driver: Driver, prior: seq<string>, delimiter: string,
                                 lines: seq<string>, autoCommit: bool, f: Faults)
    requires cfg.stopOnError
    ensures var s := SplitScript(lines, delimiter, cfg.fullLineDelimiter, cfg.lineSeparator);
            var r := LineByLine(cfg, driver, prior, delimiter, lines, autoCommit, f);
            && r.errors == Thrown(r.outcome)
            && Executed(r.requests) <= SqlTexts(cfg.removeCRs, s.statements)
            && (r.outcome.Raised? && r.outcome.failure.ErrorExecuting? &&
                r.outcome.failure.cause in {SqlError, EscalatedWarning} ==>
                  && Commit !in r.requests
                  && |r.requests| > 0
                  && r.requests[|r.requests| - 1] == Execute(SqlText(cfg.removeCRs, r.outcome.failure.command)))
  {
    var step := LineHandler(cfg.fullLineDelimiter, cfg.lineSeparator);
    assert SplitScript(lines, delimiter, cfg.fullLineDelimiter, cfg.lineSeparator) == Fold(step, ParseState("", delimiter), lines);
    assert LineByLine(cfg, driver, prior, delimiter, lines, autoCommit, f) ==
           LineByLineWith(step, cfg, driver, prior, delimiter, lines, autoCommit, f);
    StopsAtFailure(step, cfg, driver, prior, delimiter, lines, autoCommit, f);
  }

  /** What stop-on-error promises about a strategy's effect `r` on a script split into `statements`. */
  ghost predicate StopsCleanly(removeCRs: bool, statements: seq<string>, r: RunEffect)
  {
    && r.errors == Thrown(r.outcome)
    && Executed(r.requests) <= SqlTexts(removeCRs, statements)
    && (r.outcome.Raised? && r.outcome.failure.ErrorExecuting? &&
        r.outcome.failure.cause in {SqlError, EscalatedWarning} ==>
          && Commit !in r.requests
          && |r.requests| > 0
          && r.requests[|r.requests| - 1] == Execute(SqlText(removeCRs, r.outcome.failure.command)))
  }

  lemma StopsAtFailure(step: LineStep, cfg: Settings, driver: Driver, prior: seq<string>, delimiter: string,
                       lines: seq<string>, autoCommit: bool, f: Faults)
    requires cfg.stopOnError
    ensures StopsCleanly(cfg.removeCRs, Fold(step, ParseState("", delimiter), lines).statements,
                         LineByLineWith(step, cfg, driver, prior, delimiter, lines, autoCommit, f))
  {
    var t0 := Start(delimiter);
    var t := Drive(step, cfg, driver, prior, t0, lines);
    var all := Fold(step, t0.parse, lines);
    assert prior + t0.sent == prior;
    if t.abort.None? {
      DriveFollowsSplit(step, cfg, driver, prior, t0, lines);
      StopModeReportsNothing(cfg, driver, prior, all.statements);
      FinishedCleanly(cfg.removeCRs, t, all.statements, autoCommit, f);
    } else {
      AbortStopsTheLoop(step, cfg, driver, prior, t0, lines);
      var n :| 0 <= n < |lines| && AbortedAt(step, cfg, driver, prior, t0, lines, n);
      StopsAtLine(step, cfg, driver, prior, delimiter, lines, n, autoCommit, f);
    }
  }

  /** The stop-on-error promise when line `n` aborted the loop. */
  lemma StopsAtLine(step: LineStep, cfg: Settings, driver: Driver, prior: seq<string>, delimiter: string,
                    lines: seq<string>, n: int, autoCommit: bool, f: Faults)
    requires cfg.stopOnError && 0 <= n < |lines|
    requires AbortedAt(step, cfg, driver, prior, Start(delimiter), lines, n)
    ensures StopsCleanly(cfg.removeCRs, Fold(step, ParseState("", delimiter), lines).statements,
                         Finish(Drive(step, cfg, driver, prior, Start(delimiter), lines), autoCommit, f))
  {
    var t0 := Start(delimiter);
    var t := Drive(step, cfg, driver, prior, t0, lines);
    var s := Fold(step, t0.parse, lines[..n + 1]);
    var done := s.statements;
    assert prior + t0.sent == prior;
    assert t.sent == [] + SqlTexts(cfg.removeCRs, done);
    StopModeReportsNothing(cfg, driver, prior, done[..|done| - 1]);
    assert t.errors == [] + [];
    FoldPrefix(step, t0.parse, lines, n + 1);
    AbortedCleanly(cfg.removeCRs, t, done, Fold(step, t0.parse, lines).statements, autoCommit, f);
  }

  /** A loop that ran to the end under stop-on-error sent every statement and reported nothing. */
  lemma FinishedCleanly(removeCRs: bool, t: Trace, statements: seq<string>, autoCommit: bool, f: Faults)
    requires t.abort.None? && t.sent == SqlTexts(removeCRs, statements) && t.errors == []
    ensures StopsCleanly(removeCRs, statements, Finish(t, autoCommit, f))
  {
    var r := Finish(t, autoCommit, f);
    assert r.requests == Executions(t.sent) + CommitCalls(autoCommit, f);
    assert r.errors == Thrown(r.outcome);
    assert r.outcome.Raised? ==> r.outcome.failure.cause in {CommitFailed, MissingTerminator(t.parse.delimiter, t.parse.buffer)};
    ExecutedExecutions(t.sent);
    CommitCallsExecuteNothing(autoCommit, f);
    ExecutedAppend(Executions(t.sent), CommitCalls(autoCommit, f));
    assert Executed(r.requests) == t.sent;
  }

  /** A loop aborted by the last of the statements `done`, a prefix of the script's `statements`. */
  lemma AbortedCleanly(removeCRs: bool, t: Trace, done: seq<string>, statements: seq<string>, autoCommit: bool, f: Faults)
    requires t.abort.Some? && t.abort.value.ErrorExecuting? && |done| > 0
    requires t.abort.value.command == done[|done| - 1]
    requires t.sent == SqlTexts(removeCRs, done) && t.errors == [] && done <= statements
    ensures StopsCleanly(removeCRs, statements, Finish(t, autoCommit, f))
  {
    var r := Finish(t, autoCommit, f);
    assert r.requests == Executions(t.sent);
    assert r.outcome == Raised(t.abort.value);
    ExecutedExecutions(t.sent);
    SqlTextsPrefix(removeCRs, done, statements);
    LastSqlText(removeCRs, done);
    assert Commit !in r.requests by {
      forall i | 0 <= i < |r.requests| ensures r.requests[i] != Commit {
        assert r.requests[i] == Execute(t.sent[i]);
      }
    }
  }

  /** The run was ended by a statement: it threw, or warned while warnings are escalated. */
  predicate StatementFailed(o: Outcome) {
    o.Raised? && o.failure.ErrorExecuting? && o.failure.cause in {SqlError, EscalatedWarning}
  }

  /** Only a statement aborts the loop; the commit and the script check come after it. */
  lemma {:induction false} DriveAbortIsStatementFailure(step: LineStep, cfg: Settings, driver: Driver,
                                                        prior: seq<string>, t0: Trace, lines: seq<string>)
    requires t0.abort.None?
    ensures var t := Drive(step, cfg, driver, prior, t0, lines);
            t.abort.Some? ==> StatementFailed(Raised(t.abort.value))
  {
    if lines != [] {
      DriveAbortIsStatementFailure(step, cfg, driver, prior, t0, lines[..|lines| - 1]);
    }
  }

  /**
   * No strategy rolls back; the line-by-line strategy commits exactly when
   * its loop was not aborted, the flag reads manual commit and could be read.
   */
  lemma FinishTransactionCalls(t: Trace, autoCommit: bool, f: Faults)
    ensures Rollback !in Finish(t, autoCommit, f).requests
    ensures Commit in Finish(t, autoCommit, f).requests <==> t.abort.None? && !autoCommit && !f.getAutoCommit
  {
    var r := Finish(t, autoCommit, f);
    var tail := if t.abort.None? then CommitCalls(autoCommit, f) else [];
    assert r.requests == Executions(t.sent) + tail;
    forall i | 0 <= i < |t.sent| ensures Executions(t.sent)[i] != Rollback && Executions(t.sent)[i] != Commit {
    }
  }

  /**
   * A strategy never rolls back, and it commits exactly when the flag reads
   * manual commit and no statement ended it: the commit precedes the script
   * check, so a missing terminator does not prevent it.
   */
  lemma BodyTransactionCalls(cfg: Settings, driver: Driver, prior: seq<string>, delimiter: string,
                             lines: seq<string>, f: Faults)
    ensures var body := RunBody(cfg, driver, prior, delimiter, lines, f);
            && Rollback !in body.requests
            && (Commit in body.requests <==> !cfg.autoCommit && !f.getAutoCommit && !StatementFailed(body.outcome))
  {
    if !cfg.sendFullScript {
      var step := LineHandler(cfg.fullLineDelimiter, cfg.lineSeparator);
      var t := Drive(step, cfg, driver, prior, Start(delimiter), lines);
      FinishTransactionCalls(t, cfg.autoCommit, f);
      DriveAbortIsStatementFailure(step, cfg, driver, prior, Start(delimiter), lines);
      var outcome := LineByLineOutcome(t, cfg.autoCommit, f);
      assert t.abort.None? ==> !StatementFailed(outcome);
    }
  }

  /**
   * `runScript`'s transaction discipline: the flag is read first; commit is
   * issued exactly when the connection was set to manual commit and no
   * statement ended the run; and once the flag is set, such a connection is
   * always rolled back last, however the strategy ended, while an
   * auto-committing one never is.
   */
  lemma RunClosesTheTransaction(cfg: Settings, driver: Driver, prior: seq<string>, delimiter: string,
                                lines: seq<string>, autoCommit: bool, f: Faults)
    ensures var r := Run(cfg, driver, prior, delimiter, lines, autoCommit, f);
            && |r.requests| > 0 && r.requests[0] == GetAutoCommit
            && (Commit in r.requests <==>
                  !cfg.autoCommit && AutoCommitSucceeds(cfg.autoCommit, autoCommit, f) && !StatementFailed(r.outcome))
            && (Rollback in r.requests <==> !cfg.autoCommit && AutoCommitSucceeds(cfg.autoCommit, autoCommit, f))
            && (!cfg.autoCommit && AutoCommitSucceeds(cfg.autoCommit, autoCommit, f) ==>
                  r.requests[|r.requests| - 1] == Rollback)
  {
    BodyTransactionCalls(cfg, driver, prior, delimiter, lines, f);
  }

  /** When the auto-commit flag cannot be read or set, nothing runs and nothing is rolled back. */
  lemma RunWithoutAutoCommit(cfg: Settings, driver: Driver, prior: seq<string>, delimiter: string,
                             lines: seq<string>, autoCommit: bool, f: Faults)
    requires !AutoCommitSucceeds(cfg.autoCommit, autoCommit, f)
    ensures var r := Run(cfg, driver, prior, delimiter, lines, autoCommit, f);
            && Executed(r.requests) == []
            && Commit !in r.requests && Rollback !in r.requests
            && r.outcome == Raised(AutoCommitNotSet(cfg.autoCommit))
            && r.log == [] && r.errors == [] && r.delimiter == delimiter
  {
  }

  /** A failing rollback is swallowed: it changes nothing about the run. */
  lemma RollbackFailureIsSwallowed(cfg: Settings, driver: Driver, prior: seq<string>, delimiter: string,
                                   lines: seq<string>, autoCommit: bool, f: Faults)
    ensures Run(cfg, driver, prior, delimiter, lines, autoCommit, f) ==
            Run(cfg, driver, prior, delimiter, lines, autoCommit, f.(rollback := !f.rollback))
  {
  }

  /**
   * Whole-script mode: the lines, each followed by the separator, are sent as
   * one statement (even when there are none), echoed once, and the delimiter
   * is untouched; the run completes exactly when that statement does not
   * abort and the commit succeeds.
   */
  lemma FullScriptIsOneStatement(cfg: Settings, driver: Driver, prior: seq<string>, delimiter: string,
                                 lines: seq<string>, autoCommit: bool, f: Faults)
    requires cfg.sendFullScript && AutoCommitSucceeds(cfg.autoCommit, autoCommit, f)
    ensures var r := Run(cfg, driver, prior, delimiter, lines, autoCommit, f);
            var script := JoinLines(lines, cfg.lineSeparator);
            && Executed(r.requests) == [SqlText(cfg.removeCRs, script)]
            && r.log == [script]
            && r.delimiter == delimiter
            && (r.outcome == Completed <==>
                  Judge(cfg, driver(prior, SqlText(cfg.removeCRs, script))).abort.None? &&
                  CommitSucceeds(cfg.autoCommit, f))
  {
    RunIsBody(cfg, driver, prior, delimiter, lines, autoCommit, f);
    var script := JoinLines(lines, cfg.lineSeparator);
    var sql := SqlText(cfg.removeCRs, script);
    var tail := if Judge(cfg, driver(prior, sql)).abort.None? then CommitCalls(cfg.autoCommit, f) else [];
    ExecutedAppend([Execute(sql)], tail);
    CommitCallsExecuteNothing(cfg.autoCommit, f);
    assert Executed([Execute(sql)]) == [sql] by {
      assert [Execute(sql)][..0] == [];
    }
  }

  /**
   * Line-by-line mode without stop-on-error, as `runScript` runs it: the
   * connection executes exactly the statements the parser splits the
   * script into, in order.
   */
  lemma RunExecutesEveryStatement(cfg: Settings, driver: Driver, prior: seq<string>, delimiter: string,
                                  lines: seq<string>, autoCommit: bool, f: Faults)
    requires !cfg.sendFullScript && !cfg.stopOnError && AutoCommitSucceeds(cfg.autoCommit, autoCommit, f)
    ensures var r := Run(cfg, driver, prior, delimiter, lines, autoCommit, f);
            var s := SplitScript(lines, delimiter, cfg.fullLineDelimiter, cfg.lineSeparator);
            && Executed(r.requests) == SqlTexts(cfg.removeCRs, s.statements)
            && r.log == s.echoes
            && r.delimiter == s.state.delimiter
  {
    RunIsBody(cfg, driver, prior, delimiter, lines, autoCommit, f);
    LineByLineRunsEveryStatement(cfg, driver, prior, delimiter, lines, cfg.autoCommit, f);
  }

  /**
   * Once the auto-commit flag is set, a run executes the statements and
   * reports exactly what its strategy does: the flag calls and the rollback
   * around it execute nothing.
   */
  lemma RunIsBody(cfg: Settings, driver: Driver, prior: seq<string>, delimiter: string,
                  lines: seq<string>, autoCommit: bool, f: Faults)
    requires AutoCommitSucceeds(cfg.autoCommit, autoCommit, f)
    ensures var r := Run(cfg, driver, prior, delimiter, lines, autoCommit, f);
            var body := RunBody(cfg, driver, prior, delimiter, lines, f);
            && Executed(r.requests) == Executed(body.requests)
            && r.log == body.log && r.errors == body.errors
            && r.delimiter == body.delimiter && r.outcome == body.outcome
  {
    var body := RunBody(cfg, driver, prior, delimiter, lines, f);
    var setup := AutoCommitCalls(cfg.autoCommit, autoCommit, f);
    ExecutedAppend(setup, body.requests);
    ExecutedAppend(setup + body.requests, RollbackCalls(cfg.autoCommit, f));
    CommitCallsExecuteNothing(cfg.autoCommit, f);
    assert Executed(setup) == [] by {
      if autoCommit == cfg.autoCommit { assert setup == AutoCommitCalls(cfg.autoCommit, cfg.autoCommit, f); }
      else { assert setup == AutoCommitCalls(cfg.autoCommit, !cfg.autoCommit, f); }
    }
  }
}
