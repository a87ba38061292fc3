/**
 * The script runner itself: an object holding its configuration, the
 * current delimiter, its log and error writers, and a connection. Each
 * method is proved to do exactly what the value-level description in
 * `RunnerSpec` says, so the properties proved there hold of the methods.
 */
module Runner {
  import opened Options
  import opened JavaText
  import opened DelimiterDirective
  import opened ScriptParser
  import opened Jdbc
  import opened RunnerSpec
  import opened RunnerProperties

  /** The `StringBuilder` that collects a command across lines. */
  class CommandBuffer {
    var text: string

    constructor ()
      ensures text == ""
    {
      text := "";
    }

    method Append(s: string)
      modifies this
      ensures text == old(text) + s
    {
      text := text + s;
    }

    /** `setLength(0)`. */
    method Clear()
      modifies this
      ensures text == ""
    {
      text := "";
    }
  }

  /** How a runner step ended: normally, or by throwing `cause`. */
  datatype Status = Normal | Failed(cause: Cause)

  class ScriptRunner {
    const connection: Connection
    /** The platform's `line.separator`. */
    const lineSeparator: string
    var stopOnError: bool
    var throwWarning: bool
    var autoCommit: bool
    var sendFullScript: bool
    var removeCRs: bool
    var fullLineDelimiter: bool
    var delimiter: string
    /** What the log writer received, one entry per `println`. */
    var log: seq<string>
    /** What the error writer received. */
    var errorLog: seq<Failure>

    /** A runner with the default settings: the delimiter is ";" and every flag is off. */
    constructor (connection: Connection, lineSeparator: string)
      ensures this.connection == connection && this.lineSeparator == lineSeparator
      ensures Config() == Settings(false, false, false, false, false, false, lineSeparator)
      ensures delimiter == ";" && log == [] && errorLog == []
    {
      this.connection := connection;
      this.lineSeparator := lineSeparator;
      stopOnError := false;
      throwWarning := false;
      autoCommit := false;
      sendFullScript := false;
      removeCRs := false;
      fullLineDelimiter := false;
      delimiter := ";";
      log := [];
      errorLog := [];
    }

    /** The settings a run reads. */
    function Config(): Settings
      reads this`stopOnError, this`throwWarning, this`autoCommit, this`sendFullScript, this`removeCRs,
            this`fullLineDelimiter
    {
      Settings(stopOnError, throwWarning, autoCommit, sendFullScript, removeCRs, fullLineDelimiter, lineSeparator)
    }

    /**
     * `executeStatement`: the command (CR-LF rewritten when `removeCRs` is
     * set) is executed once; under stop-on-error an error, or an escalated
     * warning, is thrown, otherwise an error is only written to the error log.
     */
    method ExecuteStatement(command: string) returns (st: Status)
      modifies connection`history, this`errorLog
      ensures var sql := SqlText(removeCRs, command);
              var v := Judge(Config(), connection.driver(Executed(old(connection.history)), sql));
              && connection.history == old(connection.history) + [Execute(sql)]
              && errorLog == old(errorLog) + Report(v, command)
              && st == if v.abort.Some? then Failed(v.abort.value) else Normal
    {
      var sql := command;
      if removeCRs {
        sql := ReplaceCrLf(sql);
      }
      var r := connection.Execute(sql);
      if stopOnError {
        if r.Threw? {
          return Failed(SqlError);
        }
        if throwWarning && r.warned {
          return Failed(EscalatedWarning);
        }
        st := Normal;
      } else {
        if r.Threw? {
          errorLog := errorLog + [ErrorExecuting(command, SqlError)];
        }
        st := Normal;
      }
    }

    /**
     * `handleLine`: the line's parse effect (`Step`) carried out on the
     * command buffer and the delimiter, with the completed statement, if any,
     * executed; a failure leaves the statement in the buffer.
     */
    method HandleLine(command: CommandBuffer, line: string) returns (st: Status)
      modifies command, this`delimiter, this`log, this`errorLog, connection`history
      ensures LineHandledAs(Config(), connection.driver, old(connection.history), old(log), old(errorLog),
                            ParseState(old(command.text), old(delimiter)), line,
                            command.text, delimiter, connection.history, log, errorLog, st)
    {
      ghost var ps, h0, log0, errors0 := ParseState(command.text, delimiter), connection.history, log, errorLog;
      var trimmed := Trim(line);
      if IsComment(trimmed) {
        var found := MatchDirective(trimmed);
        if found.Some? {
          delimiter := found.value;
        }
        log := log + [trimmed];
        st := Normal;
        assert Step(ps, line, fullLineDelimiter, lineSeparator) ==
               Effect(ParseState(command.text, delimiter), None, Some(trimmed));
        LineHandledQuietly(Config(), connection.driver, h0, log0, errors0, ps, line,
                           command.text, delimiter, connection.history, log, errorLog);
      } else if ReadyToExecute(trimmed, delimiter, fullLineDelimiter) {
        assert Contains(trimmed, delimiter) by {
          if fullLineDelimiter { assert OccursAt(trimmed, delimiter, 0); }
        }
        TrimmedContains(line, delimiter);
        command.Append(line[..LastIndexOf(line, delimiter)]);
        command.Append(lineSeparator);
        assert command.text == CompletedStatement(ps, line, lineSeparator);
        ghost var e := Effect(ParseState("", delimiter), Some(command.text), Some(command.text));
        assert Step(ps, line, fullLineDelimiter, lineSeparator) == e;
        log := log + [command.text];
        assert Executed(connection.history) + [] == Executed(connection.history);
        st := ExecuteStatement(command.text);
        if st.Normal? {
          command.Clear();
        }
        StatementHandled(Config(), connection.driver, h0, log0, errors0, ps, line, e,
                         command.text, delimiter, connection.history, log, errorLog, st);
      } else if |trimmed| > 0 {
        command.Append(line);
        command.Append(lineSeparator);
        st := Normal;
        assert Step(ps, line, fullLineDelimiter, lineSeparator) ==
               Effect(ParseState(command.text, delimiter), None, None);
        LineHandledQuietly(Config(), connection.driver, h0, log0, errors0, ps, line,
                           command.text, delimiter, connection.history, log, errorLog);
      } else {
        st := Normal;
        assert Step(ps, line, fullLineDelimiter, lineSeparator) == Effect(ps, None, None);
        LineHandledQuietly(Config(), connection.driver, h0, log0, errors0, ps, line,
                           command.text, delimiter, connection.history, log, errorLog);
      }
    }

    /** `checkForMissingLineTerminator`: text left in the buffer means the last statement was not terminated. */
    method CheckForMissingLineTerminator(command: CommandBuffer) returns (st: Status)
      ensures st.Failed? <==> !AllBlank(command.text)
      ensures st.Failed? ==> st.cause == MissingTerminator(delimiter, command.text)
    {
      TrimEmptyIffAllBlank(command.text);
      if |Trim(command.text)| > 0 {
        st := Failed(MissingTerminator(delimiter, command.text));
      } else {
        st := Normal;
      }
    }

    /** `commitConnection`: commit unless the connection auto-commits; `ok` is false when that throws. */
    method CommitConnection() returns (ok: bool)
      modifies connection`history
      ensures connection.history == old(connection.history) + CommitCalls(connection.autoCommit, connection.faults)
      ensures ok == CommitSucceeds(connection.autoCommit, connection.faults)
    {
      var read, on := connection.GetAutoCommit();
      if !read {
        return false;
      }
      if !on {
        ok := connection.Commit();
      } else {
        ok := true;
      }
    }

    /** `rollbackConnection`: roll back unless the connection auto-commits; every failure is ignored. */
    method RollbackConnection()
      modifies connection`history
      ensures connection.history == old(connection.history) + RollbackCalls(connection.autoCommit, connection.faults)
    {
      var read, on := connection.GetAutoCommit();
      if read && !on {
        var _ := connection.Rollback();
      }
    }

    /** `setAutoCommit`: write the connection's flag only if it differs from the runner's. */
    method SetAutoCommit() returns (ok: bool)
      modifies connection`history, connection`autoCommit
      ensures connection.history ==
              old(connection.history) + AutoCommitCalls(autoCommit, old(connection.autoCommit), connection.faults)
      ensures ok == AutoCommitSucceeds(autoCommit, old(connection.autoCommit), connection.faults)
      ensures connection.autoCommit == if ok then autoCommit else old(connection.autoCommit)
    {
      var read, on := connection.GetAutoCommit();
      if !read {
        return false;
      }
      if autoCommit != on {
        ok := connection.SetAutoCommit(autoCommit);
      } else {
        ok := true;
      }
    }

    /**
     * The `while ((line = reader.readLine()) != null)` loop of
     * `executeLineByLine`: every line goes through `HandleLine` until one
     * fails. The fields then hold what the loop's trace `Drive` says.
     */
    method HandleLines(command: CommandBuffer, lines: seq<string>) returns (st: Status)
      requires command.text == ""
      modifies command, this`delimiter, this`log, this`errorLog, connection`history
      ensures Handled(Config(), connection.driver, old(connection.history), old(log), old(errorLog), old(delimiter),
                      lines, command.text, delimiter, connection.history, log, errorLog, st)
    {
      ghost var cfg := Config();
      ghost var h0, log0, errors0 := connection.history, log, errorLog;
      assert lines[..0] == [];
      var i := 0;
      while i < |lines|
        invariant 0 <= i <= |lines|
        invariant Config() == cfg
        invariant Looping(cfg, connection.driver, h0, log0, errors0, old(delimiter), lines, i,
                          command.text, delimiter, connection.history, log, errorLog)
      {
        ghost var text1, delimiter1, history1, log1, errors1 := command.text, delimiter, connection.history, log, errorLog;
        st := HandleLine(command, lines[i]);
        LoopStep(cfg, connection.driver, h0, log0, errors0, old(delimiter), lines, i,
                 text1, delimiter1, history1, log1, errors1,
                 command.text, delimiter, connection.history, log, errorLog, st);
        if st.Failed? {
          return;
        }
        i := i + 1;
      }
      LoopDone(cfg, connection.driver, h0, log0, errors0, old(delimiter), lines,
               command.text, delimiter, connection.history, log, errorLog);
      st := Normal;
    }

    /**
     * `executeLineByLine`: every line goes through `HandleLine`; then the
     * commit and the check for an unterminated statement. Any failure is
     * written to the error log and thrown, naming the buffer's content.
     */
    method ExecuteLineByLine(lines: seq<string>) returns (outcome: Outcome)
      modifies this`delimiter, this`log, this`errorLog, connection`history
      ensures Reports(LineByLine(Config(), connection.driver, Executed(old(connection.history)), old(delimiter),
                                 lines, connection.autoCommit, connection.faults),
                      old(connection.history), old(log), old(errorLog),
                      connection.history, log, errorLog, delimiter, outcome)
    {
      var command := new CommandBuffer();
      ghost var h0, log0, errors0 := connection.history, log, errorLog;
      ghost var t := Drive(LineHandler(fullLineDelimiter, lineSeparator), Config(), connection.driver,
                           Executed(h0), Start(delimiter), lines);
      LineByLineIsFinish(Config(), connection.driver, Executed(h0), delimiter, lines,
                         connection.autoCommit, connection.faults);
      var st := HandleLines(command, lines);
      assert Handled(Config(), connection.driver, h0, log0, errors0, old(delimiter),
                     lines, command.text, delimiter, connection.history, log, errorLog, st);
      if st.Failed? {
        AbortedRun(t, connection.autoCommit, connection.faults, h0, log0, errors0,
                   command.text, delimiter, connection.history, log, errorLog, st.cause);
        var failure := ErrorExecuting(command.text, st.cause);
        errorLog := errorLog + [failure];
        return Raised(failure);
      }
      ghost var history1, errors1 := connection.history, errorLog;
      var ok := CommitConnection();
      if !ok {
        CommitFailedRun(t, connection.autoCommit, connection.faults, h0, log0, errors0,
                        command.text, delimiter, history1, log, errors1);
        var failure := ErrorExecuting(command.text, CommitFailed);
        errorLog := errorLog + [failure];
        return Raised(failure);
      }
      CheckedRun(t, connection.autoCommit, connection.faults, h0, log0, errors0,
                 command.text, delimiter, history1, log, errors1);
      st := CheckForMissingLineTerminator(command);
      if st.Failed? {
        var failure := ErrorExecuting(command.text, st.cause);
        errorLog := errorLog + [failure];
        outcome := Raised(failure);
      } else {
        outcome := Completed;
      }
    }

    /**
     * `executeFullScript`: the lines, each followed by the separator, are
     * logged and executed as one statement, then committed; any failure is
     * written to the error log and thrown, naming the whole script.
     */
    method ExecuteFullScript(lines: seq<string>) returns (outcome: Outcome)
      modifies this`log, this`errorLog, connection`history
      ensures Reports(FullScript(Config(), connection.driver, Executed(old(connection.history)), delimiter,
                                 lines, connection.autoCommit, connection.faults),
                      old(connection.history), old(log), old(errorLog),
                      connection.history, log, errorLog, delimiter, outcome)
    {
      var script := "";
      var i := 0;
      while i < |lines|
        invariant 0 <= i <= |lines|
        invariant script == JoinLines(lines[..i], lineSeparator)
      {
        assert lines[..i + 1][..i] == lines[..i];
        script := script + lines[i] + lineSeparator;
        i := i + 1;
      }
      assert lines[..i] == lines;
      ghost var h0, log0, errors0 := connection.history, log, errorLog;
      log := log + [script];
      var st := ExecuteStatement(script);
      ghost var h1, errors1 := connection.history, errorLog;
      if st.Failed? {
        FullScriptAborted(Config(), connection.driver, h0, log0, errors0, delimiter, lines,
                          connection.autoCommit, connection.faults, errors1);
        var failure := ErrorExecuting(script, st.cause);
        errorLog := errorLog + [failure];
        return Raised(failure);
      }
      FullScriptRan(Config(), connection.driver, h0, log0, errors0, delimiter, lines,
                    connection.autoCommit, connection.faults, h1, errors1);
      var ok := CommitConnection();
      if !ok {
        var failure := ErrorExecuting(script, CommitFailed);
        errorLog := errorLog + [failure];
        return Raised(failure);
      }
      outcome := Completed;
    }

    /**
     * `runScript`: reconcile the auto-commit flag (a failure there is thrown
     * before anything else happens), run the script in the configured mode,
     * and always attempt a rollback afterwards.
     */
    method RunScript(lines: seq<string>) returns (outcome: Outcome)
      modifies this`delimiter, this`log, this`errorLog, connection`history, connection`autoCommit
      ensures Reports(Run(Config(), connection.driver, Executed(old(connection.history)), old(delimiter),
                          lines, old(connection.autoCommit), connection.faults),
                      old(connection.history), old(log), old(errorLog),
                      connection.history, log, errorLog, delimiter, outcome)
      ensures connection.autoCommit ==
              if AutoCommitSucceeds(autoCommit, old(connection.autoCommit), connection.faults) then autoCommit
              else old(connection.autoCommit)
    {
      ghost var h0, log0, errors0, autoCommit0 := connection.history, log, errorLog, connection.autoCommit;
      var ok := SetAutoCommit();
      if !ok {
        SetupFailed(Config(), connection.driver, h0, log0, errors0, delimiter, lines, autoCommit0, connection.faults);
        return Raised(AutoCommitNotSet(autoCommit));
      }
      if sendFullScript {
        outcome := ExecuteFullScript(lines);
      } else {
        outcome := ExecuteLineByLine(lines);
      }
      RunAssembled(Config(), connection.driver, h0, log0, errors0, old(delimiter), lines, autoCommit0, connection.faults,
                   connection.history, log, errorLog, delimiter, outcome);
      RollbackConnection();
    }
  }

  /** `HandleLine`'s effect, stated from a fresh trace, is the loop's `Feed` on the running trace. */
  lemma FeedFrom(cfg: Settings, driver: Driver, prior: seq<string>, t: Trace, e: Effect,
                 log0: seq<string>, errors0: seq<Failure>)
    requires t.abort.None?
    ensures var u := Feed(cfg, driver, prior, t, e);
            var w := Feed(cfg, driver, prior + t.sent, Trace(t.parse, [], log0 + t.log, errors0 + t.errors, None), e);
            && w.parse == u.parse && w.abort == u.abort
            && u.sent == t.sent + w.sent
            && w.log == log0 + u.log && w.errors == errors0 + u.errors
  {
    if e.statement.Some? {
      assert (prior + t.sent) + [] == prior + t.sent;
    }
  }

  lemma HistoryGrows(h0: seq<Request>, a: seq<string>, b: seq<string>)
    ensures h0 + Executions(a) + Executions(b) == h0 + Executions(a + b)
  {
    assert Executions(a + b) == Executions(a) + Executions(b);
  }

  /** Once aborted, the loop's trace stays as it is whatever lines follow. */
  lemma {:induction false} DriveStaysAborted(step: LineStep, cfg: Settings, driver: Driver, prior: seq<string>,
                                             t0: Trace, lines: seq<string>, i: nat)
    requires i <= |lines| && Drive(step, cfg, driver, prior, t0, lines[..i]).abort.Some?
    ensures Drive(step, cfg, driver, prior, t0, lines) == Drive(step, cfg, driver, prior, t0, lines[..i])
    decreases |lines| - i
  {
    if i < |lines| {
      assert lines[..i + 1] == lines[..i] + [lines[i]];
      DriveSnoc(step, cfg, driver, prior, t0, lines[..i], lines[i]);
      DriveStaysAborted(step, cfg, driver, prior, t0, lines, i + 1);
    } else {
      assert lines[..i] == lines;
    }
  }

  /** The runner's fields hold what the loop's trace `t` says, on top of what they held before. */
  ghost predicate Mirrors(t: Trace, h0: seq<Request>, log0: seq<string>, errors0: seq<Failure>,
                          text: string, delimiter: string, history: seq<Request>, log: seq<string>, errors: seq<Failure>)
  {
    && ParseState(text, delimiter) == t.parse
    && history == h0 + Executions(t.sent)
    && log == log0 + t.log
    && errors == errors0 + t.errors
  }

  /** One `HandleLine` call, as its contract states it, advances the mirrored trace by `Feed`. */
  lemma LineHandled(cfg: Settings, driver: Driver, h0: seq<Request>, log0: seq<string>, errors0: seq<Failure>,
                    t: Trace, e: Effect,
                    text: string, delimiter: string, history: seq<Request>, log: seq<string>, errors: seq<Failure>)
    requires t.abort.None?
    requires var w := Feed(cfg, driver, Executed(h0 + Executions(t.sent)),
                           Trace(t.parse, [], log0 + t.log, errors0 + t.errors, None), e);
             && ParseState(text, delimiter) == w.parse
             && history == h0 + Executions(t.sent) + Executions(w.sent)
             && log == w.log && errors == w.errors
    ensures var u := Feed(cfg, driver, Executed(h0), t, e);
            && Mirrors(u, h0, log0, errors0, text, delimiter, history, log, errors)
            && u.abort == Feed(cfg, driver, Executed(h0 + Executions(t.sent)),
                               Trace(t.parse, [], log0 + t.log, errors0 + t.errors, None), e).abort
  {
    ExecutedAppend(h0, Executions(t.sent));
    ExecutedExecutions(t.sent);
    var prior := Executed(h0);
    assert Executed(h0 + Executions(t.sent)) == prior + t.sent;
    FeedFrom(cfg, driver, prior, t, e, log0, errors0);
    var t1 := Trace(t.parse, [], log0 + t.log, errors0 + t.errors, None);
    var w := Feed(cfg, driver, prior + t.sent, t1, e);
    var u := Feed(cfg, driver, prior, t, e);
    HistoryGrows(h0, t.sent, w.sent);
  }

  /** The loop's view of one `HandleLine` call: the running trace advances by `Feed` of the line's `Step`. */
  lemma LineStepMirrored(cfg: Settings, driver: Driver, h0: seq<Request>, log0: seq<string>, errors0: seq<Failure>,
                         t: Trace, line: string,
                         text: string, delimiter: string, history: seq<Request>, log: seq<string>,
                         errors: seq<Failure>, st: Status)
    requires t.abort.None?
    requires LineHandledAs(cfg, driver, h0 + Executions(t.sent), log0 + t.log, errors0 + t.errors, t.parse, line,
                           text, delimiter, history, log, errors, st)
    ensures var u := Feed(cfg, driver, Executed(h0), t, Step(t.parse, line, cfg.fullLineDelimiter, cfg.lineSeparator));
            && Mirrors(u, h0, log0, errors0, text, delimiter, history, log, errors)
            && (st == Normal <==> u.abort.None?)
            && (st.Failed? ==> u.abort == Some(ErrorExecuting(text, st.cause)))
  {
    var e := Step(t.parse, line, cfg.fullLineDelimiter, cfg.lineSeparator);
    LineHandled(cfg, driver, h0, log0, errors0, t, e, text, delimiter, history, log, errors);
  }

  lemma LineByLineIsFinish(cfg: Settings, driver: Driver, prior: seq<string>, delimiter: string,
                           lines: seq<string>, autoCommit: bool, f: Faults)
    ensures LineByLine(cfg, driver, prior, delimiter, lines, autoCommit, f) ==
            Finish(Drive(LineHandler(cfg.fullLineDelimiter, cfg.lineSeparator), cfg, driver, prior, Start(delimiter), lines),
                   autoCommit, f)
  {
  }

  /**
   * `handleLine`'s contract: from parse state `ps`, history `h0` and writers
   * `log0`/`errors0`, the line's effect `Step` is carried out by `Feed`, and
   * the buffer, delimiter, history, writers and status show its result; a
   * failure names the statement left in the buffer.
   */
  ghost predicate LineHandledAs(cfg: Settings, driver: Driver, h0: seq<Request>, log0: seq<string>, errors0: seq<Failure>,
                                ps: ParseState, line: string,
                                text: string, delimiter: string, history: seq<Request>, log: seq<string>,
                                errors: seq<Failure>, st: Status)
  {
    var e := Step(ps, line, cfg.fullLineDelimiter, cfg.lineSeparator);
    var u := Feed(cfg, driver, Executed(h0), Trace(ps, [], log0, errors0, None), e);
    && ParseState(text, delimiter) == u.parse
    && history == h0 + Executions(u.sent)
    && log == u.log && errors == u.errors
    && (st == Normal <==> u.abort.None?)
    && (st.Failed? ==> u.abort == Some(ErrorExecuting(text, st.cause)))
  }

  /** A line that dispatches nothing: only the parse state and the log change. */
  lemma LineHandledQuietly(cfg: Settings, driver: Driver, h0: seq<Request>, log0: seq<string>, errors0: seq<Failure>,
                           ps: ParseState, line: string,
                           text: string, delimiter: string, history: seq<Request>, log: seq<string>,
                           errors: seq<Failure>)
    requires var e := Step(ps, line, cfg.fullLineDelimiter, cfg.lineSeparator);
             && e.statement.None? && ParseState(text, delimiter) == e.state
             && history == h0 && log == log0 + Opt(e.echo) && errors == errors0
    ensures LineHandledAs(cfg, driver, h0, log0, errors0, ps, line, text, delimiter, history, log, errors, Normal)
  {
  }

  /** The statement branch of `HandleLine`, with the line's effect `e` already known. */
  lemma StatementHandled(cfg: Settings, driver: Driver, h0: seq<Request>, log0: seq<string>, errors0: seq<Failure>,
                         ps: ParseState, line: string, e: Effect,
                         text: string, delimiter: string, history: seq<Request>, log: seq<string>,
                         errors: seq<Failure>, st: Status)
    requires Step(ps, line, cfg.fullLineDelimiter, cfg.lineSeparator) == e
    requires e.statement.Some? && e.echo == e.statement && e.state == ParseState("", ps.delimiter)
    requires delimiter == ps.delimiter && log == log0 + [e.statement.value]
    requires var sql := SqlText(cfg.removeCRs, e.statement.value);
             var v := Judge(cfg, driver(Executed(h0), sql));
             && history == h0 + [Execute(sql)]
             && errors == errors0 + Report(v, e.statement.value)
             && st == (if v.abort.Some? then Failed(v.abort.value) else Normal)
             && text == (if st.Normal? then "" else e.statement.value)
    ensures LineHandledAs(cfg, driver, h0, log0, errors0, ps, line, text, delimiter, history, log, errors, st)
  {
    assert Executed(h0) + [] == Executed(h0);
  }

  /** One more line: the loop's trace after `i + 1` lines is `Feed` of the trace after `i`, unless that one aborted. */
  lemma LoopAdvances(step: LineStep, cfg: Settings, driver: Driver, prior: seq<string>, t0: Trace,
                     lines: seq<string>, i: nat)
    requires i < |lines|
    ensures var t := Drive(step, cfg, driver, prior, t0, lines[..i]);
            Drive(step, cfg, driver, prior, t0, lines[..i + 1]) ==
              if t.abort.Some? then t else Feed(cfg, driver, prior, t, step(t.parse, lines[i]))
  {
    assert lines[..i + 1] == lines[..i] + [lines[i]];
    DriveSnoc(step, cfg, driver, prior, t0, lines[..i], lines[i]);
  }

  /** The runner's fields, once a strategy returns, hold what the effect `r` says, on top of what they held before. */
  ghost predicate Reports(r: RunEffect, h0: seq<Request>, log0: seq<string>, errors0: seq<Failure>,
                          history: seq<Request>, log: seq<string>, errors: seq<Failure>, delimiter: string,
                          outcome: Outcome)
  {
    && history == h0 + r.requests
    && log == log0 + r.log
    && errors == errors0 + r.errors
    && delimiter == r.delimiter
    && outcome == r.outcome
  }

  /** The loop stopped on a failing statement: it is logged and thrown, and nothing is committed. */
  lemma AbortedRun(t: Trace, autoCommit: bool, f: Faults, h0: seq<Request>, log0: seq<string>, errors0: seq<Failure>,
                   text: string, delimiter: string, history: seq<Request>, log: seq<string>, errors: seq<Failure>,
                   cause: Cause)
    requires Mirrors(t, h0, log0, errors0, text, delimiter, history, log, errors)
    requires t.abort == Some(ErrorExecuting(text, cause))
    ensures Reports(Finish(t, autoCommit, f), h0, log0, errors0, history, log, errors + [ErrorExecuting(text, cause)],
                    delimiter, Raised(ErrorExecuting(text, cause)))
  {
  }

  /** Every line handled, the commit threw: the failure names what is left in the buffer. */
  lemma CommitFailedRun(t: Trace, autoCommit: bool, f: Faults, h0: seq<Request>, log0: seq<string>, errors0: seq<Failure>,
                        text: string, delimiter: string, history: seq<Request>, log: seq<string>, errors: seq<Failure>)
    requires Mirrors(t, h0, log0, errors0, text, delimiter, history, log, errors)
    requires t.abort.None? && !CommitSucceeds(autoCommit, f)
    ensures Reports(Finish(t, autoCommit, f), h0, log0, errors0, history + CommitCalls(autoCommit, f), log,
                    errors + [ErrorExecuting(text, CommitFailed)], delimiter, Raised(ErrorExecuting(text, CommitFailed)))
  {
  }

  /** Every line handled and committed: the run completes unless text is left in the buffer. */
  lemma CheckedRun(t: Trace, autoCommit: bool, f: Faults, h0: seq<Request>, log0: seq<string>, errors0: seq<Failure>,
                   text: string, delimiter: string, history: seq<Request>, log: seq<string>, errors: seq<Failure>)
    requires Mirrors(t, h0, log0, errors0, text, delimiter, history, log, errors)
    requires t.abort.None? && CommitSucceeds(autoCommit, f)
    ensures var failure := ErrorExecuting(text, MissingTerminator(delimiter, text));
            Reports(Finish(t, autoCommit, f), h0, log0, errors0, history + CommitCalls(autoCommit, f), log,
                    errors + (if AllBlank(text) then [] else [failure]), delimiter,
                    if AllBlank(text) then Completed else Raised(failure))
  {
    TrimEmptyIffAllBlank(text);
  }

  /** Before line `i` of `lines`: nothing has failed, and the fields mirror the trace of the first `i` lines. */
  ghost predicate Looping(cfg: Settings, driver: Driver, h0: seq<Request>, log0: seq<string>, errors0: seq<Failure>,
                          delimiter0: string, lines: seq<string>, i: nat,
                          text: string, delimiter: string, history: seq<Request>, log: seq<string>, errors: seq<Failure>)
    requires i <= |lines|
  {
    var t := Drive(LineHandler(cfg.fullLineDelimiter, cfg.lineSeparator), cfg, driver, Executed(h0), Start(delimiter0), lines[..i]);
    t.abort.None? && Mirrors(t, h0, log0, errors0, text, delimiter, history, log, errors)
  }

  /**
   * After the read loop over `lines`: the fields mirror the trace of all of
   * `lines`, the status is a failure exactly when that trace aborted, and
   * the failure names the statement left in the buffer.
   */
  ghost predicate Handled(cfg: Settings, driver: Driver, h0: seq<Request>, log0: seq<string>, errors0: seq<Failure>,
                          delimiter0: string, lines: seq<string>,
                          text: string, delimiter: string, history: seq<Request>, log: seq<string>, errors: seq<Failure>,
                          st: Status)
  {
    var t := Drive(LineHandler(cfg.fullLineDelimiter, cfg.lineSeparator), cfg, driver, Executed(h0), Start(delimiter0), lines);
    && Mirrors(t, h0, log0, errors0, text, delimiter, history, log, errors)
    && (st == Normal <==> t.abort.None?)
    && (st.Failed? ==> t.abort == Some(ErrorExecuting(text, st.cause)))
  }

  /** One pass of the read loop: a handled line either keeps the loop going one line further, or ends it failed. */
  lemma LoopStep(cfg: Settings, driver: Driver, h0: seq<Request>, log0: seq<string>, errors0: seq<Failure>,
                 delimiter0: string, lines: seq<string>, i: nat,
                 text1: string, delimiter1: string, history1: seq<Request>, log1: seq<string>, errors1: seq<Failure>,
                 text: string, delimiter: string, history: seq<Request>, log: seq<string>, errors: seq<Failure>,
                 st: Status)
    requires i < |lines|
    requires Looping(cfg, driver, h0, log0, errors0, delimiter0, lines, i, text1, delimiter1, history1, log1, errors1)
    requires LineHandledAs(cfg, driver, history1, log1, errors1, ParseState(text1, delimiter1), lines[i],
                           text, delimiter, history, log, errors, st)
    ensures st.Normal? ==> Looping(cfg, driver, h0, log0, errors0, delimiter0, lines, i + 1,
                                   text, delimiter, history, log, errors)
    ensures st.Failed? ==> Handled(cfg, driver, h0, log0, errors0, delimiter0, lines,
                                   text, delimiter, history, log, errors, st)
  {
    var step := LineHandler(cfg.fullLineDelimiter, cfg.lineSeparator);
    var t := Drive(step, cfg, driver, Executed(h0), Start(delimiter0), lines[..i]);
    LineStepMirrored(cfg, driver, h0, log0, errors0, t, lines[i], text, delimiter, history, log, errors, st);
    LoopAdvances(step, cfg, driver, Executed(h0), Start(delimiter0), lines, i);
    if st.Failed? {
      DriveStaysAborted(step, cfg, driver, Executed(h0), Start(delimiter0), lines, i + 1);
    }
  }

  /** The read loop ran out of lines without a failure. */
  lemma LoopDone(cfg: Settings, driver: Driver, h0: seq<Request>, log0: seq<string>, errors0: seq<Failure>,
                 delimiter0: string, lines: seq<string>,
                 text: string, delimiter: string, history: seq<Request>, log: seq<string>, errors: seq<Failure>)
    requires Looping(cfg, driver, h0, log0, errors0, delimiter0, lines, |lines|, text, delimiter, history, log, errors)
    ensures Handled(cfg, driver, h0, log0, errors0, delimiter0, lines, text, delimiter, history, log, errors, Normal)
  {
    assert lines[..|lines|] == lines;
  }

  /** The auto-commit setup executes no statement. */
  lemma SetupExecutesNothing(h0: seq<Request>, wanted: bool, current: bool, f: Faults)
    ensures Executed(h0 + AutoCommitCalls(wanted, current, f)) == Executed(h0)
  {
    var setup := AutoCommitCalls(wanted, current, f);
    ExecutedAppend(h0, setup);
    assert Executed(setup) == [] by {
      if !f.getAutoCommit && wanted != current {
        assert setup == [GetAutoCommit] + [SetAutoCommit(wanted)];
      }
    }
  }

  /** The auto-commit flag could not be read or set: `runScript` throws before anything else. */
  lemma SetupFailed(cfg: Settings, driver: Driver, h0: seq<Request>, log0: seq<string>, errors0: seq<Failure>,
                    delimiter: string, lines: seq<string>, autoCommit0: bool, f: Faults)
    requires !AutoCommitSucceeds(cfg.autoCommit, autoCommit0, f)
    ensures Reports(Run(cfg, driver, Executed(h0), delimiter, lines, autoCommit0, f), h0, log0, errors0,
                    h0 + AutoCommitCalls(cfg.autoCommit, autoCommit0, f), log0, errors0, delimiter,
                    Raised(AutoCommitNotSet(cfg.autoCommit)))
  {
    assert log0 + [] == log0 && errors0 + [] == errors0;
  }

  /** `runScript` put together: the auto-commit setup, the strategy's effect, then the rollback. */
  lemma RunAssembled(cfg: Settings, driver: Driver, h0: seq<Request>, log0: seq<string>, errors0: seq<Failure>,
                     delimiter0: string, lines: seq<string>, autoCommit0: bool, f: Faults,
                     history: seq<Request>, log: seq<string>, errors: seq<Failure>, delimiter: string, outcome: Outcome)
    requires AutoCommitSucceeds(cfg.autoCommit, autoCommit0, f)
    requires var h1 := h0 + AutoCommitCalls(cfg.autoCommit, autoCommit0, f);
             && (cfg.sendFullScript ==>
                   Reports(FullScript(cfg, driver, Executed(h1), delimiter0, lines, cfg.autoCommit, f),
                           h1, log0, errors0, history, log, errors, delimiter, outcome))
             && (!cfg.sendFullScript ==>
                   Reports(LineByLine(cfg, driver, Executed(h1), delimiter0, lines, cfg.autoCommit, f),
                           h1, log0, errors0, history, log, errors, delimiter, outcome))
    ensures Reports(Run(cfg, driver, Executed(h0), delimiter0, lines, autoCommit0, f), h0, log0, errors0,
                    history + RollbackCalls(cfg.autoCommit, f), log, errors, delimiter, outcome)
  {
    var setup, rollback := AutoCommitCalls(cfg.autoCommit, autoCommit0, f), RollbackCalls(cfg.autoCommit, f);
    SetupExecutesNothing(h0, cfg.autoCommit, autoCommit0, f);
    var body := RunBody(cfg, driver, Executed(h0), delimiter0, lines, f);
    assert Reports(body, h0 + setup, log0, errors0, history, log, errors, delimiter, outcome);
    assert Run(cfg, driver, Executed(h0), delimiter0, lines, autoCommit0, f) ==
           RunEffect(setup + body.requests + rollback, body.log, body.errors, body.delimiter, body.outcome);
    Regroup(h0, setup, body.requests, rollback);
  }

  /** Whole-script mode, the script's execution aborted: logged, thrown, nothing committed. */
  lemma FullScriptAborted(cfg: Settings, driver: Driver, h0: seq<Request>, log0: seq<string>, errors0: seq<Failure>,
                          delimiter: string, lines: seq<string>, autoCommit: bool, f: Faults, errors: seq<Failure>)
    requires var script := JoinLines(lines, cfg.lineSeparator);
             var v := Judge(cfg, driver(Executed(h0), SqlText(cfg.removeCRs, script)));
             v.abort.Some? && errors == errors0 + Report(v, script)
    ensures var script := JoinLines(lines, cfg.lineSeparator);
            var v := Judge(cfg, driver(Executed(h0), SqlText(cfg.removeCRs, script)));
            var failure := ErrorExecuting(script, v.abort.value);
            Reports(FullScript(cfg, driver, Executed(h0), delimiter, lines, autoCommit, f), h0, log0, errors0,
                    h0 + [Execute(SqlText(cfg.removeCRs, script))], log0 + [script], errors + [failure],
                    delimiter, Raised(failure))
  {
    var script := JoinLines(lines, cfg.lineSeparator);
    var v := Judge(cfg, driver(Executed(h0), SqlText(cfg.removeCRs, script)));
    var r := FullScript(cfg, driver, Executed(h0), delimiter, lines, autoCommit, f);
    assert Report(v, script) == [];
    assert r.errors == [ErrorExecuting(script, v.abort.value)];
  }

  /** Whole-script mode, the script ran: the commit decides how the run ends. */
  lemma FullScriptRan(cfg: Settings, driver: Driver, h0: seq<Request>, log0: seq<string>, errors0: seq<Failure>,
                      delimiter: string, lines: seq<string>, autoCommit: bool, f: Faults,
                      history: seq<Request>, errors: seq<Failure>)
    requires var script := JoinLines(lines, cfg.lineSeparator);
             var sql := SqlText(cfg.removeCRs, script);
             var v := Judge(cfg, driver(Executed(h0), sql));
             && v.abort.None?
             && history == h0 + [Execute(sql)]
             && errors == errors0 + Report(v, script)
    ensures var script := JoinLines(lines, cfg.lineSeparator);
            var failure := ErrorExecuting(script, CommitFailed);
            var ok := CommitSucceeds(autoCommit, f);
            Reports(FullScript(cfg, driver, Executed(h0), delimiter, lines, autoCommit, f), h0, log0, errors0,
                    history + CommitCalls(autoCommit, f), log0 + [script], errors + (if ok then [] else [failure]),
                    delimiter, if ok then Completed else Raised(failure))
  {
    var script := JoinLines(lines, cfg.lineSeparator);
    var sql := SqlText(cfg.removeCRs, script);
    var v := Judge(cfg, driver(Executed(h0), sql));
    var r := FullScript(cfg, driver, Executed(h0), delimiter, lines, autoCommit, f);
    var ok := CommitSucceeds(autoCommit, f);
    var thrown := if ok then [] else [ErrorExecuting(script, CommitFailed)];
    assert r.requests == [Execute(sql)] + CommitCalls(autoCommit, f);
    assert r.errors == Report(v, script) + thrown;
    Assoc(h0, [Execute(sql)], CommitCalls(autoCommit, f));
    Assoc(errors0, Report(v, script), thrown);
  }

  /** Sequence concatenation regrouped; kept as a lemma so the callers' proofs stay small. */
  lemma Regroup<T>(a: seq<T>, b: seq<T>, c: seq<T>, d: seq<T>)
    ensures a + b + c + d == a + (b + c + d)
  {
  }

  lemma Assoc<T>(a: seq<T>, b: seq<T>, c: seq<T>)
    ensures a + b + c == a + (b + c)
  {
  }
}
