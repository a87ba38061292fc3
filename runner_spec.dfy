/**
 * What one run of the script runner does, as values: which requests reach the
 * connection, what reaches the log and error writers, what the delimiter is
 * afterwards and how the run ends. The class in runner.dfy is proved to do
 * exactly this.
 */
module RunnerSpec {
  import opened Options
  import opened JavaText
  import opened ScriptParser
  import opened Jdbc

  /** Why a statement, the commit or the script check threw. */
  datatype Cause =
    | SqlError
    | EscalatedWarning
    | CommitFailed
    | MissingTerminator(delimiter: string, command: string)

  /**
   * A RuntimeSqlException raised by the runner: either the auto-commit
   * reconciliation failed, or something failed while the command text
   * `command` was being assembled or executed (the "Error executing" message).
   */
  datatype Failure =
    | AutoCommitNotSet(wanted: bool)
    | ErrorExecuting(command: string, cause: Cause)

  /** How `runScript` ends: normally, or by throwing. */
  datatype Outcome = Completed | Raised(failure: Failure)

  /**
   * The runner's configuration, fixed for the duration of one run, and the
   * platform's `line.separator` it appends after every line.
   */
  datatype Settings = Settings(
    stopOnError: bool,
    throwWarning: bool,
    autoCommit: bool,
    sendFullScript: bool,
    removeCRs: bool,
    fullLineDelimiter: bool,
    lineSeparator: string)

  /** The text handed to the driver: CR-LF rewritten to LF when `removeCRs` is set. */
  function SqlText(removeCRs: bool, command: string): string {
    if removeCRs then ReplaceCrLf(command) else command
  }

  function SqlTexts(removeCRs: bool, commands: seq<string>): (r: seq<string>)
    ensures |r| == |commands|
  {
    if commands == [] then []
    else SqlTexts(removeCRs, commands[..|commands| - 1]) + [SqlText(removeCRs, commands[|commands| - 1])]
  }

  /**
   * The error policy of `executeStatement`: whether the outcome of one
   * execution is only reported to the error writer, or aborts the run.
   */
  datatype Verdict = Verdict(reported: bool, abort: Option<Cause>)

  function Judge(cfg: Settings, r: Response): (v: Verdict)
    ensures v.abort.Some? <==> cfg.stopOnError && (r.Threw? || (cfg.throwWarning && r.warned))
    ensures v.abort.Some? ==> v.abort.value == if r.Threw? then SqlError else EscalatedWarning
    ensures v.reported <==> !cfg.stopOnError && r.Threw?
  {
    if cfg.stopOnError then
      if r.Threw? then Verdict(false, Some(SqlError))
      else if cfg.throwWarning && r.warned then Verdict(false, Some(EscalatedWarning))
      else Verdict(false, None)
    else
      Verdict(r.Threw?, None)
  }

  /** What the error writer receives for a statement that failed without aborting. */
  function Report(v: Verdict, command: string): seq<Failure> {
    if v.reported then [ErrorExecuting(command, SqlError)] else []
  }

  /**
   * The state of a line-by-line run after some lines: the parse state, the
   * SQL texts sent, the log and error output, and the failure that stopped it.
   */
  datatype Trace = Trace(
    parse: ParseState,
    sent: seq<string>,
    log: seq<string>,
    errors: seq<Failure>,
    abort: Option<Failure>)

  function Start(delimiter: string): Trace {
    Trace(ParseState("", delimiter), [], [], [], None)
  }

  /**
   * One line's effect `e` carried out: a completed statement is sent to the
   * driver (which has already executed `prior` and then `t.sent`). If it
   * aborts, the buffer still holds the statement, which names the failure.
   */
  function Feed(cfg: Settings, driver: Driver, prior: seq<string>, t: Trace, e: Effect): Trace
  {
    match e.statement
    case None => Trace(e.state, t.sent, t.log + Opt(e.echo), t.errors, None)
    case Some(command) =>
      var sql := SqlText(cfg.removeCRs, command);
      var v := Judge(cfg, driver(prior + t.sent, sql));
      var sent, log := t.sent + [sql], t.log + Opt(e.echo);
      match v.abort
      case Some(c) =>
        Trace(ParseState(command, e.state.delimiter), sent, log, t.errors, Some(ErrorExecuting(command, c)))
      case None =>
        Trace(e.state, sent, log, t.errors + Report(v, command), None)
  }

  /**
   * What the error writer receives, in order, when the statements `commands`
   * run one after another after `prior` without the run being aborted.
   */
  function FailureReports(cfg: Settings, driver: Driver, prior: seq<string>, commands: seq<string>): seq<Failure>
  {
    if commands == [] then []
    else
      var init, last := commands[..|commands| - 1], commands[|commands| - 1];
      var v := Judge(cfg, driver(prior + SqlTexts(cfg.removeCRs, init), SqlText(cfg.removeCRs, last)));
      FailureReports(cfg, driver, prior, init) + Report(v, last)
  }

  /** The `while (readLine() != null) handleLine(...)` loop, which stops at the first abort. */
  function Drive(step: LineStep, cfg: Settings, driver: Driver, prior: seq<string>, t0: Trace, lines: seq<string>): Trace
  {
    if lines == [] then t0
    else
      var t := Drive(step, cfg, driver, prior, t0, lines[..|lines| - 1]);
      if t.abort.Some? then t else Feed(cfg, driver, prior, t, step(t.parse, lines[|lines| - 1]))
  }

  /** `setAutoCommit()`: the flag is read, and written only if it differs. */
  function AutoCommitCalls(wanted: bool, current: bool, f: Faults): seq<Request> {
    [GetAutoCommit] + (if !f.getAutoCommit && wanted != current then [SetAutoCommit(wanted)] else [])
  }

  predicate AutoCommitSucceeds(wanted: bool, current: bool, f: Faults) {
    !f.getAutoCommit && (wanted == current || !f.setAutoCommit)
  }

  /** `commitConnection()`: commit only when the connection is not auto-committing. */
  function CommitCalls(autoCommit: bool, f: Faults): (r: seq<Request>)
    ensures Commit in r <==> !autoCommit && !f.getAutoCommit
    ensures Rollback !in r
  {
    [GetAutoCommit] + (if !f.getAutoCommit && !autoCommit then [Commit] else [])
  }

  predicate CommitSucceeds(autoCommit: bool, f: Faults) {
    !f.getAutoCommit && (autoCommit || !f.commit)
  }

  /** `rollbackConnection()`: roll back when not auto-committing; failures are swallowed. */
  function RollbackCalls(autoCommit: bool, f: Faults): (r: seq<Request>)
    ensures Rollback in r <==> !autoCommit && !f.getAutoCommit
    ensures Commit !in r
  {
    [GetAutoCommit] + (if !f.getAutoCommit && !autoCommit then [Rollback] else [])
  }

  /** Everything one strategy (or a whole run) does, as values. */
  datatype RunEffect = RunEffect(
    requests: seq<Request>,
    log: seq<string>,
    errors: seq<Failure>,
    delimiter: string,
    outcome: Outcome)

  /** How `executeLineByLine` ends once its loop has produced `t`. */
  function LineByLineOutcome(t: Trace, autoCommit: bool, f: Faults): Outcome {
    if t.abort.Some? then Raised(t.abort.value)
    else if !CommitSucceeds(autoCommit, f) then Raised(ErrorExecuting(t.parse.buffer, CommitFailed))
    else if Trim(t.parse.buffer) != "" then
      Raised(ErrorExecuting(t.parse.buffer, MissingTerminator(t.parse.delimiter, t.parse.buffer)))
    else Completed
  }

  function Thrown(o: Outcome): seq<Failure> {
    if o.Raised? then [o.failure] else []
  }

  /** `executeLineByLine` on a connection whose auto-commit flag is `autoCommit`. */
  function LineByLine(cfg: Settings, driver: Driver, prior: seq<string>, delimiter: string,
                      lines: seq<string>, autoCommit: bool, f: Faults): RunEffect
  {
    LineByLineWith(LineHandler(cfg.fullLineDelimiter, cfg.lineSeparator), cfg, driver, prior, delimiter, lines, autoCommit, f)
  }

  /** The same, for any line handler `step`. */
  function LineByLineWith(step: LineStep, cfg: Settings, driver: Driver, prior: seq<string>, delimiter: string,
                          lines: seq<string>, autoCommit: bool, f: Faults): RunEffect
  {
    Finish(Drive(step, cfg, driver, prior, Start(delimiter), lines), autoCommit, f)
  }

  /** The end of `executeLineByLine` once its loop has produced `t`: commit and the script check, unless aborted. */
  function Finish(t: Trace, autoCommit: bool, f: Faults): RunEffect
  {
    var outcome := LineByLineOutcome(t, autoCommit, f);
    RunEffect(
      Executions(t.sent) + (if t.abort.None? then CommitCalls(autoCommit, f) else []),
      t.log,
      t.errors + Thrown(outcome),
      t.parse.delimiter,
      outcome)
  }

  /** `executeFullScript`: the joined script is one statement, then the commit. */
  function FullScript(cfg: Settings, driver: Driver, prior: seq<string>, delimiter: string,
                      lines: seq<string>, autoCommit: bool, f: Faults): RunEffect
  {
    var script := JoinLines(lines, cfg.lineSeparator);
    var sql := SqlText(cfg.removeCRs, script);
    var v := Judge(cfg, driver(prior, sql));
    var outcome :=
      if v.abort.Some? then Raised(ErrorExecuting(script, v.abort.value))
      else if !CommitSucceeds(autoCommit, f) then Raised(ErrorExecuting(script, CommitFailed))
      else Completed;
    RunEffect(
      [Execute(sql)] + (if v.abort.None? then CommitCalls(autoCommit, f) else []),
      [script],
      Report(v, script) + Thrown(outcome),
      delimiter,
      outcome)
  }

  /** The strategy `runScript` runs once auto-commit is set as configured. */
  function RunBody(cfg: Settings, driver: Driver, prior: seq<string>, delimiter: string,
                   lines: seq<string>, f: Faults): RunEffect
  {
    if cfg.sendFullScript then FullScript(cfg, driver, prior, delimiter, lines, cfg.autoCommit, f)
    else LineByLine(cfg, driver, prior, delimiter, lines, cfg.autoCommit, f)
  }

  /** `runScript`: reconcile auto-commit, run one strategy, then always try to roll back. */
  function Run(cfg: Settings, driver: Driver, prior: seq<string>, delimiter: string,
               lines: seq<string>, autoCommit: bool, f: Faults): RunEffect
  {
    var setup := AutoCommitCalls(cfg.autoCommit, autoCommit, f);
    if !AutoCommitSucceeds(cfg.autoCommit, autoCommit, f) then
      RunEffect(setup, [], [], delimiter, Raised(AutoCommitNotSet(cfg.autoCommit)))
    else
      var body := RunBody(cfg, driver, prior, delimiter, lines, f);
      RunEffect(
        setup + body.requests + RollbackCalls(cfg.autoCommit, f),
        body.log, body.errors, body.delimiter, body.outcome)
  }
}
