# MyBatis ScriptRunner, modelled in Dafny

This project models MyBatis's `ScriptRunner`, the utility that reads a SQL
script line by line and sends its statements to a JDBC connection. The model
covers:

- **How a script is cut into statements.**
  - Comment lines (`--`, `//`) are echoed and never executed.
  - A comment of the form `-- @DELIMITER $$` switches the statement delimiter.
  - In the default mode, a line whose trimmed form contains the delimiter
    completes the statement, which runs up to the last occurrence of the
    delimiter in the line.
  - In full-line mode, only a line that trims to exactly the delimiter
    completes the statement.
  - Every other non-blank line is appended to the command buffer, followed by
    the platform line separator.
- **How each statement is executed.**
  - `removeCRs` rewrites CR-LF to LF before execution.
  - Under `stopOnError`, an SQL failure aborts the run. So does a warning
    when `throwWarning` is set.
  - Otherwise, failures are only written to the error writer.
- **How a run handles the transaction.** Auto-commit is reconciled first,
  then one of two strategies runs (the whole script as one statement, or line
  by line). The strategy commits at its end, and a rollback is attempted on
  every exit path after the setup succeeded.

The model is organised by module:

- `JavaText`: the Java string operations the runner relies on:
  - `trim`, which strips characters up to U+0020;
  - `lastIndexOf` and `contains`;
  - `replaceAll("\r\n", "\n")`;
  - the joining of lines, each followed by the separator.
- `DelimiterDirective`: a hand-written matcher for the delimiter pattern
  `^\s*((--)|(//))?\s*(//)?\s*@DELIMITER\s+([^\s]+)`, matched
  case-insensitively. It is proved sound and complete against a declarative
  description of what a match of that pattern is.
- `ScriptParser`: the parsing half of `handleLine` as a pure step function
  `Step`, and `Fold`, which carries it over a script.
- `Jdbc`: a recording `Connection` class. Its history of requests is what the
  runner is specified by. Statement results come from an oracle (`Driver`)
  that depends on the SQL executed so far. Whether `getAutoCommit`,
  `setAutoCommit`, `commit` and `rollback` fail is fixed per connection.
- `RunnerSpec`: one run as values:
  - the requests sent, what reaches the log and error writers, the final
    delimiter and the outcome;
  - `Feed` and `Drive` for the read loop;
  - `LineByLine` and `FullScript` for the two strategies;
  - `Run` for `runScript`.
- `RunnerProperties`: properties of that description.
- `ErrorPolicy`: the error policy carried through a line-by-line run.
  Without stop-on-error every statement that throws is reported, in order.
  With it, the first statement that fails ends the run.
- `Runner`: the runner itself, as a class with a `CommandBuffer` (the
  `StringBuilder`). Each method updates the object and the connection in place
  and is proved to do exactly what `RunnerSpec` describes.

Three behaviours of the code that are easy to misread:

- **No rollback after a failed setup.** A failure while reconciling
  auto-commit is raised before the `try` block of `runScript`, so no rollback
  is attempted after it (`RunWithoutAutoCommit`).
- **Terminator and commit failures are wrapped.** A missing final terminator
  in line-by-line mode is raised inside `executeLineByLine`'s `try`. So is a
  failed commit. Both are therefore caught by its `catch`, written to the
  error writer and rethrown as an "Error executing" failure for the command
  text. They are not reported as a separate kind of error.
- **Auto-commit is not restored.** The connection's auto-commit flag is left
  as the runner set it.

Behaviour of the code that the model makes visible:

- Whole-script mode executes the joined script even when it is empty.
- In the default mode, an empty delimiter makes every non-comment line
  complete a statement, blank lines included, because `"".contains("")`
  holds. `BlankLineIsIgnored` therefore requires a non-empty delimiter. In
  full-line mode an empty delimiter is matched only by blank lines.
- `removeCRs` rewrites in one left-to-right pass. A carriage return in front
  of a CR-LF pair survives, so `"\r\r\n"` becomes `"\r\n"`.
- When a statement aborts the run under `stopOnError`, the command buffer
  still holds that statement, and the failure names it.

## Model

All sources are in `src/main/java/org/apache/ibatis/jdbc/ScriptRunner.java`.

| member | source | states |
|---|---|---|
| JavaText.Trim | src/main/java/org/apache/ibatis/jdbc/ScriptRunner.java:208 | the trimmed line is the slice of the line between its leading and trailing runs of characters up to U+0020, and it neither starts nor ends with such a character |
| JavaText.TrimEmptyIffAllBlank | src/main/java/org/apache/ibatis/jdbc/ScriptRunner.java:202 | `trim().length() > 0` holds exactly when the text has a character above U+0020; both the missing-terminator check and the continuation test rely on this |
| JavaText.LastIndexOf | src/main/java/org/apache/ibatis/jdbc/ScriptRunner.java:219 | `lastIndexOf` returns -1 or a position where the delimiter occurs, and the delimiter occurs at no later position |
| JavaText.ContainsIffOccurs | src/main/java/org/apache/ibatis/jdbc/ScriptRunner.java:239 | `contains` holds exactly when the delimiter occurs at some position |
| JavaText.TrimmedContains | src/main/java/org/apache/ibatis/jdbc/ScriptRunner.java:218-219 | whatever the trimmed line contains, the untrimmed line contains too, so the cut at the last delimiter on the untrimmed line is never -1 |
| JavaText.ReplaceCrLfWithoutCr | src/main/java/org/apache/ibatis/jdbc/ScriptRunner.java:263-265 | the CR-LF rewrite leaves text without carriage returns unchanged |
| JavaText.ReplaceCrLfDropsCrBeforeLf | src/main/java/org/apache/ibatis/jdbc/ScriptRunner.java:263-265 | the CR-LF rewrite equals an independent one-character-at-a-time definition: a carriage return is dropped exactly when a line feed follows it, and every other character, a lone carriage return included, is kept in order |
| JavaText.LoneCrSurvives | src/main/java/org/apache/ibatis/jdbc/ScriptRunner.java:263-265 | the rewrite is one pass: `"\r\r\n"` becomes `"\r\n"`, and a lone carriage return is kept |
| JavaText.JoinLines | src/main/java/org/apache/ibatis/jdbc/ScriptRunner.java:128-132 | the joined script of a non-empty script ends with the line separator |
| JavaText.JoinLinesAppend | src/main/java/org/apache/ibatis/jdbc/ScriptRunner.java:128-131 | joining a script read in two pieces gives the concatenation of the two joined pieces |
| DelimiterDirective.MatchDirective | src/main/java/org/apache/ibatis/jdbc/ScriptRunner.java:39 | a delimiter captured by group 5 is non-empty and contains no whitespace |
| DelimiterDirective.MatchDirectiveSound | src/main/java/org/apache/ibatis/jdbc/ScriptRunner.java:39 | whatever the matcher returns is group 5 of some match of the delimiter pattern |
| DelimiterDirective.MatchDirectiveComplete | src/main/java/org/apache/ibatis/jdbc/ScriptRunner.java:39 | whenever the pattern matches, the matcher returns that match's group 5 |
| DelimiterDirective.MatchesAgree | src/main/java/org/apache/ibatis/jdbc/ScriptRunner.java:39 | all matches of the pattern on one line capture the same delimiter, so the captured group is well defined |
| DelimiterDirective.KeywordStartOfMatch | src/main/java/org/apache/ibatis/jdbc/ScriptRunner.java:39 | in every match, `@DELIMITER` starts right after the optional comment markers and the blanks around them |
| ScriptParser.CommentLineIsInert | src/main/java/org/apache/ibatis/jdbc/ScriptRunner.java:212-217 | a comment line is echoed trimmed; it never changes the buffer and never completes a statement, even when it contains the delimiter |
| ScriptParser.DirectiveSetsDelimiter | src/main/java/org/apache/ibatis/jdbc/ScriptRunner.java:213-216 | a comment line that matches the pattern sets the delimiter to its group 5; any other comment line keeps the delimiter |
| ScriptParser.ContainsModeDispatch | src/main/java/org/apache/ibatis/jdbc/ScriptRunner.java:218-226 | in default mode, a line whose trimmed form contains the delimiter completes the buffer plus the line up to the last occurrence of the delimiter plus the separator, and empties the buffer |
| ScriptParser.FullLineModeDispatch | src/main/java/org/apache/ibatis/jdbc/ScriptRunner.java:237-240 | in full-line mode, a line completes a statement exactly when it trims to the delimiter; any other non-blank line is appended |
| ScriptParser.ContinuationLineIsAppended | src/main/java/org/apache/ibatis/jdbc/ScriptRunner.java:227-230 | a non-blank line that neither comments nor terminates is appended whole, then the separator, and nothing is echoed or executed |
| ScriptParser.BlankLineIsIgnored | src/main/java/org/apache/ibatis/jdbc/ScriptRunner.java:207-231 | with a non-empty delimiter, a blank line leaves the parse state unchanged and produces nothing |
| ScriptParser.FoldAppend | src/main/java/org/apache/ibatis/jdbc/ScriptRunner.java:151-153 | reading a script in two pieces continues from the buffer and delimiter the first piece left, so a directive governs only the lines after it |
| ScriptParser.StatementsEndWithSeparator | src/main/java/org/apache/ibatis/jdbc/ScriptRunner.java:219-220 | every statement dispatched by a read ends with the line separator |
| ScriptParser.DirectiveExample | src/main/java/org/apache/ibatis/jdbc/ScriptRunner.java:207-231 | the script `-- comment`, `SELECT 1;`, `-- @DELIMITER $$`, `SELECT 2$$` yields the statements `SELECT 1` and `SELECT 2`, each followed by the separator, and leaves `$$` as the delimiter |
| Jdbc.Executions | src/main/java/org/apache/ibatis/jdbc/ScriptRunner.java:278 | executing a list of statements sends exactly one execute request per statement, in order |
| Jdbc.ExecutedExecutions | src/main/java/org/apache/ibatis/jdbc/ScriptRunner.java:278 | the SQL extracted from those requests is the list of statements again |
| RunnerSpec.Judge | src/main/java/org/apache/ibatis/jdbc/ScriptRunner.java:274-294 | a statement aborts the run exactly when stop-on-error is set and the execution threw, or warned while `throwWarning` is set; the cause is the SQL error if it threw, the escalated warning otherwise; a failure is only reported exactly when stop-on-error is off and the execution threw |
| RunnerSpec.CommitCalls | src/main/java/org/apache/ibatis/jdbc/ScriptRunner.java:181-189 | commit is requested exactly when the flag could be read and the connection is not auto-committing; no rollback is requested |
| RunnerSpec.RollbackCalls | src/main/java/org/apache/ibatis/jdbc/ScriptRunner.java:191-199 | rollback is requested exactly when the flag could be read and the connection is not auto-committing; no commit is requested |
| RunnerProperties.DriveFollowsSplit | src/main/java/org/apache/ibatis/jdbc/ScriptRunner.java:151-153 | a read loop that was not aborted sent, logged and left exactly what the line-by-line split of the script prescribes |
| RunnerProperties.NonStopNeverAborts | src/main/java/org/apache/ibatis/jdbc/ScriptRunner.java:287-294 | without stop-on-error the read loop is never aborted, whatever the driver answers |
| RunnerProperties.AbortStopsTheLoop | src/main/java/org/apache/ibatis/jdbc/ScriptRunner.java:274-286 | an aborted read loop had stop-on-error set and stopped at one particular line, whose statement failed |
| RunnerProperties.NonStopOrAbort | src/main/java/org/apache/ibatis/jdbc/ScriptRunner.java:274-294 | a line aborts only under stop-on-error, only when it completes a statement, and the failure names that statement and the driver's verdict on it |
| RunnerProperties.StopModeReportsNothing | src/main/java/org/apache/ibatis/jdbc/ScriptRunner.java:274-286 | under stop-on-error, no statement failure is written to the error writer without being thrown |
| RunnerProperties.LineByLineRunsEveryStatement | src/main/java/org/apache/ibatis/jdbc/ScriptRunner.java:143-161 | without stop-on-error, line-by-line mode executes every statement of the split in order and logs every echo; the error writer gets each failed statement and then the thrown failure; the run completes exactly when the commit succeeds and nothing is left unterminated; otherwise the failure names the leftover buffer |
| RunnerProperties.LineByLineStopsAtFailure | src/main/java/org/apache/ibatis/jdbc/ScriptRunner.java:143-161 | under stop-on-error, only the thrown failure reaches the error writer and the executed statements are a prefix of the split; a statement failure means it was the last request and no commit was sent |
| RunnerProperties.RunClosesTheTransaction | src/main/java/org/apache/ibatis/jdbc/ScriptRunner.java:103-121 | a run first reads the auto-commit flag; it commits exactly when it set manual commit and no statement ended the run, even if the missing-terminator check fails afterwards; it rolls back exactly after a successful manual-commit setup, and that rollback is its last request |
| RunnerProperties.RunWithoutAutoCommit | src/main/java/org/apache/ibatis/jdbc/ScriptRunner.java:103-107 | when auto-commit cannot be set, nothing is executed, committed or rolled back, nothing is logged, and the run raises the setup failure |
| RunnerProperties.RollbackFailureIsSwallowed | src/main/java/org/apache/ibatis/jdbc/ScriptRunner.java:191-199 | whether the final rollback fails makes no difference to the run |
| RunnerProperties.FullScriptIsOneStatement | src/main/java/org/apache/ibatis/jdbc/ScriptRunner.java:123-141 | in whole-script mode the joined script is the only statement executed and the only line logged, and the delimiter is untouched; the run completes exactly when the driver accepts the script and the commit succeeds |
| RunnerProperties.RunExecutesEveryStatement | src/main/java/org/apache/ibatis/jdbc/ScriptRunner.java:103-121 | a line-by-line run without stop-on-error, after a successful setup, executes exactly the statements of the split, logs its echoes and ends with the delimiter the script set |
| RunnerProperties.RunIsBody | src/main/java/org/apache/ibatis/jdbc/ScriptRunner.java:108-118 | after a successful setup, the reconciliation and the rollback execute nothing, and the run's output and outcome are those of the chosen strategy |
| RunnerProperties.DriveAbortIsStatementFailure | src/main/java/org/apache/ibatis/jdbc/ScriptRunner.java:274-286 | the read loop is aborted only by a statement that threw or whose warning was escalated |
| RunnerProperties.BodyTransactionCalls | src/main/java/org/apache/ibatis/jdbc/ScriptRunner.java:123-161 | neither strategy rolls back, and each commits exactly when the flag reads manual commit and no statement ended it; the commit precedes the missing-terminator check |
| ErrorPolicy.NonStopReportsEveryThrow | src/main/java/org/apache/ibatis/jdbc/ScriptRunner.java:287-294 | without stop-on-error the error writer receives exactly one report per statement whose execution threw, in the order they ran, as an independent front-to-back definition states |
| ErrorPolicy.LineByLineReportsEveryThrow | src/main/java/org/apache/ibatis/jdbc/ScriptRunner.java:143-161 | line by line without stop-on-error, the error writer holds the reports of exactly the statements of the script that threw, in order, then the failure the run throws at its end |
| ErrorPolicy.DriveRunsClean | src/main/java/org/apache/ibatis/jdbc/ScriptRunner.java:151-153 | when no statement of the split fails, the read loop is never aborted |
| ErrorPolicy.DriveStopsAtFirstFailure | src/main/java/org/apache/ibatis/jdbc/ScriptRunner.java:274-286 | when statement k of the split is the first to fail, the loop is aborted by it with the driver's cause, exactly the statements up to k were sent, and the writers hold the reports of those before it |
| ErrorPolicy.LineByLineStopsAtFirstFailure | src/main/java/org/apache/ibatis/jdbc/ScriptRunner.java:143-161 | line by line with stop-on-error, when statement k is the first to fail, the run throws that statement's failure with its cause, exactly statements 0..k were executed, no commit was sent, and the error writer holds only the thrown failure |
| ErrorPolicy.LineByLineWithoutFailure | src/main/java/org/apache/ibatis/jdbc/ScriptRunner.java:143-161 | line by line with stop-on-error, when no statement fails, every statement of the split is executed in order, the echoes are logged, only a thrown failure reaches the error writer, and the run completes exactly when the commit succeeds and nothing is left unterminated |
| Runner.ScriptRunner.constructor | src/main/java/org/apache/ibatis/jdbc/ScriptRunner.java:37-58 | a new runner has every flag off, `;` as its delimiter and empty writers |
| Runner.ScriptRunner.ExecuteStatement | src/main/java/org/apache/ibatis/jdbc/ScriptRunner.java:242-305 | one execute request with the CR-rewritten text; a report to the error writer exactly when the policy reports; a failure status exactly when the policy aborts |
| Runner.ScriptRunner.HandleLine | src/main/java/org/apache/ibatis/jdbc/ScriptRunner.java:207-231 | the buffer and delimiter become what `Step` prescribes; the echo is logged; a completed statement is executed and its verdict returned, keeping the statement in the buffer on an abort |
| Runner.ScriptRunner.HandleLines | src/main/java/org/apache/ibatis/jdbc/ScriptRunner.java:151-153 | feeding the lines one by one leaves the connection, writers, buffer and delimiter as `Drive` prescribes, and stops at the first abort |
| Runner.ScriptRunner.CheckForMissingLineTerminator | src/main/java/org/apache/ibatis/jdbc/ScriptRunner.java:201-205 | fails exactly when the buffer holds a non-blank character, and then names the delimiter and the buffer |
| Runner.ScriptRunner.CommitConnection | src/main/java/org/apache/ibatis/jdbc/ScriptRunner.java:181-189 | reads the flag and commits only in manual-commit mode; succeeds exactly when neither call fails |
| Runner.ScriptRunner.RollbackConnection | src/main/java/org/apache/ibatis/jdbc/ScriptRunner.java:191-199 | reads the flag and rolls back only in manual-commit mode; never fails |
| Runner.ScriptRunner.SetAutoCommit | src/main/java/org/apache/ibatis/jdbc/ScriptRunner.java:171-179 | reads the flag and writes it only when it differs from the configured value; the flag ends as configured exactly when the calls succeed |
| Runner.ScriptRunner.ExecuteLineByLine | src/main/java/org/apache/ibatis/jdbc/ScriptRunner.java:143-161 | requests, log, error writer, delimiter and outcome are exactly those of `LineByLine` |
| Runner.ScriptRunner.ExecuteFullScript | src/main/java/org/apache/ibatis/jdbc/ScriptRunner.java:123-141 | requests, log, error writer, delimiter and outcome are exactly those of `FullScript` |
| Runner.ScriptRunner.RunScript | src/main/java/org/apache/ibatis/jdbc/ScriptRunner.java:103-121 | requests, log, error writer, delimiter and outcome are exactly those of `Run`, whose properties are proved in `RunnerProperties` |

## Left out

- Result printing (`printResults`, and the result-set branch of `executeStatement`) is left out. It writes the column labels and then each row's values to the log writer. When reading the results throws, it writes an "Error printing results" message to the error writer and the run goes on.
- Log and error writers are modelled as sequences of entries: the log holds echoed lines, the error writer holds structured `Failure` values instead of message strings. Null writers and `flush` are not modelled.
- Exception messages and causes are modelled as the structured `Failure` and `Cause` values. The Java message text is not built.
- Reading the script is modelled as a sequence of lines. `BufferedReader.readLine`'s line splitting and reader `IOException`s are not modelled.
- The line separator is a parameter of the runner (`lineSeparator`) rather than the `line.separator` system property.
- `closeConnection` is left out. It only closes the connection and swallows the failure.
- `escapeProcessing` and the setters are left out. The setters are plain field assignments, modelled as public fields. Escape processing is passed to the driver, whose behaviour is an oracle here.
- `createStatement`, `Statement.close` and `getWarnings` are assumed not to throw. Their failures are not modelled.
- The driver is an oracle. Its answer to `execute` depends only on the SQL executed before and the SQL text. Whether each connection call fails is fixed per connection, not per call.
- RunClosesTheTransaction: because faults are fixed per connection, a run whose setup read the auto-commit flag can always read it again. The case where `getAutoCommit` throws inside `rollbackConnection` after a successful setup is not modelled. The source then skips the rollback silently (lines 193 and 196-198). The same holds for a `getAutoCommit` failure inside `commitConnection` after a successful setup.
- Exception classes (`SQLException`, `RuntimeSqlException`, `Error`) are not distinguished. Every failure the runner catches is modelled as a failure of the call.
- The `command != null` test in `checkForMissingLineTerminator` is not modelled, because the buffer always exists.
- `HandleLines` is the read loop of `executeLineByLine` as a method of its own. In the source the loop sits inside `executeLineByLine`.
