/**
 * The database connection seen by the script runner, reduced to a recorder:
 * it keeps its auto-commit flag and the history of every request made to it,
 * and a fixed driver behaviour decides which requests fail and what an
 * executed statement reports.
 */
module Jdbc {

  /** One call the runner makes on the connection (or on a statement from it). */
  datatype Request =
    | GetAutoCommit
    | SetAutoCommit(on: bool)
    | Commit
    | Rollback
    | Execute(sql: string)

  /** What `Statement.execute` did: it ran (perhaps leaving a warning) or threw. */
  datatype Response = Ran(warned: bool) | Threw

  /** Which connection-level calls throw. */
  datatype Faults = Faults(getAutoCommit: bool, setAutoCommit: bool, commit: bool, rollback: bool)

  /**
   * The driver's reply to a statement, given the SQL texts already executed
   * on this connection (the database state they built) and the new text.
   */
  type Driver = (seq<string>, string) -> Response

  /** The SQL texts sent for execution, in order. */
  function Executed(history: seq<Request>): (r: seq<string>)
    ensures |r| <= |history|
  {
    if history == [] then []
    else
      var last := history[|history| - 1];
      Executed(history[..|history| - 1]) + (if last.Execute? then [last.sql] else [])
  }

  /** The requests that execute each of `sqls`, in order. */
  function Executions(sqls: seq<string>): (r: seq<Request>)
    ensures |r| == |sqls|
    ensures forall i :: 0 <= i < |sqls| ==> r[i] == Execute(sqls[i])
  {
    if sqls == [] then [] else Executions(sqls[..|sqls| - 1]) + [Execute(sqls[|sqls| - 1])]
  }

  /** Requests that are not executions leave the executed texts alone. */
  lemma {:induction false} ExecutedAppend(h: seq<Request>, more: seq<Request>)
    ensures Executed(h + more) == Executed(h) + Executed(more)
  {
    if more == [] {
      assert h + more == h;
    } else {
      assert (h + more)[..|h + more| - 1] == h + more[..|more| - 1];
      ExecutedAppend(h, more[..|more| - 1]);
    }
  }

  /** Executing `sqls` adds exactly `sqls` to the executed texts. */
  lemma {:induction false} ExecutedExecutions(sqls: seq<string>)
    ensures Executed(Executions(sqls)) == sqls
  {
    if sqls != [] {
      var init := sqls[..|sqls| - 1];
      ExecutedExecutions(init);
      ExecutedAppend(Executions(init), [Execute(sqls[|sqls| - 1])]);
    }
  }

  class Connection {
    var autoCommit: bool
    var history: seq<Request>
    const faults: Faults
    const driver: Driver

    constructor (autoCommit: bool, faults: Faults, driver: Driver)
      ensures this.autoCommit == autoCommit && history == []
      ensures this.faults == faults && this.driver == driver
    {
      this.autoCommit := autoCommit;
      this.history := [];
      this.faults := faults;
      this.driver := driver;
    }

    /** `getAutoCommit`; `ok` is false when it throws. */
    method GetAutoCommit() returns (ok: bool, on: bool)
      modifies this`history
      ensures history == old(history) + [Request.GetAutoCommit]
      ensures ok == !faults.getAutoCommit && on == autoCommit
    {
      history := history + [Request.GetAutoCommit];
      ok, on := !faults.getAutoCommit, autoCommit;
    }

    /** `setAutoCommit`; the flag changes only when the call succeeds. */
    method SetAutoCommit(on: bool) returns (ok: bool)
      modifies this`history, this`autoCommit
      ensures history == old(history) + [Request.SetAutoCommit(on)]
      ensures ok == !faults.setAutoCommit
      ensures autoCommit == if ok then on else old(autoCommit)
    {
      history := history + [Request.SetAutoCommit(on)];
      ok := !faults.setAutoCommit;
      if ok {
        autoCommit := on;
      }
    }

    method Commit() returns (ok: bool)
      modifies this`history
      ensures history == old(history) + [Request.Commit]
      ensures ok == !faults.commit
    {
      history := history + [Request.Commit];
      ok := !faults.commit;
    }

    method Rollback() returns (ok: bool)
      modifies this`history
      ensures history == old(history) + [Request.Rollback]
      ensures ok == !faults.rollback
    {
      history := history + [Request.Rollback];
      ok := !faults.rollback;
    }

    /** `Statement.execute`, answered by the driver. */
    method Execute(sql: string) returns (r: Response)
      modifies this`history
      ensures history == old(history) + [Request.Execute(sql)]
      ensures r == driver(Executed(old(history)), sql)
    {
      r := driver(Executed(history), sql);
      history := history + [Request.Execute(sql)];
    }
  }
}
