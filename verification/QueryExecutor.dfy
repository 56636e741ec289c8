/**
 * One statement inside a read-only transaction with a timeout. The driver is a runner
 * whose every call may fail; `Script` says which do.
 */
module QueryExecutor {
  import opened Sequences
  import opened JsonTree
  import opened ResultTypes

  datatype DriverError = DriverError(code: Option<string>, detail: string)

  datatype Attempt = Works | Breaks(error: DriverError)

  datatype Reply = Records(records: seq<DbRow>) | Refuses(error: DriverError)

  /** How the driver will behave, call by call. `cleanup` is the rollback tried after a failure. */
  datatype Script = Script(
    connect: Attempt,
    start: Attempt, activeAfterFailedStart: bool,
    readOnly: Attempt, timeout: Attempt,
    statement: Reply,
    rollback: Attempt, activeAfterFailedRollback: bool,
    cleanup: Attempt,
    release: Attempt)

  datatype Request =
    | Connect | StartTransaction | SetReadOnly | SetTimeout(ms: nat) | Send(sql: Record)
    | Rollback | Commit | Release

  datatype Event = Event(request: Request, worked: bool)

  datatype Settings = Settings(timeoutMs: nat, maxRows: nat)

  datatype Failure = Timeout | ReadOnly | DatabaseError

  /** What `execute` gives its caller; `Escaped` is an error that is not an execution error. */
  datatype Execution = Returned(result: QueryResult) | Failed(reason: Failure, detail: string) | Escaped(error: DriverError)

  const QUERY_CANCELED := "57014"
  const READ_ONLY_TRANSACTION := "25006"

  function Translate(error: DriverError): (r: Execution)
  {
    Failed(if error.code == Some(QUERY_CANCELED) then Timeout
           else if error.code == Some(READ_ONLY_TRANSACTION) then ReadOnly
           else DatabaseError,
           error.detail)
  }

  /** A prefix of what the database sent, at most `maxRows` long, flagged exactly when rows were cut. */
  function Shape(records: seq<DbRow>, maxRows: nat, durationMs: nat): (r: QueryResult)
    ensures r.rows <= records && |r.rows| == r.rowCount <= maxRows
    ensures r.truncated <==> r.rows != records
    ensures |r.columns| == if records == [] then 0 else |records[0]|
    ensures forall i :: 0 <= i < |r.columns| ==> r.columns[i] == records[0][i].column
    ensures r.durationMs == durationMs
    ensures r.rowCount < maxRows ==> r.rows == records
  {
    var truncated := |records| > maxRows;
    var rows := if truncated then records[..maxRows] else records;
    QueryResult(if records == [] then [] else ColumnNames(records[0]), rows, |rows|, truncated, durationMs)
  }

  // ---------------------------------------------------------------- the requests made, as the specification

  /** Requests go out in order until one fails. */
  function Attempted(script: Script, sql: Record, timeoutMs: nat): (r: seq<Event>)
  {
    if script.connect.Breaks? then [Event(Connect, false)]
    else if script.start.Breaks? then [Event(Connect, true), Event(StartTransaction, false)]
    else [Event(Connect, true), Event(StartTransaction, true)] + Guarded(script, sql, timeoutMs)
  }

  /** The requests made inside the open transaction. */
  function Guarded(script: Script, sql: Record, timeoutMs: nat): (r: seq<Event>)
  {
    if script.readOnly.Breaks? then [Event(SetReadOnly, false)]
    else if script.timeout.Breaks? then [Event(SetReadOnly, true), Event(SetTimeout(timeoutMs), false)]
    else [Event(SetReadOnly, true), Event(SetTimeout(timeoutMs), true)] + Query(script, sql)
  }

  /** The statement, and the rollback that always follows it. */
  function Query(script: Script, sql: Record): (r: seq<Event>)
  {
    if script.statement.Refuses? then [Event(Send(sql), false)]
    else [Event(Send(sql), true), Event(Rollback, script.rollback.Works?)]
  }

  function FirstError(script: Script): (r: Option<DriverError>)
  {
    if script.connect.Breaks? then Some(script.connect.error)
    else if script.start.Breaks? then Some(script.start.error)
    else if script.readOnly.Breaks? then Some(script.readOnly.error)
    else if script.timeout.Breaks? then Some(script.timeout.error)
    else if script.statement.Refuses? then Some(script.statement.error)
    else if script.rollback.Breaks? then Some(script.rollback.error)
    else None
  }

  /** The runner's own flag once the first failure is caught. */
  predicate ActiveWhenCaught(script: Script)
  {
    if script.connect.Breaks? then false
    else if script.start.Breaks? then script.activeAfterFailedStart
    else if script.readOnly.Breaks? || script.timeout.Breaks? || script.statement.Refuses? then true
    else script.rollback.Breaks? && script.activeAfterFailedRollback
  }

  function Lifecycle(script: Script, sql: Record, timeoutMs: nat): (r: seq<Event>)
  {
    Attempted(script, sql, timeoutMs)
    + (if FirstError(script).Some? && ActiveWhenCaught(script)
       then [Event(Rollback, script.cleanup.Works?)] else [])
    + [Event(Release, script.release.Works?)]
  }

  /** Rows come back exactly when every call worked, the release included. */
  function Executed(script: Script, sql: Record, settings: Settings, durationMs: nat): (r: Execution)
    ensures r.Returned? <==> script.release.Works? && FirstError(script).None?
    ensures r.Returned? ==> script.statement.Records? && r.result == Shape(script.statement.records, settings.maxRows, durationMs)
    ensures r.Escaped? <==> script.release.Breaks?
    ensures r.Escaped? ==> r.error == script.release.error
  {
    var error := FirstError(script);
    if script.release.Breaks? then Escaped(script.release.error)
    else if error.Some? then Translate(error.value)
    else
      match script.statement
      case Records(records) => Returned(Shape(records, settings.maxRows, durationMs))
      case Refuses(refusal) => Translate(refusal)
  }

  // ---------------------------------------------------------------- the runner and the executor

  class QueryRunner {
    const script: Script
    var isTransactionActive: bool
    var log: seq<Event>

    constructor (script: Script)
      ensures this.script == script && !isTransactionActive && log == []
    {
      this.script := script;
      isTransactionActive, log := false, [];
    }

    method Request(request: Request, attempt: Attempt)
      modifies this`log
      ensures log == old(log) + [Event(request, attempt.Works?)]
    {
      log := log + [Event(request, attempt.Works?)];
    }

    method Begin()
      modifies this
      ensures log == old(log) + [Event(StartTransaction, script.start.Works?)]
      ensures isTransactionActive == (script.start.Works? || script.activeAfterFailedStart)
    {
      isTransactionActive := script.start.Works? || script.activeAfterFailedStart;
      Request(StartTransaction, script.start);
    }

    method RollBack(attempt: Attempt)
      modifies this
      ensures log == old(log) + [Event(Rollback, attempt.Works?)]
      ensures isTransactionActive == (attempt.Breaks? && script.activeAfterFailedRollback)
    {
      isTransactionActive := attempt.Breaks? && script.activeAfterFailedRollback;
      Request(Rollback, attempt);
    }
  }

  class QueryExecutorService {
    const settings: Settings

    constructor (settings: Settings)
      ensures this.settings == settings
    {
      this.settings := settings;
    }

    /** The `try` block: up to the first failure, or to the end of the transaction. */
    method RunInTransaction(runner: QueryRunner, sql: Record) returns (error: Option<DriverError>)
      requires runner.log == [] && !runner.isTransactionActive
      modifies runner
      ensures runner.log == Attempted(runner.script, sql, settings.timeoutMs)
      ensures error == FirstError(runner.script)
      ensures error.Some? ==> runner.isTransactionActive == ActiveWhenCaught(runner.script)
    {
      var script := runner.script;
      runner.Request(Connect, script.connect);
      if script.connect.Breaks? { return Some(script.connect.error); }
      runner.Begin();
      if script.start.Breaks? { return Some(script.start.error); }
      runner.Request(SetReadOnly, script.readOnly);
      if script.readOnly.Breaks? { return Some(script.readOnly.error); }
      runner.Request(SetTimeout(settings.timeoutMs), script.timeout);
      if script.timeout.Breaks? { return Some(script.timeout.error); }
      runner.Request(Send(sql), if script.statement.Records? then Works else Breaks(script.statement.error));
      if script.statement.Refuses? { return Some(script.statement.error); }
      runner.RollBack(script.rollback);
      if script.rollback.Breaks? { return Some(script.rollback.error); }
      return None;
    }

    method RollbackQuietly(runner: QueryRunner)
      modifies runner
      ensures runner.log == old(runner.log)
                            + if old(runner.isTransactionActive) then [Event(Rollback, runner.script.cleanup.Works?)] else []
    {
      if !runner.isTransactionActive {
        return;
      }
      runner.RollBack(runner.script.cleanup);
    }

    method Execute(runner: QueryRunner, sql: Record, durationMs: nat) returns (execution: Execution)
      requires runner.log == [] && !runner.isTransactionActive
      modifies runner
      ensures execution == Executed(runner.script, sql, settings, durationMs)
      ensures runner.log == Lifecycle(runner.script, sql, settings.timeoutMs)
    {
      var script := runner.script;
      var error := RunInTransaction(runner, sql);
      if error.Some? {
        RollbackQuietly(runner);
        execution := Translate(error.value);
      } else {
        execution := Returned(Shape(script.statement.records, settings.maxRows, durationMs));
      }
      runner.Request(Release, script.release);
      if script.release.Breaks? {
        execution := Escaped(script.release.error);
      }
    }
  }

  // ---------------------------------------------------------------- the session, as the database sees it

  /** `SET LOCAL` lasts as long as the transaction it was issued in. */
  datatype Session = Session(inTransaction: bool, readOnly: bool, timeoutMs: Option<nat>)

  const IDLE := Session(false, false, None)

  function After(s: Session, e: Event): (r: Session)
  {
    if !e.worked then s
    else
      match e.request
      case StartTransaction => Session(true, false, None)
      case SetReadOnly => if s.inTransaction then s.(readOnly := true) else s
      case SetTimeout(ms) => if s.inTransaction then s.(timeoutMs := Some(ms)) else s
      case Rollback => IDLE
      case Commit => IDLE
      case _ => s
  }

  function Replay(events: seq<Event>): (r: Session)
  {
    if events == [] then IDLE else After(Replay(events[..|events| - 1]), events[|events| - 1])
  }

  predicate Sends(e: Event)
  {
    e.request.Send?
  }

  /** What an event log must show: `released` says whether the connection has been given back. */
  ghost predicate Sound(events: seq<Event>, sql: Record, timeoutMs: nat, released: bool)
  {
    // the statement goes out only where the database holds it read-only and to the timeout
    && (forall i :: 0 <= i < |events| && Sends(events[i]) ==>
          events[i].request.sql == sql && Replay(events[..i]) == Session(true, true, Some(timeoutMs)))
    // and at most once
    && (forall i, j :: 0 <= i < j < |events| ==> !(Sends(events[i]) && Sends(events[j])))
    // nothing is committed
    && (forall i :: 0 <= i < |events| ==> !events[i].request.Commit?)
    // the connection is released once, last
    && (released ==> |events| > 0)
    && (forall i :: 0 <= i < |events| ==> (events[i].request.Release? <==> released && i == |events| - 1))
  }

  ghost predicate Unsent(events: seq<Event>)
  {
    forall i :: 0 <= i < |events| ==> !Sends(events[i])
  }

  /** One more event, sound if it is a statement under guard, not yet sent, or no statement at all. */
  lemma Push(events: seq<Event>, e: Event, sql: Record, timeoutMs: nat)
    requires Sound(events, sql, timeoutMs, false) && !e.request.Commit?
    requires Sends(e) ==>
               e.request.sql == sql && Replay(events) == Session(true, true, Some(timeoutMs)) && Unsent(events)
    ensures Sound(events + [e], sql, timeoutMs, e.request.Release?)
    ensures Replay(events + [e]) == After(Replay(events), e)
    ensures Unsent(events) && !Sends(e) ==> Unsent(events + [e])
  {
    var next := events + [e];
    assert next[..|events|] == events;
    forall i | 0 <= i < |next| && Sends(next[i])
      ensures next[i].request.sql == sql && Replay(next[..i]) == Session(true, true, Some(timeoutMs))
    {
      assert next[..i] == events[..i];
      assert events[..|events|] == events;
    }
  }

  lemma Push2(events: seq<Event>, e: Event, f: Event, sql: Record, timeoutMs: nat)
    requires Sound(events, sql, timeoutMs, false) && Unsent(events)
    requires !Sends(e) && !Sends(f) && !e.request.Commit? && !f.request.Commit? && !e.request.Release? && !f.request.Release?
    ensures Sound(events + [e, f], sql, timeoutMs, false) && Unsent(events + [e, f])
    ensures Replay(events + [e, f]) == After(After(Replay(events), e), f)
  {
    Push(events, e, sql, timeoutMs);
    Push(events + [e], f, sql, timeoutMs);
    assert events + [e] + [f] == events + [e, f];
  }

  /** Whether a rollback was tried and failed. */
  ghost predicate RollbackFailed(events: seq<Event>)
  {
    Event(Rollback, false) in events
  }

  lemma QueryIsSound(script: Script, guarded: seq<Event>, sql: Record, timeoutMs: nat)
    requires Sound(guarded, sql, timeoutMs, false) && Unsent(guarded)
    requires Replay(guarded) == Session(true, true, Some(timeoutMs))
    ensures var events := guarded + Query(script, sql);
            && Sound(events, sql, timeoutMs, false)
            && (Replay(events).inTransaction <==> script.statement.Refuses? || script.rollback.Breaks?)
            && (script.statement.Records? && script.rollback.Breaks? ==> RollbackFailed(events))
  {
    var send := Event(Send(sql), script.statement.Records?);
    Push(guarded, send, sql, timeoutMs);
    if script.statement.Records? {
      var rollback := Event(Rollback, script.rollback.Works?);
      Push(guarded + [send], rollback, sql, timeoutMs);
      assert guarded + [send] + [rollback] == guarded + Query(script, sql);
      assert (guarded + Query(script, sql))[|guarded| + 1] == rollback;
    } else {
      assert guarded + [send] == guarded + Query(script, sql);
    }
  }

  lemma GuardedIsSound(script: Script, begun: seq<Event>, sql: Record, timeoutMs: nat)
    requires Sound(begun, sql, timeoutMs, false) && Unsent(begun) && Replay(begun) == Session(true, false, None)
    ensures var events := begun + Guarded(script, sql, timeoutMs);
            && Sound(events, sql, timeoutMs, false)
            && (Replay(events).inTransaction ==>
                  script.readOnly.Breaks? || script.timeout.Breaks? || script.statement.Refuses? || script.rollback.Breaks?)
            && (script.readOnly.Works? && script.timeout.Works? && script.statement.Records? && script.rollback.Breaks? ==>
                  RollbackFailed(events))
  {
    if script.readOnly.Breaks? {
      Push(begun, Event(SetReadOnly, false), sql, timeoutMs);
    } else {
      var timed := Event(SetTimeout(timeoutMs), script.timeout.Works?);
      Push2(begun, Event(SetReadOnly, true), timed, sql, timeoutMs);
      if script.timeout.Works? {
        QueryIsSound(script, begun + [Event(SetReadOnly, true), timed], sql, timeoutMs);
        assert begun + [Event(SetReadOnly, true), timed] + Query(script, sql) == begun + Guarded(script, sql, timeoutMs);
      }
    }
  }

  /** How the `try` block leaves the log and the session. */
  lemma AttemptedIsSound(script: Script, sql: Record, timeoutMs: nat)
    ensures var events := Attempted(script, sql, timeoutMs);
            && Sound(events, sql, timeoutMs, false)
            && (Replay(events).inTransaction ==> FirstError(script).Some?)
            && (Replay(events).inTransaction && !ActiveWhenCaught(script) ==> RollbackFailed(events))
  {
    if script.connect.Breaks? {
      Push([], Event(Connect, false), sql, timeoutMs);
      assert [] + [Event(Connect, false)] == Attempted(script, sql, timeoutMs);
    } else {
      var begun := [Event(Connect, true), Event(StartTransaction, script.start.Works?)];
      Push2([], begun[0], begun[1], sql, timeoutMs);
      assert [] + [begun[0], begun[1]] == begun;
      if script.start.Works? {
        GuardedIsSound(script, begun, sql, timeoutMs);
      }
    }
  }

  /** What `rollbackQuietly` and the release add to the log of the `try` block. */
  lemma FinishIsSound(attempted: seq<Event>, cleanup: bool, worked: bool, release: Event, sql: Record, timeoutMs: nat)
    requires Sound(attempted, sql, timeoutMs, false) && release.request.Release?
    requires Replay(attempted).inTransaction && !cleanup ==> RollbackFailed(attempted)
    ensures var events := attempted + (if cleanup then [Event(Rollback, worked)] else []) + [release];
            Sound(events, sql, timeoutMs, true) && (Replay(events).inTransaction ==> RollbackFailed(events))
  {
    if cleanup {
      var cleaned := attempted + [Event(Rollback, worked)];
      Push(attempted, Event(Rollback, worked), sql, timeoutMs);
      Push(cleaned, release, sql, timeoutMs);
      assert (cleaned + [release])[|attempted|] == Event(Rollback, worked);
    } else {
      Push(attempted, release, sql, timeoutMs);
      assert attempted + [] + [release] == attempted + [release];
      assert forall e :: e in attempted ==> e in attempted + [release];
    }
  }

  /**
   * Whatever fails - connect, start, either setting, the statement, either rollback,
   * the release - the log is sound, and a transaction is left open at release only if
   * a rollback was tried and failed.
   */
  lemma LifecycleIsSound(script: Script, sql: Record, timeoutMs: nat)
    ensures Sound(Lifecycle(script, sql, timeoutMs), sql, timeoutMs, true)
    ensures Replay(Lifecycle(script, sql, timeoutMs)).inTransaction ==> RollbackFailed(Lifecycle(script, sql, timeoutMs))
  {
    AttemptedIsSound(script, sql, timeoutMs);
    FinishIsSound(Attempted(script, sql, timeoutMs), FirstError(script).Some? && ActiveWhenCaught(script),
                  script.cleanup.Works?, Event(Release, script.release.Works?), sql, timeoutMs);
  }

  // ---------------------------------------------------------------- what a failure is reported as

  /** Which event of the log is the first that did not work. */
  ghost predicate FirstFailure(log: seq<Event>, i: nat)
  {
    i < |log| && !log[i].worked && forall j :: 0 <= j < i ==> log[j].worked
  }

  /** The error the driver answers that request with. A first failing rollback is the one after the statement. */
  function ErrorAt(script: Script, request: Request): (r: Option<DriverError>)
  {
    match request
    case Connect => ErrorOf(script.connect)
    case StartTransaction => ErrorOf(script.start)
    case SetReadOnly => ErrorOf(script.readOnly)
    case SetTimeout(_) => ErrorOf(script.timeout)
    case Send(_) => if script.statement.Refuses? then Some(script.statement.error) else None
    case Rollback => ErrorOf(script.rollback)
    case Release => ErrorOf(script.release)
    case Commit => None
  }

  function ErrorOf(attempt: Attempt): (r: Option<DriverError>)
  {
    if attempt.Breaks? then Some(attempt.error) else None
  }

  /** How the caller must learn of the error: by its code, and in its own words. */
  predicate Reports(execution: Execution, error: DriverError)
  {
    && execution.Failed?
    && (execution.reason.Timeout? <==> error.code == Some("57014"))
    && (execution.reason.ReadOnly? <==> error.code == Some("25006"))
    && execution.detail == error.detail
  }

  /**
   * Where the connection is released, the caller gets the rows if every request worked and
   * the statement was among them; otherwise it learns of the first request that failed, by
   * that request's own error, whatever the rollback that follows it does.
   */
  lemma FailuresAreReported(script: Script, sql: Record, settings: Settings, durationMs: nat)
    requires script.release.Works?
    ensures var log, execution := Lifecycle(script, sql, settings.timeoutMs), Executed(script, sql, settings, durationMs);
            && (execution.Returned? <==> forall i :: 0 <= i < |log| ==> log[i].worked)
            && (execution.Returned? ==> Event(Send(sql), true) in log)
            && (forall i: nat :: FirstFailure(log, i) ==>
                  ErrorAt(script, log[i].request).Some? && Reports(execution, ErrorAt(script, log[i].request).value))
  {
    var log := Lifecycle(script, sql, settings.timeoutMs);
    if FirstError(script).None? {
      assert log == [Event(Connect, true), Event(StartTransaction, true), Event(SetReadOnly, true),
                     Event(SetTimeout(settings.timeoutMs), true), Event(Send(sql), true), Event(Rollback, true), Event(Release, true)];
      assert log[4] == Event(Send(sql), true);
    } else {
      var n := FirstFailureIs(script, sql, settings.timeoutMs);
      assert forall i: nat :: FirstFailure(log, i) ==> i == n;
    }
  }

  lemma FirstFailureIs(script: Script, sql: Record, timeoutMs: nat) returns (n: nat)
    requires FirstError(script).Some?
    ensures var log := Lifecycle(script, sql, timeoutMs);
            FirstFailure(log, n) && ErrorAt(script, log[n].request) == FirstError(script)
  {
    var log, before := Lifecycle(script, sql, timeoutMs), Attempted(script, sql, timeoutMs);
    n := if script.connect.Breaks? then 0 else if script.start.Breaks? then 1 else if script.readOnly.Breaks? then 2
         else if script.timeout.Breaks? then 3 else if script.statement.Refuses? then 4 else 5;
    assert n < |before| && forall j :: 0 <= j <= n ==> log[j] == before[j];
  }
}
