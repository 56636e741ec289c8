/** The pipeline behind one question: every outcome reaches the audit trail. */
module Ask {
  import opened Sequences
  import opened JsonTree
  import opened Text
  import SqlReview
  import RowCap
  import SqlValidator
  import opened ConversationStore
  import opened ResultTypes
  import opened QueryAudit
  import Executor = QueryExecutor

  datatype AskRequest = AskRequest(question: string, conversationId: Option<string>, dryRun: bool, clientId: Option<string>)

  datatype Validation =
    | Valid(sql: Record, tables: seq<string>, rowLimit: nat, limitOrigin: RowCap.LimitOrigin)
    | Refused(violations: seq<SqlReview.Violation>)
    | Skipped

  /** What safety review makes of a proposed query; a rejection is a result, not an error. */
  function Review(generation: SqlGeneration, verdict: SqlValidator.Verdict): (r: Validation)
    ensures r.Skipped? <==> !generation.answerable
    ensures r.Valid? ==> verdict.Success? && r.sql == verdict.value.sql && r.tables == verdict.value.tables
    ensures r.Refused? ==> verdict.Failure? && r.violations == verdict.error
  {
    if !generation.answerable then Skipped
    else
      match verdict
      case Success(v) => Valid(v.sql, v.tables, v.rowLimit, v.limitOrigin)
      case Failure(violations) => Refused(violations)
  }

  /**
   * A proposed query is valid exactly when the answer carries one and safety review finds
   * nothing in it; what is then sent is bounded by the cap. A refusal always says why, and
   * only an answer without a query is skipped.
   */
  lemma ReviewFollowsSafety(generation: SqlGeneration, outcome: SqlValidator.ParseOutcome, schemaTables: seq<string>,
                            config: SqlValidator.SafetyConfig)
    ensures var review := Review(generation, SqlValidator.VerdictOn(generation.sql, outcome, schemaTables, config));
            && (review.Valid? <==>
                  generation.answerable && Trim(generation.sql) != "" && outcome.Parsed? && outcome.others == 0
                  && SqlValidator.Safe(outcome.first, outcome.tableList, schemaTables, config.rules))
            && (review.Valid? ==>
                  var bound := RowCap.ReadLimitNode(Get(review.sql, "limit")).limit;
                  && bound.Some? && bound.value <= config.maxRows
                  && review.sql == RowCap.CappedSql(outcome.first, config.maxRows)
                  && review.limitOrigin == RowCap.OriginOf(outcome.first, config.maxRows) && review.rowLimit == config.maxRows)
            && (review.Refused? ==> generation.answerable && review.violations != [])
            && (review.Skipped? <==> !generation.answerable)
  {
    SqlValidator.AcceptedExactlyWhenSafe(generation.sql, outcome, schemaTables, config);
  }

  datatype Generated = Generated(conversationId: string, generation: SqlGeneration, validation: Validation, model: string)

  datatype AskStatus = Answered | Unanswered | Rejection | Failure | DryRunOnly

  datatype AskResponse = AskResponse(
    status: AskStatus, conversationId: string, sql: Option<Statement>, result: Option<QueryResult>,
    violations: seq<SqlReview.Violation>, reason: Option<string>)

  /** `ask` answers, or rethrows an error that is a bug rather than a refusal. */
  datatype Conclusion = Responds(response: AskResponse) | Rethrows

  function ReasonText(reason: Executor.Failure): (r: string)
  {
    match reason
    case Timeout => "timeout"
    case ReadOnly => "read_only"
    case DatabaseError => "database_error"
  }

  function CodesText(violations: seq<SqlReview.Violation>): (r: string)
  {
    Join(Map(violations, (v: SqlReview.Violation) => SqlReview.CodeText(v.code)), ", ")
  }

  // ---------------------------------------------------------------- the outcome, as the specification

  predicate Executes(request: AskRequest, generated: Generated)
  {
    generated.validation.Valid? && !request.dryRun
  }

  function LineFor(request: AskRequest, generated: Generated, sql: Statement, tables: seq<string>, outcome: Outcome,
                   rowCount: Option<nat>, durationMs: Option<nat>, reason: Option<string>): (r: AuditEntry)
  {
    AuditEntry(generated.conversationId, request.clientId, request.question, sql, tables, outcome, rowCount, durationMs, reason)
  }

  /** What is written once generation is through: nothing yet, where the executor still has to run. */
  function LinesAtGeneration(request: AskRequest, generated: Generated): (r: seq<AuditEntry>)
  {
    match generated.validation
    case Skipped =>
      [LineFor(request, generated, Proposed(""), [], Outcome.Unanswerable, None, None, Some(generated.generation.explanation))]
    case Refused(violations) =>
      [LineFor(request, generated, Proposed(generated.generation.sql), generated.generation.tables, Outcome.Rejected, None, None,
               Some(CodesText(violations)))]
    case Valid(sql, tables, _, _) =>
      if request.dryRun then [LineFor(request, generated, Bounded(sql), tables, Outcome.DryRun, None, None, None)] else []
  }

  /** What is written once the executor is through; a formatter that throws comes after the success line. */
  function LinesAtExecution(request: AskRequest, generated: Generated, execution: Executor.Execution, formatterThrows: bool):
    (r: seq<AuditEntry>)
    requires generated.validation.Valid?
  {
    var sql, tables := generated.validation.sql, generated.validation.tables;
    match execution
    case Returned(result) =>
      [LineFor(request, generated, Bounded(sql), tables, Outcome.Succeeded, Some(result.rowCount), Some(result.durationMs), None)]
      + if formatterThrows
        then [LineFor(request, generated, Bounded(sql), tables, Outcome.Failed, None, None, Some("unexpected_error"))]
        else []
    case Failed(reason, _) =>
      [LineFor(request, generated, Bounded(sql), tables, Outcome.Failed, None, None, Some(ReasonText(reason)))]
    case Escaped(_) =>
      [LineFor(request, generated, Bounded(sql), tables, Outcome.Failed, None, None, Some("unexpected_error"))]
  }

  /** The lines a question adds to the trail. `execution` matters only where the executor runs. */
  function Lines(request: AskRequest, generated: Generated, execution: Executor.Execution, formatterThrows: bool): (r: seq<AuditEntry>)
  {
    if Executes(request, generated) then LinesAtExecution(request, generated, execution, formatterThrows)
    else LinesAtGeneration(request, generated)
  }

  function Concluded(request: AskRequest, generated: Generated, execution: Executor.Execution, formatterThrows: bool): (r: Conclusion)
  {
    var id := generated.conversationId;
    match generated.validation
    case Skipped => Responds(AskResponse(Unanswered, id, None, None, [], None))
    case Refused(violations) => Responds(AskResponse(Rejection, id, Some(Proposed(generated.generation.sql)), None, violations, None))
    case Valid(sql, _, _, _) =>
      if request.dryRun then Responds(AskResponse(DryRunOnly, id, Some(Bounded(sql)), None, [], None))
      else
        match execution
        case Returned(result) =>
          if formatterThrows then Rethrows else Responds(AskResponse(Answered, id, Some(Bounded(sql)), Some(result), [], None))
        case Failed(reason, _) => Responds(AskResponse(Failure, id, Some(Bounded(sql)), None, [], Some(ReasonText(reason))))
        case Escaped(_) => Rethrows
  }

  /** The outcome the trail must show for what the caller is told. */
  function OutcomeFor(conclusion: Conclusion): (r: Outcome)
  {
    match conclusion
    case Rethrows => Outcome.Failed
    case Responds(response) =>
      match response.status
      case Answered => Outcome.Succeeded
      case Unanswered => Outcome.Unanswerable
      case Rejection => Outcome.Rejected
      case Failure => Outcome.Failed
      case DryRunOnly => Outcome.DryRun
  }

  function Stamps(lines: seq<AuditEntry>, at: nat): (r: seq<Stamped>)
  {
    seq(|lines|, i requires 0 <= i < |lines| => Stamped(at, lines[i]))
  }

  // ---------------------------------------------------------------- one question, piece by piece

  /** How far a question has got, and what came of it. */
  datatype Phase =
    | Generating
    | Executing(generated: Generated)
    | GenerationThrew
    | EndedEarly(generated: Generated)
    | Ended(generated: Generated, execution: Executor.Execution, formatterThrows: bool)

  /** From generation to the next await, or to the answer; an error of generation's own is not caught. */
  function AfterGeneration(request: AskRequest, generated: Option<Generated>): (r: Phase)
  {
    match generated
    case None => GenerationThrew
    case Some(g) => if Executes(request, g) then Executing(g) else EndedEarly(g)
  }

  /** What a question in that phase has written so far. */
  function LinesSoFar(request: AskRequest, phase: Phase): (r: seq<AuditEntry>)
  {
    match phase
    case EndedEarly(g) => LinesAtGeneration(request, g)
    case Ended(g, execution, formatterThrows) =>
      if g.validation.Valid? then LinesAtExecution(request, g, execution, formatterThrows) else []
    case _ => []
  }

  /** What the caller is told, once it is. */
  function ConclusionSoFar(request: AskRequest, phase: Phase): (r: Option<Conclusion>)
  {
    match phase
    case GenerationThrew => Some(Rethrows)
    case EndedEarly(g) => Some(Concluded(request, g, Executor.Escaped(Executor.DriverError(None, "")), false))
    case Ended(g, execution, formatterThrows) => Some(Concluded(request, g, execution, formatterThrows))
    case _ => None
  }

  /** An `ask` in flight: what runs after each of its two awaits. */
  class AskCall {
    const request: AskRequest
    const audit: QueryAuditService
    var phase: Phase

    constructor (request: AskRequest, audit: QueryAuditService)
      ensures this.request == request && this.audit == audit && phase == Generating
    {
      this.request, this.audit, this.phase := request, audit, Generating;
    }

    method OnGenerated(generated: Option<Generated>, at: nat)
      requires audit.Valid() && phase == Generating
      modifies this, audit
      ensures audit.Valid() && phase == AfterGeneration(request, generated)
      ensures audit.history == old(audit.history) + Stamps(LinesSoFar(request, phase), at)
    {
      if generated.None? {
        phase := GenerationThrew;
        return;
      }
      var g := generated.value;
      match g.validation {
        case Skipped =>
          audit.Record(LineFor(request, g, Proposed(""), [], Outcome.Unanswerable, None, None, Some(g.generation.explanation)), at);
          phase := EndedEarly(g);
        case Refused(violations) =>
          audit.Record(LineFor(request, g, Proposed(g.generation.sql), g.generation.tables, Outcome.Rejected, None, None,
                               Some(CodesText(violations))), at);
          phase := EndedEarly(g);
        case Valid(sql, tables, _, _) =>
          if request.dryRun {
            audit.Record(LineFor(request, g, Bounded(sql), tables, Outcome.DryRun, None, None, None), at);
            phase := EndedEarly(g);
          } else {
            phase := Executing(g);
          }
      }
    }

    /** The success line and the formatter inside the `try`, and both catch branches. */
    method OnExecuted(execution: Executor.Execution, formatterThrows: bool, at: nat)
      requires audit.Valid() && phase.Executing? && Executes(request, phase.generated)
      modifies this, audit
      ensures audit.Valid() && phase == Ended(old(phase).generated, execution, formatterThrows)
      ensures audit.history == old(audit.history) + Stamps(LinesSoFar(request, phase), at)
    {
      var g := phase.generated;
      var sql, tables := g.validation.sql, g.validation.tables;
      phase := Ended(g, execution, formatterThrows);
      if execution.Returned? {
        var result := execution.result;
        audit.Record(LineFor(request, g, Bounded(sql), tables, Outcome.Succeeded, Some(result.rowCount), Some(result.durationMs), None), at);
        if !formatterThrows {
          return;
        }
      } else if execution.Failed? {
        audit.Record(LineFor(request, g, Bounded(sql), tables, Outcome.Failed, None, None, Some(ReasonText(execution.reason))), at);
        return;
      }
      audit.Record(LineFor(request, g, Bounded(sql), tables, Outcome.Failed, None, None, Some("unexpected_error")), at);
    }
  }

  // ---------------------------------------------------------------- the service

  class AskService {
    const audit: QueryAuditService
    const executor: Executor.QueryExecutorService

    constructor (audit: QueryAuditService, executor: Executor.QueryExecutorService)
      ensures this.audit == audit && this.executor == executor
    {
      this.audit, this.executor := audit, executor;
    }

    /** A question nothing comes between. `generated` is `None` when generation itself throws. */
    method Ask(request: AskRequest, generated: Option<Generated>, runner: Executor.QueryRunner, formatterThrows: bool,
               at: nat, durationMs: nat)
      returns (conclusion: Conclusion)
      requires audit.Valid() && runner.log == [] && !runner.isTransactionActive
      modifies audit, runner
      ensures audit.Valid()
      ensures generated.None? ==>
                conclusion == Rethrows && audit.history == old(audit.history) && runner.log == []
      ensures generated.Some? && Executes(request, generated.value) ==>
                runner.log == Executor.Lifecycle(runner.script, generated.value.validation.sql, executor.settings.timeoutMs)
      ensures generated.Some? && !Executes(request, generated.value) ==> runner.log == []
      ensures generated.Some? ==>
                var sql := if generated.value.validation.Valid? then generated.value.validation.sql else [];
                var execution := Executor.Executed(runner.script, sql, executor.settings, durationMs);
                && conclusion == Concluded(request, generated.value, execution, formatterThrows)
                && audit.history
                   == old(audit.history) + Stamps(Lines(request, generated.value, execution, formatterThrows), at)
    {
      var call := new AskCall(request, audit);
      call.OnGenerated(generated, at);
      if call.phase.Executing? {
        var execution := executor.Execute(runner, call.phase.generated.validation.sql, durationMs);
        call.OnExecuted(execution, formatterThrows, at);
      }
      conclusion := ConclusionSoFar(request, call.phase).value;
    }
  }

  /**
   * A concluded question adds exactly one line, of the outcome the caller is told (or
   * `failed` before a rethrow), except when the formatter throws after the rows are in:
   * then the success line is already written, and a `failed` line follows it.
   */
  lemma OneLinePerQuestion(request: AskRequest, generated: Generated, execution: Executor.Execution, formatterThrows: bool)
    ensures var lines := Lines(request, generated, execution, formatterThrows);
            var conclusion := Concluded(request, generated, execution, formatterThrows);
            var doubled := Executes(request, generated) && execution.Returned? && formatterThrows;
            && (|lines| == 1 <==> !doubled)
            && lines[|lines| - 1].outcome == OutcomeFor(conclusion)
            && (doubled ==> |lines| == 2 && lines[0].outcome == Outcome.Succeeded && lines[0].rowCount == Some(execution.result.rowCount))
            && (conclusion.Rethrows? ==> lines[|lines| - 1].reason == Some("unexpected_error"))
            && (forall i :: 0 <= i < |lines| ==>
                  lines[i].clientId == request.clientId && lines[i].question == request.question
                  && lines[i].conversationId == generated.conversationId)
            && (forall i :: 0 <= i < |lines| && generated.validation.Valid? ==>
                  lines[i].sql == Bounded(generated.validation.sql) && lines[i].tables == generated.validation.tables)
  {
    match generated.validation
    case Valid(sql, tables, _, _) =>
      if !request.dryRun {
        match execution
        case Returned(result) =>
        case Failed(reason, _) =>
        case Escaped(_) =>
      }
    case Refused(violations) =>
    case Skipped =>
  }

  /**
   * What the caller is told is this question's own: its conversation, every finding of its
   * review, the statement that was bounded, the executor's result or its reason; and an
   * error is rethrown only where the executor's escaped or the formatter threw.
   */
  lemma ResponsesTellWhatHappened(request: AskRequest, generated: Generated, execution: Executor.Execution, formatterThrows: bool)
    ensures var conclusion := Concluded(request, generated, execution, formatterThrows);
            var review, runs := generated.validation, generated.validation.Valid? && !request.dryRun;
            && (conclusion.Rethrows? <==> runs && (execution.Escaped? || (execution.Returned? && formatterThrows)))
            && (conclusion.Responds? ==>
                  var response := conclusion.response;
                  && response.conversationId == generated.conversationId
                  && (response.status.Unanswered? <==> review.Skipped?)
                  && (response.status.Rejection? <==> review.Refused?)
                  && (response.status.DryRunOnly? <==> review.Valid? && request.dryRun)
                  && (response.status.Answered? <==> runs && execution.Returned?)
                  && (response.status.Failure? <==> runs && execution.Failed?)
                  && response.violations == (if review.Refused? then review.violations else [])
                  && response.sql == (match review
                                      case Skipped => None
                                      case Refused(_) => Some(Proposed(generated.generation.sql))
                                      case Valid(sql, _, _, _) => Some(Bounded(sql)))
                  && (response.result.Some? <==> response.status.Answered?)
                  && (response.result.Some? ==> response.result.value == execution.result)
                  && (response.reason.Some? <==> response.status.Failure?)
                  && (response.reason.Some? ==>
                        && (response.reason.value == "timeout" <==> execution.reason.Timeout?)
                        && (response.reason.value == "read_only" <==> execution.reason.ReadOnly?)
                        && (response.reason.value == "database_error" <==> execution.reason.DatabaseError?)))
  {
  }

  /** The line agrees with the response: the same statement, the same rows, the same reason. */
  predicate Agrees(line: AuditEntry, response: AskResponse, generated: Generated)
  {
    && line.conversationId == response.conversationId
    && line.sql == (if response.sql.Some? then response.sql.value else Proposed(""))
    && line.rowCount == (if response.result.Some? then Some(response.result.value.rowCount) else None)
    && line.durationMs == (if response.result.Some? then Some(response.result.value.durationMs) else None)
    && match response.status
       case Unanswered => line.tables == [] && line.reason == Some(generated.generation.explanation)
       case Rejection => line.tables == generated.generation.tables && line.reason.Some? && NamesEach(line.reason.value, response.violations)
       case Failure => line.reason == response.reason
       case Answered => line.reason.None?
       case DryRunOnly => line.reason.None?
  }

  /** The codes of the findings in order, a comma and a blank between them. */
  predicate NamesEach(text: string, violations: seq<SqlReview.Violation>)
  {
    match |violations|
    case 0 => text == ""
    case 1 => text == SqlReview.CodeText(violations[0].code)
    case _ =>
      var first := SqlReview.CodeText(violations[0].code) + ", ";
      first <= text && NamesEach(text[|first|..], violations[1..])
  }

  lemma {:induction false} CodesNameEach(violations: seq<SqlReview.Violation>)
    ensures NamesEach(CodesText(violations), violations)
  {
    if |violations| > 1 {
      var first, code := SqlReview.CodeText(violations[0].code) + ", ", (v: SqlReview.Violation) => SqlReview.CodeText(v.code);
      CodesNameEach(violations[1..]);
      assert Map(violations, code)[1..] == Map(violations[1..], code);
      assert CodesText(violations) == first + CodesText(violations[1..]);
    }
  }

  /** The last line a question writes says what its caller is told. */
  lemma ResponsesAgreeWithTheTrail(request: AskRequest, generated: Generated, execution: Executor.Execution, formatterThrows: bool)
    ensures var lines := Lines(request, generated, execution, formatterThrows);
            var conclusion := Concluded(request, generated, execution, formatterThrows);
            lines != [] && (conclusion.Responds? ==> Agrees(lines[|lines| - 1], conclusion.response, generated))
  {
    if generated.validation.Refused? {
      CodesNameEach(generated.validation.violations);
    }
  }

  /**
   * A statement the database cut off after its time is answered and audited as a timeout, a
   * write as a violation of read-only mode, whatever the rollback after it does.
   */
  lemma FailuresReachTheTrail(request: AskRequest, generated: Generated, script: Executor.Script, settings: Executor.Settings,
                              durationMs: nat, formatterThrows: bool, i: nat)
    requires generated.validation.Valid? && !request.dryRun && script.release.Works?
    requires Executor.FirstFailure(Executor.Lifecycle(script, generated.validation.sql, settings.timeoutMs), i)
    ensures var log := Executor.Lifecycle(script, generated.validation.sql, settings.timeoutMs);
            var execution := Executor.Executed(script, generated.validation.sql, settings, durationMs);
            var lines, error := Lines(request, generated, execution, formatterThrows), Executor.ErrorAt(script, log[i].request);
            var conclusion := Concluded(request, generated, execution, formatterThrows);
            && error.Some? && |lines| == 1 && conclusion.Responds? && lines[0].reason == conclusion.response.reason
            && lines[0].outcome == Outcome.Failed
            && (lines[0].reason == Some("timeout") <==> error.value.code == Some("57014"))
            && (lines[0].reason == Some("read_only") <==> error.value.code == Some("25006"))
            && (lines[0].reason == Some("database_error") <==> error.value.code !in {Some("57014"), Some("25006")})
  {
    var execution := Executor.Executed(script, generated.validation.sql, settings, durationMs);
    Executor.FailuresAreReported(script, generated.validation.sql, settings, durationMs);
    ResponsesTellWhatHappened(request, generated, execution, formatterThrows);
    ResponsesAgreeWithTheTrail(request, generated, execution, formatterThrows);
    OneLinePerQuestion(request, generated, execution, formatterThrows);
  }
}
