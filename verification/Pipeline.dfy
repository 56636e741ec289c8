/** From an accepted query to the rows a caller receives: validator, executor and `ask` together. */
module Pipeline {
  import opened Sequences
  import JsonTree
  import opened SqlValidator
  import opened Queries
  import opened BoundedQueries
  import opened ReviewedQueries
  import opened ResultTypes
  import opened RowBounds
  import Executor = QueryExecutor
  import opened Ask

  /** The driver sends back the rows the statement evaluates to, each rendered as a record. */
  ghost predicate AnswersFrom(script: Executor.Script, rows: Rows, render: Row -> DbRow)
  {
    script.statement.Records? ==> script.statement.records == Map(rows, render)
  }

  /** The rows the database sends back for the statement that ran, and what `ask` makes of them. */
  function Answer(request: AskRequest, generated: Generated, script: Executor.Script, settings: Executor.Settings,
                  durationMs: nat): (r: Option<QueryResult>)
    requires generated.validation.Valid?
  {
    match Concluded(request, generated, Executor.Executed(script, generated.validation.sql, settings, durationMs), false)
    case Responds(response) => if response.status.Answered? then response.result else None
    case Rethrows => None
  }

  /**
   * A question answered for an accepted query returns exactly the first `maxRows` rows of
   * the query the model wrote, wherever the cap is exact.
   */
  lemma AnswersAreTheFirstRows(
    text: string, q: Query, tableList: seq<string>, schemaTables: seq<string>, config: SafetyConfig,
    sql: Interpretation, db: Database, render: Row -> DbRow,
    request: AskRequest, generated: Generated, script: Executor.Script, settings: Executor.Settings, durationMs: nat)
    requires config.maxRows >= 1 && settings.maxRows == config.maxRows && ExactOn(q, config.maxRows, sql, db)
    requires AnswersFrom(script, Eval(Bounded(q, config.maxRows), sql, db, map[]), render)
    requires generated.validation.Valid?
    ensures generated.validation
            == Review(generated.generation, VerdictOn(text, Parsed(Encode(q), 0, tableList), schemaTables, config)) ==>
              var answer := Answer(request, generated, script, settings, durationMs);
              && generated.validation.sql == Encode(Bounded(q, config.maxRows))
              && (answer.Some? ==> answer.value.rows == Map(FirstN(Eval(q, sql, db, map[]), config.maxRows), render))
  {
    TheVerdictCarriesTheBoundedQuery(text, q, tableList, schemaTables, config);
    BoundedMeansFirstRows(q, config.maxRows, sql, db);
    AnsweredRows(request, generated, script, settings, durationMs);
  }

  /**
   * Whatever the query, the rows answered are no more than `maxRows` and `truncated` is
   * false: the statement itself was bounded, so rows the cap cut away are never seen.
   */
  lemma TruncatedIsNeverTrue(
    q: Query, sql: Interpretation, db: Database, render: Row -> DbRow,
    request: AskRequest, generated: Generated, script: Executor.Script, settings: Executor.Settings, durationMs: nat)
    requires generated.validation.Valid?
    requires AnswersFrom(script, Eval(Bounded(q, settings.maxRows), sql, db, map[]), render)
    ensures var answer := Answer(request, generated, script, settings, durationMs);
            answer.Some? ==>
              |answer.value.rows| <= settings.maxRows && !answer.value.truncated
  {
    BoundedIsShort(q, settings.maxRows, sql, db);
    AnsweredRows(request, generated, script, settings, durationMs);
  }

  /** A driver whose every call works. */
  function AllWorks(records: seq<DbRow>): (r: Executor.Script)
  {
    Executor.Script(Executor.Works, Executor.Works, false, Executor.Works, Executor.Works, Executor.Records(records),
                    Executor.Works, false, Executor.Works, Executor.Works)
  }

  /** When every call works, `truncated` says whether the query the model wrote has more rows than were answered. */
  ghost predicate FlagIsRight(q: Query, sql: Interpretation, db: Database, render: Row -> DbRow,
                              request: AskRequest, generated: Generated, settings: Executor.Settings, durationMs: nat)
    requires generated.validation.Valid?
  {
    var script := AllWorks(Map(Eval(Bounded(q, settings.maxRows), sql, db, map[]), render));
    var answer := Answer(request, generated, script, settings, durationMs);
    answer.Some? && (answer.value.truncated <==> |Eval(q, sql, db, map[])| > settings.maxRows)
  }

  /** The flag can be relied on, whatever the database holds, exactly when the query's text keeps it within the cap. */
  lemma TruncatedIsReliableExactlyWhen(
    q: Query, rounds: nat, render: Row -> DbRow,
    request: AskRequest, generated: Generated, settings: Executor.Settings, durationMs: nat)
    requires generated.validation.Valid? && !request.dryRun
    ensures (forall sql: Interpretation, db: Database :: sql.rounds == rounds ==>
               FlagIsRight(q, sql, db, render, request, generated, settings, durationMs))
       <==> ReachFits(q, settings.maxRows, rounds)
  {
    forall sql: Interpretation, db: Database
      ensures FlagIsRight(q, sql, db, render, request, generated, settings, durationMs)
         <==> |Eval(q, sql, db, map[])| <= settings.maxRows
    {
      FlagIsFalse(q, sql, db, render, request, generated, settings, durationMs);
    }
    AlwaysFitsExactlyWhen(q, settings.maxRows, rounds);
  }

  lemma FlagIsFalse(q: Query, sql: Interpretation, db: Database, render: Row -> DbRow,
                    request: AskRequest, generated: Generated, settings: Executor.Settings, durationMs: nat)
    requires generated.validation.Valid? && !request.dryRun
    ensures var script := AllWorks(Map(Eval(Bounded(q, settings.maxRows), sql, db, map[]), render));
            var answer := Answer(request, generated, script, settings, durationMs);
            answer.Some? && !answer.value.truncated
  {
    BoundedIsShort(q, settings.maxRows, sql, db);
    AnsweredRows(request, generated, AllWorks(Map(Eval(Bounded(q, settings.maxRows), sql, db, map[]), render)), settings, durationMs);
  }

  /** `SELECT * FROM t` over a table longer than the cap: rows are cut, and nothing says so. */
  lemma CutRowsGoUnflagged(
    t: string, sql: Interpretation, db: Database, render: Row -> DbRow,
    request: AskRequest, generated: Generated, settings: Executor.Settings, durationMs: nat)
    requires generated.validation.Valid? && !request.dryRun
    requires 1 <= settings.maxRows < |db(TableId("", t))|
    ensures var q := OneTableQuery(t);
            var script := AllWorks(Map(Eval(Bounded(q, settings.maxRows), sql, db, map[]), render));
            var answer := Answer(request, generated, script, settings, durationMs);
            && answer.Some? && |answer.value.rows| == settings.maxRows < |Eval(q, sql, db, map[])|
            && !answer.value.truncated
  {
    var q := OneTableQuery(t);
    OneTable(t, sql, db, map[]);
    DocumentedShapesAreExact(NO_LIMIT, settings.maxRows, sql, db, WithScope(q, sql, db, map[]));
    BoundedMeansFirstRows(q, settings.maxRows, sql, db);
    var rows := Eval(Bounded(q, settings.maxRows), sql, db, map[]);
    AnsweredRows(request, generated, AllWorks(Map(rows, render)), settings, durationMs);
  }

  lemma AnsweredRows(request: AskRequest, generated: Generated, script: Executor.Script, settings: Executor.Settings, durationMs: nat)
    requires generated.validation.Valid?
    requires script.statement.Records? ==> |script.statement.records| <= settings.maxRows
    ensures var answer := Answer(request, generated, script, settings, durationMs);
            answer.Some? ==> script.statement.Records? && answer.value.rows == script.statement.records && !answer.value.truncated
  {
    if Executor.Executed(script, generated.validation.sql, settings, durationMs).Returned? {
      ShortRepliesAreReturnedWhole(script, generated.validation.sql, settings, durationMs);
    }
  }

  lemma ShortRepliesAreReturnedWhole(script: Executor.Script, sql: JsonTree.Record, settings: Executor.Settings, durationMs: nat)
    requires Executor.Executed(script, sql, settings, durationMs).Returned?
    requires script.statement.Records? && |script.statement.records| <= settings.maxRows
    ensures var result := Executor.Executed(script, sql, settings, durationMs).result;
            result.rows == script.statement.records && !result.truncated
  {
  }
}
