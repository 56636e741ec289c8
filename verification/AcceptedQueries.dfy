/** Which queries of the language the review accepts, and when it accepts them a second time. */
module AcceptedQueries {
  import opened Sequences
  import opened Text
  import opened JsonTree
  import opened SqlReview
  import opened SqlValidator
  import opened Queries
  import opened BoundedQueries
  import opened EncodedTrees
  import opened ReviewedQueries
  import opened Distinct

  // ---------------------------------------------------------------- harmless queries

  ghost predicate SafeTree(tree: Json)
  {
    AllHarmless(Walk(tree))
  }

  /** No expression of the query, at any depth, holds a node the review objects to. */
  ghost predicate SafeQuery(q: Query)
    decreases q
  {
    && OwnExpressionsSafe(q)
    && (forall at :: Holds(q, at) ==> SafeQuery(Inner(q, at)))
  }

  ghost predicate OwnExpressionsSafe(q: Query)
  {
    && (q.shape.Expressions? ==> SafeTree(q.shape.tree))
    && (forall part :: TermAt(q, part).Computed? ==> SafeTree(TermAt(q, part).expr))
  }

  lemma SafeExpressionsHoldNoOther(q: Query)
    ensures OwnExpressionsSafe(q) <==> forall node :: OwnNode(q, node) ==> HarmlessNode(node)
  {
    if forall node :: OwnNode(q, node) ==> HarmlessNode(node) {
      forall part, node | TermAt(q, part).Computed? && node in Walk(TermAt(q, part).expr) ensures HarmlessNode(node) {
        assert OwnNode(q, node);
      }
    }
  }

  lemma RootIsHarmless(q: Query)
    ensures HarmlessNode(Encode(q))
  {
    EncodeProperties(q);
    SelectsAreHarmless(Encode(q));
  }

  lemma SelectsAreHarmless(node: Record)
    requires Get(node, "type") == Some(Str("select")) && Get(node, "into").None?
    ensures HarmlessNode(node)
  {
    PlainWords();
  }

  lemma EncodedIsSafe(q: Query)
    ensures SafeTree(Obj(Encode(q))) <==>
            OwnExpressionsSafe(q) && forall at :: Holds(q, at) ==> SafeTree(Obj(Encode(Inner(q, at))))
  {
    SafeExpressionsHoldNoOther(q);
    if SafeTree(Obj(Encode(q))) {
      forall node | OwnNode(q, node) || InnerNode(q, node) ensures HarmlessNode(node) {
        EncodedNodes(q, node);
      }
      forall at, node | Holds(q, at) && node in Walk(Obj(Encode(Inner(q, at)))) ensures HarmlessNode(node) {
        assert InnerNode(q, node);
      }
    }
    if OwnExpressionsSafe(q) && forall at :: Holds(q, at) ==> SafeTree(Obj(Encode(Inner(q, at)))) {
      forall node | node in Walk(Obj(Encode(q))) ensures HarmlessNode(node) {
        EncodedNodes(q, node);
        RootIsHarmless(q);
        if Glue(node) {
          GlueIsHarmless(node);
        }
      }
    }
  }

  /** The tree of a query is harmless exactly when its expressions are, at every depth. */
  lemma {:induction false} SafeQueriesHaveSafeTrees(q: Query)
    ensures SafeTree(Obj(Encode(q))) <==> SafeQuery(q)
    decreases q
  {
    EncodedIsSafe(q);
    forall at | Holds(q, at) ensures SafeTree(Obj(Encode(Inner(q, at)))) <==> SafeQuery(Inner(q, at)) {
      SafeQueriesHaveSafeTrees(Inner(q, at));
    }
  }

  /**
   * A query is accepted exactly when its expressions hold nothing forbidden and every
   * table it refers to, CTE names aside, passes the gate. Nothing else is held against it:
   * no WITH, derived table, sub-query or set operation is refused for what it is.
   */
  lemma QueriesAreAcceptedExactlyWhen(text: string, q: Query, tableList: seq<string>, schemaTables: seq<string>, config: SafetyConfig)
    requires Trim(text) != "" && Plain(q) && Reports(tableList, q)
    ensures VerdictOn(text, Parsed(Encode(q), 0, tableList), schemaTables, config).Success? <==>
            SafeQuery(q) && forall name :: name in GlobalBase(q) ==> TablePasses(name, KnownNames(schemaTables), config.rules)
  {
    var known := KnownNames(schemaTables);
    DropsNoKind(Findings(Encode(q), tableList, known, config.rules), ByKey());
    FindingsEmpty(Encode(q), tableList, known, config.rules);
    SafeQueriesHaveSafeTrees(q);
    EncodeProperties(q);
    forall name ensures name in BaseTables(tableList, CteNames(Obj(Encode(q)))) <==> name in GlobalBase(q) {
      BaseTablesAreGlobal(q, tableList, name);
    }
  }

  // ---------------------------------------------------------------- where the review says less than it seems to

  /** The tables a verdict reports: the query's references, less the CTE names the bounded query still has. */
  lemma FirstTables(text: string, q: Query, tableList: seq<string>, schemaTables: seq<string>, config: SafetyConfig, name: string)
    requires Trim(text) != "" && Plain(q) && Reports(tableList, q)
    ensures var verdict := VerdictOn(text, Parsed(Encode(q), 0, tableList), schemaTables, config);
            verdict.Success? ==>
              (name in verdict.value.tables <==> name in RefNames(q) - Introduced(Bounded(q, config.maxRows)))
  {
    ReportedNames(tableList, Refs(q), name);
    KeptCtesAreTheBoundedOnes(q, config.maxRows, name);
    BaseTablesMember(tableList, KeptCtes(Encode(q), config.maxRows), name);
  }

  /** A name only the overwritten limit introduces: unchecked, reported, and checked the second time. */
  lemma HiddenThenRejected(text: string, again: string, q: Query, tableList: seq<string>, relisted: seq<string>,
                           schemaTables: seq<string>, config: SafetyConfig, name: string)
    requires Trim(text) != "" && Trim(again) != "" && Plain(q) && SafeQuery(q)
    requires Reports(tableList, q) && Reports(relisted, Bounded(q, config.maxRows))
    requires AllPass(RefNames(q) - Introduced(q), schemaTables, config.rules)
    requires name in RefNames(Bounded(q, config.maxRows)) * Introduced(q) - Introduced(Bounded(q, config.maxRows))
    requires !TablePasses(name, KnownNames(schemaTables), config.rules)
    ensures var first := VerdictOn(text, Parsed(Encode(q), 0, tableList), schemaTables, config);
            && first.Success? && name in first.value.tables
            && VerdictOn(again, Parsed(Encode(Bounded(q, config.maxRows)), 0, relisted), schemaTables, config).Failure?
  {
    QueriesAreAcceptedExactlyWhen(text, q, tableList, schemaTables, config);
    BoundedRefersToNoMore(q, config.maxRows);
    FirstTables(text, q, tableList, schemaTables, config, name);
    BoundedQueriesRevalidate(text, again, q, tableList, relisted, schemaTables, config);
  }

  /** A name only the overwritten limit refers to: reported the first time and not the second. */
  lemma ReportedOnce(text: string, again: string, q: Query, tableList: seq<string>, relisted: seq<string>,
                     schemaTables: seq<string>, config: SafetyConfig, name: string)
    requires Trim(text) != "" && Trim(again) != "" && Plain(q) && SafeQuery(q)
    requires Reports(tableList, q) && Reports(relisted, Bounded(q, config.maxRows))
    requires AllPass(RefNames(q), schemaTables, config.rules)
    requires name in RefNames(q) && name !in Introduced(q) && name !in RefNames(Bounded(q, config.maxRows))
    ensures var first := VerdictOn(text, Parsed(Encode(q), 0, tableList), schemaTables, config);
            var second := VerdictOn(again, Parsed(Encode(Bounded(q, config.maxRows)), 0, relisted), schemaTables, config);
            && first.Success? && name in first.value.tables
            && second.Success? && name !in second.value.tables
  {
    QueriesAreAcceptedExactlyWhen(text, q, tableList, schemaTables, config);
    BoundedRefersToNoMore(q, config.maxRows);
    FirstTables(text, q, tableList, schemaTables, config, name);
    BoundedQueriesRevalidate(text, again, q, tableList, relisted, schemaTables, config);
  }

  function ReportOf(tables: seq<string>): (r: seq<string>)
  {
    seq(|tables|, i requires 0 <= i < |tables| => Entry(TableId("", tables[i])))
  }

  /** A table's name as the report gives it and the lists spell it. */
  predicate Simple(t: string)
  {
    t != "" && ':' !in t && Lower(t) == t
  }

  lemma ReportListsTheNames(tables: seq<string>, q: Query)
    requires forall t :: t in tables ==> Simple(t)
    requires Refs(q) == iset t | t in tables :: TableId("", t)
    ensures Reports(ReportOf(tables), q)
    ensures RefNames(q) == iset t | t in tables
  {
    forall t | t in tables ensures Entry(TableId("", t)) in ReportOf(tables) {
      var i :| 0 <= i < |tables| && tables[i] == t;
      assert ReportOf(tables)[i] == Entry(TableId("", t));
    }
    forall t | t in tables ensures t in RefNames(q) {
      assert TableId("", t) in Refs(q) && Lower(t) == t;
    }
    forall i | 0 <= i < |tables| ensures TableId("", tables[i]) in Refs(q) && ReportOf(tables)[i] == Entry(TableId("", tables[i])) {
      assert tables[i] in tables;
    }
  }

  lemma OneNameReported(t: string, q: Query)
    requires Simple(t) && Refs(q) == iset{TableId("", t)}
    ensures Reports(ReportOf([t]), q) && RefNames(q) == iset{t}
  {
    assert forall name :: name in [t] <==> name == t;
    ReportListsTheNames([t], q);
  }

  lemma TwoNamesReported(t: string, x: string, q: Query)
    requires Simple(t) && Simple(x) && Refs(q) == iset{TableId("", t)} + iset{TableId("", x)}
    ensures Reports(ReportOf([t, x]), q) && RefNames(q) == iset{t, x}
  {
    assert forall name :: name in [t, x] <==> name == t || name == x;
    ReportListsTheNames([t, x], q);
  }

  lemma OneTableParts(t: string)
    ensures Plain(OneTableQuery(t)) && SafeQuery(OneTableQuery(t))
    ensures Refs(OneTableQuery(t)) == iset{TableId("", t)} && Introduced(OneTableQuery(t)) == iset{}
  {
    var q := OneTableQuery(t);
    assert forall at :: !Holds(q, at);
    assert forall i :: Names(q, i) <==> i == 0;
    assert Named(q, 0) == TableId("", t);
  }

  /** `WITH t AS (SELECT * FROM t) SELECT * FROM t` reads and reports one table, under its own name. */
  lemma SelfNamedParts(t: string)
    ensures Plain(SelfNamedCte(t)) && SafeQuery(SelfNamedCte(t))
    ensures Refs(SelfNamedCte(t)) == iset{TableId("", t)} && Introduced(SelfNamedCte(t)) == iset{Lower(t)}
  {
    var q := SelfNamedCte(t);
    OneTableParts(t);
    assert forall at :: Holds(q, at) <==> at == InWith(0);
    assert Inner(q, InWith(0)) == OneTableQuery(t);
    assert forall i :: Names(q, i) <==> i == 0;
    assert Named(q, 0) == TableId("", t);
    assert q.ctes[0].name == t;
  }

  /**
   * Why the condition on shadowed reads is needed: this statement is accepted whatever the
   * gate says of `t`, and returns different rows for two databases that differ in `t` alone.
   */
  lemma SelfNamedCteIsNotChecked(text: string, t: string, schemaTables: seq<string>, config: SafetyConfig,
                                 sql: Interpretation, db1: Database, db2: Database)
    requires Trim(text) != "" && Simple(t) && config.maxRows >= 1
    requires FirstN(db1(TableId("", t)), config.maxRows) != FirstN(db2(TableId("", t)), config.maxRows)
    ensures var q := SelfNamedCte(t);
            && VerdictOn(text, Parsed(Encode(q), 0, ReportOf([t])), schemaTables, config).Success?
            && Eval(Bounded(q, config.maxRows), sql, db1, map[]) != Eval(Bounded(q, config.maxRows), sql, db2, map[])
  {
    SelfNamedCteIsAccepted(text, t, schemaTables, config);
    SelfNamedCteFirstRows(t, config.maxRows, sql, db1);
    SelfNamedCteFirstRows(t, config.maxRows, sql, db2);
  }

  lemma SelfNamedCteIsAccepted(text: string, t: string, schemaTables: seq<string>, config: SafetyConfig)
    requires Trim(text) != "" && Simple(t)
    ensures VerdictOn(text, Parsed(Encode(SelfNamedCte(t)), 0, ReportOf([t])), schemaTables, config).Success?
  {
    SelfNamedParts(t);
    OneNameReported(t, SelfNamedCte(t));
    QueriesAreAcceptedExactlyWhen(text, SelfNamedCte(t), ReportOf([t]), schemaTables, config);
  }

  lemma SelfNamedCteFirstRows(t: string, max: nat, sql: Interpretation, db: Database)
    requires max >= 1
    ensures Eval(Bounded(SelfNamedCte(t), max), sql, db, map[]) == FirstN(db(TableId("", t)), max)
  {
    var q := SelfNamedCte(t);
    SelfNamedCteEvaluates(t, sql, db);
    DocumentedShapesAreExact(NO_LIMIT, max, sql, db, WithScope(q, sql, db, map[]));
    BoundedMeansFirstRows(q, max, sql, db);
  }

  /** `SELECT * FROM schema.t`. */
  function QualifiedQuery(schema: string, t: string): (r: Query)
  {
    OneTableQuery(t).(sources := [Table(schema, t)])
  }

  lemma QualifiedParts(schema: string, t: string)
    requires schema != "" && ':' !in schema && Simple(t)
    ensures var q := QualifiedQuery(schema, t);
            && Plain(q) && SafeQuery(q) && Reports([Entry(TableId(schema, t))], q)
            && Refs(q) == iset{TableId(schema, t)} && RefNames(q) == iset{t}
  {
    var q := QualifiedQuery(schema, t);
    assert forall at :: !Holds(q, at);
    assert forall i :: Names(q, i) <==> i == 0;
    assert Named(q, 0) == TableId(schema, t);
    assert Refs(q) == iset{TableId(schema, t)};
  }

  lemma QualifiedEvaluates(schema: string, t: string, sql: Interpretation, db: Database)
    requires schema != ""
    ensures Eval(QualifiedQuery(schema, t), sql, db, map[]) == db(TableId(schema, t))
  {
    var q := QualifiedQuery(schema, t);
    assert WithScope(q, sql, db, map[]) == map[];
    assert q.sources[0] == Table(schema, t);
    assert EvalSource(q.sources[0], sql, db, map[]) == db(TableId(schema, t));
    assert SourceRows(q, sql, db, map[]) == [db(TableId(schema, t))];
    LiteralCut(NO_LIMIT, sql, db, map[]);
  }

  /**
   * Why the condition on schemas is needed: a table is judged by its bare name, so one of a
   * schema nobody introspected is accepted on the strength of its namesake, and two databases
   * that differ in it alone give different rows.
   */
  lemma OtherSchemasAreNotChecked(text: string, schema: string, t: string, snapshot: seq<TableId>, config: SafetyConfig,
                                  sql: Interpretation, db1: Database, db2: Database)
    requires Trim(text) != "" && schema != "" && ':' !in schema && Simple(t)
    requires TablePasses(t, KnownNames(NamesOf(snapshot)), config.rules) && !InSnapshot(TableId(schema, t), snapshot)
    requires forall other :: other != TableId(schema, t) ==> db1(other) == db2(other)
    requires db1(TableId(schema, t)) != db2(TableId(schema, t))
    ensures var q := QualifiedQuery(schema, t);
            && VerdictOn(text, Parsed(Encode(q), 0, [Entry(TableId(schema, t))]), NamesOf(snapshot), config).Success?
            && AgreeOn(db1, db2, Permitted(snapshot, config.rules))
            && Eval(q, sql, db1, map[]) != Eval(q, sql, db2, map[])
  {
    QualifiedParts(schema, t);
    QueriesAreAcceptedExactlyWhen(text, QualifiedQuery(schema, t), [Entry(TableId(schema, t))], NamesOf(snapshot), config);
    QualifiedEvaluates(schema, t, sql, db1);
    QualifiedEvaluates(schema, t, sql, db2);
  }

  /** `SELECT * FROM t LIMIT (inner)`. */
  function LimitedBy(t: string, inner: Query): (r: Query)
  {
    OneTableQuery(t).(limit := Limit(Computed(Null, [inner])))
  }

  lemma LimitedByParts(t: string, inner: Query)
    requires Plain(inner) && SafeQuery(inner)
    ensures Plain(LimitedBy(t, inner)) && SafeQuery(LimitedBy(t, inner))
    ensures Refs(LimitedBy(t, inner)) == iset{TableId("", t)} + Refs(inner)
    ensures Introduced(LimitedBy(t, inner)) == Introduced(inner)
  {
    var q := LimitedBy(t, inner);
    assert CteNames(Null) == {};
    assert forall at :: Holds(q, at) <==> at == InLimit(Bound, 0);
    assert Inner(q, InLimit(Bound, 0)) == inner;
    assert forall i :: Names(q, i) <==> i == 0;
    assert Named(q, 0) == TableId("", t);
  }

  /** Once bounded, nothing is left of the query inside the limit. */
  lemma BoundedLimitedBy(t: string, inner: Query, max: nat)
    ensures Refs(Bounded(LimitedBy(t, inner), max)) == iset{TableId("", t)}
    ensures Introduced(Bounded(LimitedBy(t, inner), max)) == iset{}
  {
    var b := Bounded(LimitedBy(t, inner), max);
    assert b == OneTableQuery(t).(limit := Limit(Literal(max)));
    assert forall at :: !Holds(b, at);
    assert forall i :: Names(b, i) <==> i == 0;
    assert Named(b, 0) == TableId("", t);
  }

  /** `WITH t AS (SELECT * FROM t) SELECT * FROM t` as the limit of a query on `t`. */
  function LimitedByWith(t: string): (r: Query)
  {
    LimitedBy(t, SelfNamedCte(t))
  }

  /**
   * A WITH clause inside the limit keeps a table from the check, and the table is reported
   * afterwards: a statement that was accepted is rejected when it is reviewed again. `t` is
   * any table the gate does not pass.
   */
  lemma WithInsideLimitIsForgotten(text: string, again: string, t: string, schemaTables: seq<string>, config: SafetyConfig)
    requires Trim(text) != "" && Trim(again) != "" && Simple(t)
    requires !TablePasses(t, KnownNames(schemaTables), config.rules)
    ensures var q := LimitedByWith(t);
            var first := VerdictOn(text, Parsed(Encode(q), 0, ReportOf([t])), schemaTables, config);
            && first.Success? && t in first.value.tables
            && Reports(ReportOf([t]), q) && Reports(ReportOf([t]), Bounded(q, config.maxRows))
            && VerdictOn(again, Parsed(Encode(Bounded(q, config.maxRows)), 0, ReportOf([t])), schemaTables, config).Failure?
  {
    LimitedByWithFacts(t, config.maxRows);
    HiddenThenRejected(text, again, LimitedByWith(t), ReportOf([t]), ReportOf([t]), schemaTables, config, t);
  }

  lemma LimitedByWithFacts(t: string, max: nat)
    requires Simple(t)
    ensures var q := LimitedByWith(t);
            && Plain(q) && SafeQuery(q) && Reports(ReportOf([t]), q) && Reports(ReportOf([t]), Bounded(q, max))
            && RefNames(q) - Introduced(q) == iset{}
            && t in RefNames(Bounded(q, max)) * Introduced(q) - Introduced(Bounded(q, max))
  {
    SelfNamedParts(t);
    LimitedByParts(t, SelfNamedCte(t));
    BoundedLimitedBy(t, SelfNamedCte(t), max);
    OneNameReported(t, LimitedByWith(t));
    OneNameReported(t, Bounded(LimitedByWith(t), max));
  }

  /**
   * A table read only inside the overwritten limit is reported by the first review and not
   * by the second: `SELECT * FROM t LIMIT (SELECT * FROM x)`.
   */
  lemma LimitTablesAreReportedOnce(text: string, again: string, t: string, x: string, schemaTables: seq<string>, config: SafetyConfig)
    requires Trim(text) != "" && Trim(again) != "" && Simple(t) && Simple(x) && t != x
    requires TablePasses(t, KnownNames(schemaTables), config.rules) && TablePasses(x, KnownNames(schemaTables), config.rules)
    ensures var q := LimitedBy(t, OneTableQuery(x));
            var first := VerdictOn(text, Parsed(Encode(q), 0, ReportOf([t, x])), schemaTables, config);
            var second := VerdictOn(again, Parsed(Encode(Bounded(q, config.maxRows)), 0, ReportOf([t])), schemaTables, config);
            && Reports(ReportOf([t, x]), q) && Reports(ReportOf([t]), Bounded(q, config.maxRows))
            && first.Success? && x in first.value.tables
            && second.Success? && x !in second.value.tables
  {
    LimitedByTableFacts(t, x, config.maxRows);
    ReportedOnce(text, again, LimitedBy(t, OneTableQuery(x)), ReportOf([t, x]), ReportOf([t]), schemaTables, config, x);
  }

  lemma LimitedByTableFacts(t: string, x: string, max: nat)
    requires Simple(t) && Simple(x) && t != x
    ensures var q := LimitedBy(t, OneTableQuery(x));
            && Plain(q) && SafeQuery(q) && Reports(ReportOf([t, x]), q) && Reports(ReportOf([t]), Bounded(q, max))
            && RefNames(q) == iset{t, x} && Introduced(q) == iset{} && RefNames(Bounded(q, max)) == iset{t}
  {
    OneTableParts(x);
    LimitedByParts(t, OneTableQuery(x));
    BoundedLimitedBy(t, OneTableQuery(x), max);
    TwoNamesReported(t, x, LimitedBy(t, OneTableQuery(x)));
    OneNameReported(t, Bounded(LimitedBy(t, OneTableQuery(x)), max));
  }
}
