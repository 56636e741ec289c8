/**
 * What the row cap does to the meaning of a query, and what an accepted query's
 * result can depend on: the tree-level review joined to the denotation.
 */
module BoundedQueries {
  import opened Sequences
  import opened JsonTree
  import opened RowCap
  import opened Queries

  // ---------------------------------------------------------------- the limit clause

  /** Sub-queries of an expression are listed beside the expression. */
  function EncodeTerm(term: Term): (r: Json)
    requires !term.Absent?
    decreases term, 1
  {
    match term
    case Literal(n) => NumberNode(n)
    case All => Obj([Field("type", Str("origin"))])
    case Computed(expr, queries) =>
      Obj([Field("type", Str("expr")), Field("expr", expr), Field("subqueries", Arr(EncodeAll(queries)))])
  }

  function EncodeLimit(clause: LimitClause): (r: Json)
    decreases clause, 1
  {
    var bound := if clause.bound.Absent? then [] else [EncodeTerm(clause.bound)];
    if clause.offset.Absent? then LimitNode("", bound) else LimitNode("offset", bound + [EncodeTerm(clause.offset)])
  }

  function EncodeAll(queries: seq<Query>): (r: seq<Json>)
    ensures |r| == |queries|
    decreases queries, 0
  {
    seq(|queries|, i requires 0 <= i < |queries| => Obj(Encode(queries[i])))
  }

  function LiteralOf(term: Term): (r: Option<nat>)
  {
    if term.Literal? then Some(term.n) else None
  }

  lemma TermReading(term: Term)
    requires !term.Absent?
    ensures EncodeTerm(term).Obj?
    ensures Get(EncodeTerm(term).fields, "value") == if term.Literal? then Some(Number(term.n)) else None
  {
    if term.Literal? {
      NumberNodeProperties(term.n);
    } else {
      GetAbsent(EncodeTerm(term).fields, "value");
    }
  }

  /** The reader finds the literals of every documented shape, each in its own role. */
  lemma ReadsTheLiterals(clause: LimitClause)
    ensures ReadLimitNode(Some(EncodeLimit(clause))) == Bounds(LiteralOf(clause.bound), LiteralOf(clause.offset))
  {
    var bound := if clause.bound.Absent? then [] else [EncodeTerm(clause.bound)];
    if !clause.bound.Absent? {
      TermReading(clause.bound);
    }
    if clause.offset.Absent? {
      LimitNodeProperties("", bound);
    } else {
      TermReading(clause.offset);
      LimitNodeProperties("offset", bound + [EncodeTerm(clause.offset)]);
    }
  }

  /** The author's own bound stands: a literal within the cap. */
  predicate Keeps(clause: LimitClause, max: nat)
  {
    clause.bound.Literal? && clause.bound.n <= max
  }

  /** The clause a query carries after the cap, as a clause of the language. */
  function CappedClause(clause: LimitClause, max: nat): (r: LimitClause)
  {
    if Keeps(clause, max) then clause
    else LimitClause(Literal(max), if clause.offset.Literal? then clause.offset else Absent)
  }

  /**
   * When the capped clause means "the first `max` rows of what the author asked for":
   * the bound is a literal within the cap, so nothing is touched; or no offset is lost,
   * and no bound smaller than the cap is hidden in an expression. `cut` is what the
   * clause comes to.
   */
  predicate CapIsExact(clause: LimitClause, max: nat, cut: Cut)
  {
    Keeps(clause, max)
    || ((clause.offset.Literal? || cut.skip == 0) && (cut.bound.None? || cut.bound.value >= max))
  }

  /** The five documented shapes, with literals where a number is expected, are all exact. */
  predicate Documented(clause: LimitClause)
  {
    !clause.bound.Computed? && (clause.offset.Absent? || clause.offset.Literal?)
  }

  lemma DocumentedShapesAreExact(clause: LimitClause, max: nat, sql: Interpretation, db: Database, inner: Scope)
    requires Documented(clause)
    ensures CapIsExact(clause, max, CutOf(clause, sql, db, inner))
  {
  }

  /** The rows `a..` cut at `b` and then at `max` are the rows `a..` cut at the smaller. */
  lemma WindowThenFirst<T>(rows: seq<T>, skip: nat, bound: Option<nat>, max: nat)
    ensures FirstN(Window(rows, skip, bound), max)
         == Window(rows, skip, Some(if bound.Some? && bound.value <= max then bound.value else max))
  {
  }

  lemma NullRows(n: nat) returns (rows: Rows)
    ensures |rows| == n
  {
    rows := seq(n, _ => map[]);
  }

  /** What the capped clause comes to: the cap, behind the offset the code could read. */
  lemma CappedCut(clause: LimitClause, max: nat, sql: Interpretation, db: Database, inner: Scope)
    ensures CutOf(CappedClause(clause, max), sql, db, inner)
         == if Keeps(clause, max) then CutOf(clause, sql, db, inner)
            else Cut(if clause.offset.Literal? then clause.offset.n else 0, Some(max))
  {
  }

  /**
   * The rewritten clause keeps the meaning for every result set exactly when it is exact
   * in the sense above; otherwise some result set tells the two apart.
   */
  lemma CapKeepsTheMeaningExactly(clause: LimitClause, max: nat, sql: Interpretation, db: Database, inner: Scope)
    requires max >= 1
    ensures var cut := CutOf(clause, sql, db, inner);
            CapIsExact(clause, max, cut) <==>
            forall rows: Rows :: Limited(rows, CutOf(CappedClause(clause, max), sql, db, inner)) == FirstN(Limited(rows, cut), max)
  {
    var cut, capped := CutOf(clause, sql, db, inner), CutOf(CappedClause(clause, max), sql, db, inner);
    CappedCut(clause, max, sql, db, inner);
    if CapIsExact(clause, max, cut) {
      forall rows: Rows ensures Limited(rows, capped) == FirstN(Limited(rows, cut), max) {
        WindowThenFirst(rows, cut.skip, cut.bound, max);
      }
    } else {
      var kept, skip, bound := capped.skip, cut.skip, cut.bound;
      var rows := NullRows(if kept < skip then kept + 1 else if skip < kept && bound != Some(0) then skip + 1 else kept + max);
      assert |Limited(rows, capped)| != |FirstN(Limited(rows, cut), max)|;
    }
  }

  ghost predicate CapIsRight(clause: LimitClause, max: nat, sql: Interpretation, db: Database, inner: Scope)
  {
    forall rows: Rows ::
      Limited(rows, CutOf(CappedClause(clause, max), sql, db, inner)) == FirstN(Limited(rows, CutOf(clause, sql, db, inner)), max)
  }

  /** What can be told from the clause alone: the cap leaves it alone, or it holds nothing to compute. */
  predicate PlainlyExact(clause: LimitClause, max: nat)
  {
    Keeps(clause, max) || (!clause.bound.Computed? && !clause.offset.Computed?)
  }

  /** The rewritten clause is right whatever expressions, tables and names mean exactly when that holds. */
  lemma CapIsAlwaysRightExactlyWhen(clause: LimitClause, max: nat)
    requires max >= 1
    ensures (forall sql, db, inner :: CapIsRight(clause, max, sql, db, inner)) <==> PlainlyExact(clause, max)
  {
    if PlainlyExact(clause, max) {
      forall sql, db, inner ensures CapIsRight(clause, max, sql, db, inner) {
        CapKeepsTheMeaningExactly(clause, max, sql, db, inner);
      }
    } else {
      var sql, db := Counting(if clause.bound.Computed? then 0 else 1), NoTables();
      CapKeepsTheMeaningExactly(clause, max, sql, db, map[]);
      assert !CapIsRight(clause, max, sql, db, map[]);
    }
  }

  /** An interpretation that gives every expression the same number. */
  function Counting(n: nat): (r: Interpretation)
  {
    Interpretation((_, _, _) => [], (_, _) => [], (_, _) => Some(n), 0)
  }

  function NoTables(): (r: Database)
  {
    _ => []
  }

  /** `OFFSET (1 + 1)` with no bound: the page asked for starts two rows later than the one returned. */
  lemma ComputedOffsetIsLost(offset: Term, max: nat, sql: Interpretation, db: Database, inner: Scope)
    requires max >= 1 && offset.Computed? && NumberOf(offset, sql, db, inner) == Some(2)
    ensures !CapIsExact(OffsetOnly(offset), max, CutOf(OffsetOnly(offset), sql, db, inner))
    ensures CappedClause(OffsetOnly(offset), max) == Limit(Literal(max))
  {
  }

  // ---------------------------------------------------------------- the whole query

  /** `SELECT * FROM (q) AS "bounded_query" LIMIT max`. */
  function Wrap(q: Query, max: nat): (r: Query)
  {
    Query(false, [], Star, [Derived("bounded_query", q)], [], Limit(Literal(max)), [], NO_LIMIT)
  }

  function Bounded(q: Query, max: nat): (r: Query)
  {
    if q.tail != [] then Wrap(q, max) else q.(limit := CappedClause(q.limit, max))
  }

  /** The parser's tree for a query. Sub-queries of expressions are listed beside the expressions. */
  function Encode(q: Query): (r: Record)
    decreases q, 1
  {
    SelectTree(
      if q.ctes == [] then Null
      else Arr(seq(|q.ctes|, i requires 0 <= i < |q.ctes| => CteNode(q.ctes[i].name, Encode(q.ctes[i].body)))),
      if q.shape.Star? then Str("*") else q.shape.tree,
      seq(|q.sources|, i requires 0 <= i < |q.sources| => EncodeSource(q.sources[i])),
      EncodeAll(q.subqueries),
      EncodeLimit(q.limit),
      if q.tail == [] then Null
      else Arr(seq(|q.tail|, i requires 0 <= i < |q.tail| => BranchNode(q.tail[i].op, Encode(q.tail[i].body)))),
      if q.tail == [] then Null else EncodeLimit(q.tailLimit))
  }

  function EncodeSource(s: Source): (r: Json)
    decreases s, 0
  {
    match s
    case Table(qualifier, name) =>
      Obj([Field("db", if qualifier == "" then Null else Str(qualifier)), Field("table", Str(name))])
    case Derived(alias, body) => DerivedSource(Encode(body), alias)
  }

  function CteNode(name: string, body: Record): (r: Json)
  {
    Obj([Field("name", Obj([Field("type", Str("default")), Field("value", Str(name))])), Field("stmt", Obj(body))])
  }

  function BranchNode(op: SetOp, body: Record): (r: Json)
  {
    Obj([Field("set_op", Str(OpText(op))), Field("select", Obj(body))])
  }

  function OpText(op: SetOp): (r: string)
  {
    match op
    case Union => "union"
    case UnionAll => "union all"
    case Intersect => "intersect"
    case Except => "except"
  }

  lemma EncodeProperties(q: Query)
    ensures Get(Encode(q), "limit") == Some(EncodeLimit(q.limit))
    ensures Get(Encode(q), "type") == Some(Str("select")) && Get(Encode(q), "into").None?
    ensures Truthy(Get(Encode(q), "_next")) <==> q.tail != []
  {
    var t := Encode(q);
    SelectTreeProperties(t[0].value, t[2].value, t[3].value.items, t[4].value.items, t[5].value, t[6].value, t[7].value);
  }

  lemma EncodeWithLimit(q: Query, other: LimitClause)
    ensures Put(Encode(q), "limit", EncodeLimit(other)) == Encode(q.(limit := other))
  {
    var t, u := Encode(q), Encode(q.(limit := other));
    PutAt(t, "limit", EncodeLimit(other), 5);
    assert t[0] == u[0] && t[3] == u[3] && t[4] == u[4] && t[6] == u[6];
  }

  lemma EncodeWrap(q: Query, max: nat)
    ensures Encode(Wrap(q, max)) == WrapTree(Encode(q), max)
  {
    var w, tree := Encode(Wrap(q, max)), DerivedSource(Encode(q), "bounded_query");
    assert Wrap(q, max).sources[0] == Derived("bounded_query", q);
    assert EncodeSource(Wrap(q, max).sources[0]) == tree;
    assert w[3].value.items == [tree];
    assert w[4].value.items == [];
    assert EncodeTerm(Literal(max)) == NumberNode(max);
  }

  lemma WritesTheClause(clause: LimitClause, max: nat)
    requires !Keeps(clause, max)
    ensures EncodeLimit(CappedClause(clause, max)) == WriteLimitNode(max, LiteralOf(clause.offset))
  {
    if clause.offset.Literal? {
      assert [NumberNode(max)] + [NumberNode(clause.offset.n)] == [NumberNode(max), NumberNode(clause.offset.n)];
    }
  }

  /** The tree the code returns is the tree of the bounded query, for every query. */
  lemma TheCodeBuildsTheBoundedQuery(q: Query, max: nat)
    ensures CappedSql(Encode(q), max) == Encode(Bounded(q, max))
    ensures OriginOf(Encode(q), max) == Wrapped <==> q.tail != []
  {
    EncodeProperties(q);
    if q.tail != [] {
      EncodeWrap(q, max);
    } else {
      ReadsTheLiterals(q.limit);
      EncodeWithLimit(q, CappedClause(q.limit, max));
      if !Keeps(q.limit, max) {
        WritesTheClause(q.limit, max);
      }
    }
  }

  /**
   * What the origin tells a reader of the query: a set operation was wrapped; otherwise a
   * bound was added where no literal one stood, lowered where one stood above the cap, and
   * left alone where one stood within it.
   */
  lemma OriginsOfQueries(q: Query, max: nat)
    ensures var origin, bound := OriginOf(Encode(q), max), q.limit.bound;
            && (origin == Wrapped <==> q.tail != [])
            && (origin == Injected <==> q.tail == [] && !bound.Literal?)
            && (origin == Clamped <==> q.tail == [] && bound.Literal? && bound.n > max)
            && (origin == Author <==> q.tail == [] && bound.Literal? && bound.n <= max)
  {
    EncodeProperties(q);
    ReadsTheLiterals(q.limit);
  }

  lemma WrapEvaluates(q: Query, max: nat, sql: Interpretation, db: Database)
    ensures Eval(Wrap(q, max), sql, db, map[]) == FirstN(Eval(q, sql, db, map[]), max)
  {
    var w := Wrap(q, max);
    assert WithScope(w, sql, db, map[]) == map[];
    var rows := SourceRows(w, sql, db, map[]);
    assert EvalSource(w.sources[0], sql, db, map[]) == Eval(q, sql, db, map[]);
    assert rows == [Eval(q, sql, db, map[])];
    LiteralCut(Limit(Literal(max)), sql, db, map[]);
  }

  /** A query without set operations, and the same query under another limit, cut one and the same result. */
  lemma CappedEvaluates(q: Query, clause: LimitClause, sql: Interpretation, db: Database)
    requires q.tail == []
    ensures var inner := WithScope(q, sql, db, map[]);
            exists rows: Rows ::
              && Eval(q, sql, db, map[]) == Limited(rows, CutOf(q.limit, sql, db, inner))
              && Eval(q.(limit := clause), sql, db, map[]) == Limited(rows, CutOf(clause, sql, db, inner))
  {
    var c := q.(limit := clause);
    SameWith(q, c, sql, db);
    var inner := WithScope(q, sql, db, map[]);
    assert SourceRows(q, sql, db, inner) == SourceRows(c, sql, db, inner);
    var rows := Core(q.shape, SourceRows(q, sql, db, inner), RowsOf(q.subqueries, sql, db, inner), sql);
    assert Eval(q, sql, db, map[]) == Limited(rows, CutOf(q.limit, sql, db, inner));
    assert Eval(c, sql, db, map[]) == Limited(rows, CutOf(clause, sql, db, inner));
  }

  /** The WITH part of a query does not see its limit. */
  lemma SameWith(q: Query, c: Query, sql: Interpretation, db: Database)
    requires c.ctes == q.ctes && c.recursive == q.recursive
    ensures WithScope(q, sql, db, map[]) == WithScope(c, sql, db, map[])
  {
    if q.recursive {
      SameRounds(q, c, sql, db, sql.rounds);
    } else {
      SameSequential(q, c, sql, db, |q.ctes|);
    }
  }

  lemma {:induction false} SameSequential(q: Query, c: Query, sql: Interpretation, db: Database, k: nat)
    requires c.ctes == q.ctes && k <= |q.ctes|
    ensures Sequential(q, sql, db, map[], k) == Sequential(c, sql, db, map[], k)
  {
    if k > 0 {
      SameSequential(q, c, sql, db, k - 1);
    }
  }

  lemma {:induction false} SameBind(q: Query, c: Query, rows: seq<Rows>, k: nat)
    requires c.ctes == q.ctes && k <= |q.ctes| == |rows|
    ensures Bind(q, map[], rows, k) == Bind(c, map[], rows, k)
  {
    if k > 0 {
      SameBind(q, c, rows, k - 1);
    }
  }

  lemma {:induction false} SameRounds(q: Query, c: Query, sql: Interpretation, db: Database, n: nat)
    requires c.ctes == q.ctes
    ensures Rounds(q, sql, db, map[], n) == Rounds(c, sql, db, map[], n)
  {
    if n == 0 {
      SameBind(q, c, NoRows(|q.ctes|), |q.ctes|);
    } else {
      SameRounds(q, c, sql, db, n - 1);
      var previous := Rounds(q, sql, db, map[], n - 1);
      var rows := WithRows(q, sql, db, previous);
      assert rows == WithRows(c, sql, db, previous);
      RoundsStep(q, sql, db, map[], n, rows);
      RoundsStep(c, sql, db, map[], n, rows);
      SameBind(q, c, rows, |q.ctes|);
    }
  }

  /** What the cap is exact on: every set operation, and every limit clause in the sense above. */
  predicate ExactOn(q: Query, max: nat, sql: Interpretation, db: Database)
  {
    q.tail != [] || CapIsExact(q.limit, max, CutOf(q.limit, sql, db, WithScope(q, sql, db, map[])))
  }

  /**
   * The statement that runs returns exactly the first `max` rows of what the author
   * asked for, whatever the database holds and whatever the rest of SQL means: for
   * every set operation, and for every limit clause the cap is exact on.
   */
  lemma BoundedMeansFirstRows(q: Query, max: nat, sql: Interpretation, db: Database)
    requires max >= 1 && ExactOn(q, max, sql, db)
    ensures Eval(Bounded(q, max), sql, db, map[]) == FirstN(Eval(q, sql, db, map[]), max)
  {
    if q.tail != [] {
      WrapEvaluates(q, max, sql, db);
    } else {
      CapKeepsTheMeaningExactly(q.limit, max, sql, db, WithScope(q, sql, db, map[]));
      CappedEvaluates(q, CappedClause(q.limit, max), sql, db);
    }
  }

  /** Exact or not, the statement that runs never returns more than `max` rows. */
  lemma BoundedIsShort(q: Query, max: nat, sql: Interpretation, db: Database)
    ensures |Eval(Bounded(q, max), sql, db, map[])| <= max
  {
    if q.tail != [] {
      WrapEvaluates(q, max, sql, db);
    } else {
      var capped := CappedClause(q.limit, max);
      CappedEvaluates(q, capped, sql, db);
      var cut := CutOf(capped, sql, db, WithScope(q, sql, db, map[]));
      CappedCut(q.limit, max, sql, db, WithScope(q, sql, db, map[]));
      assert cut.bound.Some? && cut.bound.value <= max;
      forall rows: Rows ensures |Limited(rows, cut)| <= max {
      }
    }
  }

  /** An interpretation whose set operations put their two branches one after the other. */
  function Appending(): (r: Interpretation)
  {
    Interpretation((_, _, _) => [], (_, branches: seq<Rows>) => if |branches| == 2 then branches[0] + branches[1] else [],
                   (_, _) => None, 0)
  }

  /** `SELECT * FROM t UNION ALL SELECT * FROM t`, with a limit on its first branch. */
  function Twice(table: string, head: LimitClause): (r: Query)
  {
    OneTableQuery(table).(limit := head, tail := [Branch(UnionAll, OneTableQuery(table))])
  }

  lemma TwiceEvaluates(table: string, head: LimitClause, sql: Interpretation, db: Database)
    ensures var branch, cut := db(TableId("", table)), CutOf(head, sql, db, map[]);
            Eval(Twice(table, head), sql, db, map[]) == sql.setOps([UnionAll], [Limited(branch, cut), branch])
  {
    var q, branch := Twice(table, head), db(TableId("", table));
    OneTable(table, sql, db, map[]);
    assert WithScope(q, sql, db, map[]) == map[];
    var parts := PartsOf(q, sql, db, map[]);
    OneSource(q, table, sql, db, map[]);
    assert q.tail[0].body == OneTableQuery(table);
    assert TailRows(q, sql, db, map[]) == [branch];
    LiteralCut(NO_LIMIT, sql, db, map[]);
    assert Operators(q.tail) == [UnionAll];
    TwoAssembled(q, sql, parts, branch);
  }

  lemma TwoAssembled(q: Query, sql: Interpretation, parts: Parts, branch: Rows)
    requires q.shape == Star && parts.sources == [branch] && parts.tail == [branch] && Operators(q.tail) == [UnionAll]
    requires parts.tailCut == Cut(0, None)
    ensures Assembled(q, sql, parts) == sql.setOps([UnionAll], [Limited(branch, parts.cut), branch])
  {
    assert [Limited(branch, parts.cut)] + parts.tail == [Limited(branch, parts.cut), branch];
    assert q.tail != [];
  }

  /** Why a set operation is wrapped: a bound put on the tree would bind its first branch only. */
  lemma BoundingTheHeadWouldNotDo(max: nat, branch: Rows, table: string)
    requires |branch| > max && table != ""
    ensures exists q: Query, sql: Interpretation, db: Database ::
              q.tail != [] && Eval(q.(limit := Limit(Literal(max))), sql, db, map[])
                              != FirstN(Eval(q, sql, db, map[]), max)
  {
    var db: Database := _ => branch;
    var q, headed := Twice(table, NO_LIMIT), Twice(table, Limit(Literal(max)));
    TwiceEvaluates(table, NO_LIMIT, Appending(), db);
    TwiceEvaluates(table, Limit(Literal(max)), Appending(), db);
    assert headed == q.(limit := Limit(Literal(max)));
    assert |Eval(headed, Appending(), db, map[])| > max;
  }
}
