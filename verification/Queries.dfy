/**
 * What a select means: a denotation as row sequences, with the scope rules of WITH
 * and the meaning of LIMIT and OFFSET from sections 7.6 and 7.8 of the PostgreSQL 16
 * documentation. Everything else a select does is an arbitrary function of the rows
 * of its sources and sub-queries.
 */
module Queries {
  import opened Sequences
  import opened Text
  import opened JsonTree

  type Row = map<string, string>
  type Rows = seq<Row>

  /** What can stand after LIMIT or OFFSET; the sub-queries of an expression are listed beside it. */
  datatype Term = Absent | Literal(n: nat) | All | Computed(expr: Json, queries: seq<Query>)

  datatype LimitClause = LimitClause(bound: Term, offset: Term)

  const NO_LIMIT := LimitClause(Absent, Absent)

  function Limit(bound: Term): (r: LimitClause)
  {
    LimitClause(bound, Absent)
  }

  function OffsetOnly(offset: Term): (r: LimitClause)
  {
    LimitClause(Absent, offset)
  }

  datatype SetOp = Union | UnionAll | Intersect | Except

  datatype Query = Query(
    recursive: bool,
    ctes: seq<Cte>,
    shape: Shape,
    sources: seq<Source>,
    subqueries: seq<Query>,
    limit: LimitClause,
    tail: seq<Branch>,
    tailLimit: LimitClause)

  datatype Cte = Cte(name: string, body: Query)

  /** The select list, filters, grouping and ordering: `*` alone, or any expression tree. */
  datatype Shape = Star | Expressions(tree: Json)

  datatype Source = Table(qualifier: string, name: string) | Derived(alias: string, body: Query)

  datatype Branch = Branch(op: SetOp, body: Query)

  datatype TableId = TableId(qualifier: string, name: string)

  /** The parts of SQL the row cap does not touch, as arbitrary functions. */
  datatype Interpretation = Interpretation(
    combine: (Shape, seq<Rows>, seq<Rows>) -> Rows,
    setOps: (seq<SetOp>, seq<Rows>) -> Rows,
    number: (Json, seq<Rows>) -> Option<nat>,
    rounds: nat)

  type Database = TableId -> Rows

  // ---------------------------------------------------------------- limits

  /** What a limit clause comes to: the rows skipped, and the bound on the rest, if there is one. */
  datatype Cut = Cut(skip: nat, bound: Option<nat>)

  function Window<T>(rows: seq<T>, skip: nat, bound: Option<nat>): (r: seq<T>)
  {
    var rest := if skip <= |rows| then rows[skip..] else [];
    if bound.Some? then FirstN(rest, bound.value) else rest
  }

  function Limited<T>(rows: seq<T>, cut: Cut): (r: seq<T>)
  {
    Window(rows, cut.skip, cut.bound)
  }

  // ---------------------------------------------------------------- evaluation

  type Scope = map<string, Rows>

  /** What the parts of a query come to, once its WITH is evaluated. */
  datatype Parts = Parts(sources: seq<Rows>, subqueries: seq<Rows>, cut: Cut, tail: seq<Rows>, tailCut: Cut)

  function Eval(q: Query, sql: Interpretation, db: Database, scope: Scope): (rows: Rows)
    decreases q, 3, 0
  {
    Assembled(q, sql, PartsOf(q, sql, db, WithScope(q, sql, db, scope)))
  }

  function Assembled(q: Query, sql: Interpretation, parts: Parts): (r: Rows)
  {
    var first := Limited(Core(q.shape, parts.sources, parts.subqueries, sql), parts.cut);
    if q.tail == [] then first
    else Limited(sql.setOps(Operators(q.tail), [first] + parts.tail), parts.tailCut)
  }

  function PartsOf(q: Query, sql: Interpretation, db: Database, inner: Scope): (r: Parts)
    decreases q, 2, 0
  {
    Parts(SourceRows(q, sql, db, inner), RowsOf(q.subqueries, sql, db, inner), CutOf(q.limit, sql, db, inner),
          TailRows(q, sql, db, inner), CutOf(q.tailLimit, sql, db, inner))
  }

  function SourceRows(q: Query, sql: Interpretation, db: Database, inner: Scope): (r: seq<Rows>)
    decreases q, 1, 0
  {
    seq(|q.sources|, i requires 0 <= i < |q.sources| => EvalSource(q.sources[i], sql, db, inner))
  }

  function RowsOf(queries: seq<Query>, sql: Interpretation, db: Database, inner: Scope): (r: seq<Rows>)
    decreases queries, 0, 0
  {
    seq(|queries|, i requires 0 <= i < |queries| => Eval(queries[i], sql, db, inner))
  }

  function TailRows(q: Query, sql: Interpretation, db: Database, inner: Scope): (r: seq<Rows>)
    decreases q, 1, 0
  {
    seq(|q.tail|, i requires 0 <= i < |q.tail| => Eval(q.tail[i].body, sql, db, inner))
  }

  function CutOf(clause: LimitClause, sql: Interpretation, db: Database, inner: Scope): (r: Cut)
    decreases clause, 1, 0
  {
    var skip := NumberOf(clause.offset, sql, db, inner);
    Cut(if skip.Some? then skip.value else 0, NumberOf(clause.bound, sql, db, inner))
  }

  /** The number a term denotes; `None` is no bound, as for ALL or a null value. */
  function NumberOf(term: Term, sql: Interpretation, db: Database, inner: Scope): (r: Option<nat>)
    decreases term, 1, 0
  {
    match term
    case Literal(n) => Some(n)
    case Computed(expr, queries) => sql.number(expr, RowsOf(queries, sql, db, inner))
    case _ => None
  }

  /** The scope inside a query: what surrounds it, and the names of its own WITH. */
  function WithScope(q: Query, sql: Interpretation, db: Database, scope: Scope): (r: Scope)
    decreases q, 2, 0
  {
    if q.recursive then Rounds(q, sql, db, scope, sql.rounds) else Sequential(q, sql, db, scope, |q.ctes|)
  }

  function Operators(tail: seq<Branch>): (r: seq<SetOp>)
  {
    seq(|tail|, i requires 0 <= i < |tail| => tail[i].op)
  }

  /** `SELECT *` from one source is that source's rows; any other shape is uninterpreted. */
  function Core(shape: Shape, sources: seq<Rows>, subqueries: seq<Rows>, sql: Interpretation): (rows: Rows)
  {
    if shape.Star? && |sources| == 1 then sources[0] else sql.combine(shape, sources, subqueries)
  }

  /** An unqualified name means the CTE in scope, if there is one; otherwise a table. */
  function EvalSource(s: Source, sql: Interpretation, db: Database, scope: Scope): (rows: Rows)
    decreases s, 0, 0
  {
    match s
    case Table(qualifier, name) =>
      if qualifier == "" && Lower(name) in scope then scope[Lower(name)]
      else db(TableId(qualifier, name))
    case Derived(_, body) => Eval(body, sql, db, scope)
  }

  /** Plain WITH: each query sees the ones written before it. */
  function Sequential(q: Query, sql: Interpretation, db: Database, scope: Scope, k: nat): (r: Scope)
    requires k <= |q.ctes|
    decreases q, 1, k
  {
    if k == 0 then scope
    else
      var before := Sequential(q, sql, db, scope, k - 1);
      before[Lower(q.ctes[k - 1].name) := Eval(q.ctes[k - 1].body, sql, db, before)]
  }

  /**
   * WITH RECURSIVE: every query sees every name, starting from no rows and
   * re-evaluated the given number of rounds.
   */
  function Rounds(q: Query, sql: Interpretation, db: Database, scope: Scope, n: nat): (r: Scope)
    decreases q, 1, n
  {
    if n == 0 then Bind(q, scope, NoRows(|q.ctes|), |q.ctes|)
    else Bind(q, scope, WithRows(q, sql, db, Rounds(q, sql, db, scope, n - 1)), |q.ctes|)
  }

  function NoRows(n: nat): (r: seq<Rows>)
    ensures |r| == n
  {
    seq(n, _ => [])
  }

  /** Each query of the WITH, evaluated in one and the same scope. */
  function WithRows(q: Query, sql: Interpretation, db: Database, scope: Scope): (r: seq<Rows>)
    ensures |r| == |q.ctes|
    decreases q, 0, 0
  {
    seq(|q.ctes|, i requires 0 <= i < |q.ctes| => Eval(q.ctes[i].body, sql, db, scope))
  }

  /** The names of a WITH, each bound to what its query comes to. */
  function Bind<V>(q: Query, scope: map<string, V>, values: seq<V>, k: nat): (r: map<string, V>)
    requires k <= |q.ctes| == |values|
  {
    if k == 0 then scope else Bind(q, scope, values, k - 1)[Lower(q.ctes[k - 1].name) := values[k - 1]]
  }

  // ---------------------------------------------------------------- name resolution

  /** CTE names visible once the first `k` queries of the WITH are defined. */
  function ScopeAfter(q: Query, scope: set<string>, k: nat): (r: set<string>)
    requires k <= |q.ctes|
  {
    if k == 0 then scope else ScopeAfter(q, scope, k - 1) + {Lower(q.ctes[k - 1].name)}
  }

  /** CTE names visible inside the `k`th query of the WITH. */
  function ScopeInside(q: Query, scope: set<string>, k: nat): (r: set<string>)
    requires k < |q.ctes|
  {
    ScopeAfter(q, scope, if q.recursive then |q.ctes| else k)
  }

  /** Where one query sits inside another. */
  datatype Place = InWith(k: nat) | InFrom(k: nat) | InExpression(k: nat) | InTail(k: nat) | InLimit(part: LimitPart, k: nat)

  datatype LimitPart = Bound | Offset | TailBound | TailOffset

  /** The term at that part of a query's limits; the last limit belongs to the set operation, if there is one. */
  function TermAt(q: Query, part: LimitPart): (r: Term)
  {
    match part
    case Bound => q.limit.bound
    case Offset => q.limit.offset
    case TailBound => if q.tail == [] then Absent else q.tailLimit.bound
    case TailOffset => if q.tail == [] then Absent else q.tailLimit.offset
  }

  function QueriesIn(term: Term): (r: seq<Query>)
  {
    if term.Computed? then term.queries else []
  }

  predicate Holds(q: Query, at: Place)
  {
    match at
    case InWith(k) => k < |q.ctes|
    case InFrom(k) => k < |q.sources| && q.sources[k].Derived?
    case InExpression(k) => k < |q.subqueries|
    case InTail(k) => k < |q.tail|
    case InLimit(part, k) => k < |QueriesIn(TermAt(q, part))|
  }

  function Inner(q: Query, at: Place): (r: Query)
    requires Holds(q, at)
    ensures r < q
  {
    match at
    case InWith(k) => q.ctes[k].body
    case InFrom(k) => q.sources[k].body
    case InExpression(k) => q.subqueries[k]
    case InTail(k) => q.tail[k].body
    case InLimit(part, k) => QueriesIn(TermAt(q, part))[k]
  }

  /** CTE names visible to the query at that place. */
  function ScopeAt(q: Query, scope: set<string>, at: Place): (r: set<string>)
    requires Holds(q, at)
  {
    if at.InWith? then ScopeInside(q, scope, at.k) else ScopeAfter(q, scope, |q.ctes|)
  }

  predicate Names(q: Query, i: nat)
  {
    i < |q.sources| && q.sources[i].Table?
  }

  function Named(q: Query, i: nat): (r: TableId)
    requires Names(q, i)
  {
    TableId(q.sources[i].qualifier, q.sources[i].name)
  }

  /** A reference that no CTE in scope captures. */
  predicate ReachesTable(t: TableId, scope: set<string>)
  {
    t.qualifier != "" || Lower(t.name) !in scope
  }

  /** The tables a scope-correct resolver says the query reads. */
  ghost function ReadTables(q: Query, scope: set<string>): (r: iset<TableId>)
    decreases q
  {
    (iset i | Names(q, i) && ReachesTable(Named(q, i), ScopeAfter(q, scope, |q.ctes|)) :: Named(q, i))
    + (iset at, t | Holds(q, at) && t in ReadTables(Inner(q, at), ScopeAt(q, scope, at)) :: t)
  }

  /** Their names, without the schemas. */
  ghost function Reads(q: Query, scope: set<string>): (r: iset<string>)
  {
    iset t | t in ReadTables(q, scope) :: Lower(t.name)
  }

  /** Every table reference in the tree, CTE references included. */
  ghost function Refs(q: Query): (r: iset<TableId>)
    decreases q
  {
    (iset i | Names(q, i) :: Named(q, i))
    + (iset at, t | Holds(q, at) && t in Refs(Inner(q, at)) :: t)
  }

  /** Every CTE name defined anywhere in the tree. */
  ghost function Introduced(q: Query): (r: iset<string>)
    decreases q
  {
    (iset k | 0 <= k < |q.ctes| :: Lower(q.ctes[k].name))
    + (iset at, name | Holds(q, at) && name in Introduced(Inner(q, at)) :: name)
  }

  ghost function RefNames(q: Query): (r: iset<string>)
  {
    iset t | t in Refs(q) :: Lower(t.name)
  }

  /** The code's answer: references less every CTE name in the tree, wherever it is defined. */
  ghost function GlobalBase(q: Query): (r: iset<string>)
  {
    RefNames(q) - Introduced(q)
  }

  ghost predicate Within(scope: set<string>, names: iset<string>)
  {
    forall name :: name in scope ==> name in names
  }

  lemma {:induction false} ScopeStaysWithin(q: Query, scope: set<string>, k: nat, names: iset<string>)
    requires k <= |q.ctes| && Within(scope, names) && Introduced(q) <= names
    ensures Within(ScopeAfter(q, scope, k), names)
  {
    if k > 0 {
      ScopeStaysWithin(q, scope, k - 1, names);
      assert Lower(q.ctes[k - 1].name) in Introduced(q);
    }
  }

  /** A reference no CTE in sight can capture is a read, however deep it sits. */
  lemma {:induction false} UnshadowedRefsAreRead(q: Query, scope: set<string>, names: iset<string>, t: TableId)
    requires Within(scope, names) && Introduced(q) <= names
    requires t in Refs(q) && (t.qualifier != "" || Lower(t.name) !in names)
    ensures t in ReadTables(q, scope)
    decreases q
  {
    ScopeStaysWithin(q, scope, |q.ctes|, names);
    if i :| Names(q, i) && Named(q, i) == t {
      assert ReachesTable(t, ScopeAfter(q, scope, |q.ctes|));
    } else {
      var at :| Holds(q, at) && t in Refs(Inner(q, at));
      if at.InWith? && !q.recursive {
        ScopeStaysWithin(q, scope, at.k, names);
      }
      assert Introduced(Inner(q, at)) <= Introduced(q);
      UnshadowedRefsAreRead(Inner(q, at), ScopeAt(q, scope, at), names, t);
    }
  }

  /** Everything read is referred to somewhere. */
  lemma {:induction false} ReadsAreRefs(q: Query, scope: set<string>, t: TableId)
    requires t in ReadTables(q, scope)
    ensures t in Refs(q)
    decreases q
  {
    if !(exists i :: Names(q, i) && Named(q, i) == t) {
      var at :| Holds(q, at) && t in ReadTables(Inner(q, at), ScopeAt(q, scope, at));
      ReadsAreRefs(Inner(q, at), ScopeAt(q, scope, at), t);
    }
  }

  /**
   * Global subtraction against scoped resolution: never a table too many, every table
   * missed bears the name of some CTE, and nothing is missed exactly when no table
   * read shares its name with a CTE.
   */
  lemma GlobalSubtractionAgainstScope(q: Query)
    ensures GlobalBase(q) <= Reads(q, {})
    ensures Reads(q, {}) - GlobalBase(q) <= Introduced(q)
    ensures GlobalBase(q) == Reads(q, {}) <==> Reads(q, {}) !! Introduced(q)
  {
    forall name | name in GlobalBase(q) ensures name in Reads(q, {}) {
      var t :| t in Refs(q) && Lower(t.name) == name;
      UnshadowedRefsAreRead(q, {}, Introduced(q), t);
    }
    forall name | name in Reads(q, {}) ensures name in RefNames(q) {
      var t :| t in ReadTables(q, {}) && Lower(t.name) == name;
      ReadsAreRefs(q, {}, t);
    }
  }

  /** `SELECT * FROM t`. */
  function OneTableQuery(t: string): (r: Query)
  {
    Query(false, [], Star, [Table("", t)], [], NO_LIMIT, [], NO_LIMIT)
  }

  /** `WITH t AS (SELECT * FROM t) SELECT * FROM t`: read, yet subtracted. */
  function SelfNamedCte(t: string): (r: Query)
  {
    OneTableQuery(t).(ctes := [Cte(t, OneTableQuery(t))])
  }

  lemma SelfNamedCteIsMissed(t: string)
    ensures Lower(t) in Reads(SelfNamedCte(t), {}) && Lower(t) !in GlobalBase(SelfNamedCte(t))
  {
    var q, inner := SelfNamedCte(t), OneTableQuery(t);
    assert Names(inner, 0) && ReachesTable(Named(inner, 0), {});
    assert TableId("", t) in ReadTables(inner, {});
    assert Holds(q, InWith(0)) && Inner(q, InWith(0)) == inner && ScopeAt(q, {}, InWith(0)) == {};
    assert TableId("", t) in ReadTables(q, {});
    assert Lower(q.ctes[0].name) in Introduced(q);
  }

  /** Its rows are those of the table nobody is said to read. */
  lemma SelfNamedCteEvaluates(t: string, sql: Interpretation, db: Database)
    ensures Eval(SelfNamedCte(t), sql, db, map[]) == db(TableId("", t))
  {
    var q, rows := SelfNamedCte(t), db(TableId("", t));
    OneTable(t, sql, db, map[]);
    SequentialStep(q, sql, db, map[], 1);
    assert q.ctes[0] == Cte(t, OneTableQuery(t));
    var inner := WithScope(q, sql, db, map[]);
    assert inner == map[Lower(t) := rows];
    assert EvalSource(q.sources[0], sql, db, inner) == rows;
    assert SourceRows(q, sql, db, inner) == [rows];
    LiteralCut(NO_LIMIT, sql, db, inner);
  }

  lemma OneTable(t: string, sql: Interpretation, db: Database, scope: Scope)
    requires Lower(t) !in scope
    ensures Eval(OneTableQuery(t), sql, db, scope) == db(TableId("", t))
  {
    var one := OneTableQuery(t);
    assert WithScope(one, sql, db, scope) == scope;
    OneSource(one, t, sql, db, scope);
    LiteralCut(NO_LIMIT, sql, db, scope);
  }

  lemma OneSource(q: Query, t: string, sql: Interpretation, db: Database, scope: Scope)
    requires q.sources == [Table("", t)] && Lower(t) !in scope
    ensures SourceRows(q, sql, db, scope) == [db(TableId("", t))]
  {
    assert q.sources[0] == Table("", t);
    assert EvalSource(q.sources[0], sql, db, scope) == db(TableId("", t));
  }

  lemma LiteralCut(clause: LimitClause, sql: Interpretation, db: Database, scope: Scope)
    requires !clause.bound.Computed? && !clause.offset.Computed?
    ensures CutOf(clause, sql, db, scope)
         == Cut(if clause.offset.Literal? then clause.offset.n else 0,
                if clause.bound.Literal? then Some(clause.bound.n) else None)
  {
  }

  // ---------------------------------------------------------------- what the result depends on

  ghost predicate AgreeOn(db1: Database, db2: Database, tables: iset<TableId>)
  {
    forall t :: t in tables ==> db1(t) == db2(t)
  }

  /** Agreement on what a query reads is agreement on what each query inside it reads. */
  lemma AgreeInside(q: Query, db1: Database, db2: Database, scope: set<string>, at: Place)
    requires AgreeOn(db1, db2, ReadTables(q, scope)) && Holds(q, at)
    ensures AgreeOn(db1, db2, ReadTables(Inner(q, at), ScopeAt(q, scope, at)))
  {
    assert ReadTables(Inner(q, at), ScopeAt(q, scope, at)) <= ReadTables(q, scope);
  }

  lemma AgreeOnOwn(q: Query, db1: Database, db2: Database, scope: set<string>, i: nat)
    requires AgreeOn(db1, db2, ReadTables(q, scope)) && Names(q, i)
    requires ReachesTable(Named(q, i), ScopeAfter(q, scope, |q.ctes|))
    ensures db1(Named(q, i)) == db2(Named(q, i))
  {
    assert Named(q, i) in ReadTables(q, scope);
  }

  lemma {:induction false} BindNames(q: Query, scope: Scope, rows: seq<Rows>, k: nat)
    requires k <= |q.ctes| == |rows|
    ensures Bind(q, scope, rows, k).Keys == ScopeAfter(q, scope.Keys, k)
  {
    if k > 0 {
      BindNames(q, scope, rows, k - 1);
    }
  }

  lemma {:induction false} SequentialNames(q: Query, sql: Interpretation, db: Database, scope: Scope, k: nat)
    requires k <= |q.ctes|
    ensures Sequential(q, sql, db, scope, k).Keys == ScopeAfter(q, scope.Keys, k)
  {
    if k > 0 {
      SequentialNames(q, sql, db, scope, k - 1);
    }
  }

  lemma RoundsNames(q: Query, sql: Interpretation, db: Database, scope: Scope, n: nat)
    ensures Rounds(q, sql, db, scope, n).Keys == ScopeAfter(q, scope.Keys, |q.ctes|)
  {
    if n == 0 {
      BindNames(q, scope, NoRows(|q.ctes|), |q.ctes|);
    } else {
      BindNames(q, scope, WithRows(q, sql, db, Rounds(q, sql, db, scope, n - 1)), |q.ctes|);
    }
  }

  /** The names a WITH leaves in scope are those the resolver counts. */
  lemma WithScopeNames(q: Query, sql: Interpretation, db: Database, scope: Scope)
    ensures WithScope(q, sql, db, scope).Keys == ScopeAfter(q, scope.Keys, |q.ctes|)
  {
    if q.recursive {
      RoundsNames(q, sql, db, scope, sql.rounds);
    } else {
      SequentialNames(q, sql, db, scope, |q.ctes|);
    }
  }

  /** The tables read are all a query's result depends on. */
  lemma {:induction false} ReadsDetermineTheResult(q: Query, sql: Interpretation, db1: Database, db2: Database, scope: Scope)
    requires AgreeOn(db1, db2, ReadTables(q, scope.Keys))
    ensures Eval(q, sql, db1, scope) == Eval(q, sql, db2, scope)
    decreases q, 2, 0
  {
    WithAgrees(q, sql, db1, db2, scope);
    WithScopeNames(q, sql, db1, scope);
    var inner := WithScope(q, sql, db1, scope);
    PartsAgree(q, sql, db1, db2, scope, inner);
    SamePartsSameRows(q, sql, PartsOf(q, sql, db1, inner), PartsOf(q, sql, db2, inner));
  }

  /** The limit of a set operation matters only where there is one. */
  ghost predicate SameParts(q: Query, p1: Parts, p2: Parts)
  {
    p1.sources == p2.sources && p1.subqueries == p2.subqueries && p1.cut == p2.cut
    && p1.tail == p2.tail && (q.tail != [] ==> p1.tailCut == p2.tailCut)
  }

  lemma SamePartsSameRows(q: Query, sql: Interpretation, p1: Parts, p2: Parts)
    requires SameParts(q, p1, p2)
    ensures Assembled(q, sql, p1) == Assembled(q, sql, p2)
  {
  }

  lemma {:induction false} PartsAgree(q: Query, sql: Interpretation, db1: Database, db2: Database, scope: Scope, inner: Scope)
    requires AgreeOn(db1, db2, ReadTables(q, scope.Keys)) && inner.Keys == ScopeAfter(q, scope.Keys, |q.ctes|)
    ensures SameParts(q, PartsOf(q, sql, db1, inner), PartsOf(q, sql, db2, inner))
    decreases q, 1, 1
  {
    forall i | 0 <= i < |q.sources|
      ensures EvalSource(q.sources[i], sql, db1, inner) == EvalSource(q.sources[i], sql, db2, inner)
    {
      SourceAgrees(q, sql, db1, db2, scope, inner, i);
    }
    forall i | 0 <= i < |q.subqueries|
      ensures Eval(q.subqueries[i], sql, db1, inner) == Eval(q.subqueries[i], sql, db2, inner)
    {
      InnerAgrees(q, sql, db1, db2, scope, inner, InExpression(i));
    }
    forall i | 0 <= i < |q.tail|
      ensures Eval(q.tail[i].body, sql, db1, inner) == Eval(q.tail[i].body, sql, db2, inner)
    {
      InnerAgrees(q, sql, db1, db2, scope, inner, InTail(i));
    }
    assert SourceRows(q, sql, db1, inner) == SourceRows(q, sql, db2, inner);
    assert RowsOf(q.subqueries, sql, db1, inner) == RowsOf(q.subqueries, sql, db2, inner);
    assert TailRows(q, sql, db1, inner) == TailRows(q, sql, db2, inner);
    TermAgrees(q, sql, db1, db2, scope, inner, Bound);
    TermAgrees(q, sql, db1, db2, scope, inner, Offset);
    TermAgrees(q, sql, db1, db2, scope, inner, TailBound);
    TermAgrees(q, sql, db1, db2, scope, inner, TailOffset);
  }

  lemma {:induction false} InnerAgrees(q: Query, sql: Interpretation, db1: Database, db2: Database,
                                       scope: Scope, inner: Scope, at: Place)
    requires AgreeOn(db1, db2, ReadTables(q, scope.Keys)) && inner.Keys == ScopeAfter(q, scope.Keys, |q.ctes|)
    requires Holds(q, at) && !at.InWith?
    ensures Eval(Inner(q, at), sql, db1, inner) == Eval(Inner(q, at), sql, db2, inner)
    decreases q, 0, 2
  {
    AgreeInside(q, db1, db2, scope.Keys, at);
    ReadsDetermineTheResult(Inner(q, at), sql, db1, db2, inner);
  }

  lemma {:induction false} TermAgrees(q: Query, sql: Interpretation, db1: Database, db2: Database,
                                      scope: Scope, inner: Scope, part: LimitPart)
    requires AgreeOn(db1, db2, ReadTables(q, scope.Keys)) && inner.Keys == ScopeAfter(q, scope.Keys, |q.ctes|)
    ensures NumberOf(TermAt(q, part), sql, db1, inner) == NumberOf(TermAt(q, part), sql, db2, inner)
    decreases q, 1, 0
  {
    var queries := QueriesIn(TermAt(q, part));
    forall k | 0 <= k < |queries| ensures Eval(queries[k], sql, db1, inner) == Eval(queries[k], sql, db2, inner) {
      InnerAgrees(q, sql, db1, db2, scope, inner, InLimit(part, k));
    }
    assert RowsOf(queries, sql, db1, inner) == RowsOf(queries, sql, db2, inner);
  }

  lemma {:induction false} SourceAgrees(q: Query, sql: Interpretation, db1: Database, db2: Database,
                                        scope: Scope, inner: Scope, i: nat)
    requires AgreeOn(db1, db2, ReadTables(q, scope.Keys)) && i < |q.sources|
    requires inner.Keys == ScopeAfter(q, scope.Keys, |q.ctes|)
    ensures EvalSource(q.sources[i], sql, db1, inner) == EvalSource(q.sources[i], sql, db2, inner)
    decreases q, 1, 0
  {
    if q.sources[i].Derived? {
      InnerAgrees(q, sql, db1, db2, scope, inner, InFrom(i));
    } else if ReachesTable(Named(q, i), inner.Keys) {
      AgreeOnOwn(q, db1, db2, scope.Keys, i);
    }
  }

  lemma {:induction false} WithAgrees(q: Query, sql: Interpretation, db1: Database, db2: Database, scope: Scope)
    requires AgreeOn(db1, db2, ReadTables(q, scope.Keys))
    ensures WithScope(q, sql, db1, scope) == WithScope(q, sql, db2, scope)
    decreases q, 1, 1, 0
  {
    if q.recursive {
      RoundsAgree(q, sql, db1, db2, scope, sql.rounds);
    } else {
      SequentialAgrees(q, sql, db1, db2, scope, |q.ctes|);
    }
  }

  lemma {:induction false} SequentialAgrees(q: Query, sql: Interpretation, db1: Database, db2: Database, scope: Scope, k: nat)
    requires k <= |q.ctes| && !q.recursive && AgreeOn(db1, db2, ReadTables(q, scope.Keys))
    ensures Sequential(q, sql, db1, scope, k) == Sequential(q, sql, db2, scope, k)
    decreases q, 1, 0, k
  {
    if k > 0 {
      SequentialAgrees(q, sql, db1, db2, scope, k - 1);
      var before := Sequential(q, sql, db1, scope, k - 1);
      assert before == Sequential(q, sql, db2, scope, k - 1);
      NextAgrees(q, sql, db1, db2, scope, before, k);
    }
  }

  lemma {:induction false} NextAgrees(q: Query, sql: Interpretation, db1: Database, db2: Database,
                                      scope: Scope, before: Scope, k: nat)
    requires 0 < k <= |q.ctes| && !q.recursive && AgreeOn(db1, db2, ReadTables(q, scope.Keys))
    requires before == Sequential(q, sql, db1, scope, k - 1) == Sequential(q, sql, db2, scope, k - 1)
    ensures Sequential(q, sql, db1, scope, k) == Sequential(q, sql, db2, scope, k)
    decreases q, 0, 2
  {
    NextBodyAgrees(q, sql, db1, db2, scope, before, k - 1);
    SameBodySameStep(q, sql, db1, db2, scope, before, k);
  }

  lemma {:induction false} NextBodyAgrees(q: Query, sql: Interpretation, db1: Database, db2: Database,
                                          scope: Scope, before: Scope, k: nat)
    requires k < |q.ctes| && !q.recursive && AgreeOn(db1, db2, ReadTables(q, scope.Keys))
    requires before == Sequential(q, sql, db1, scope, k)
    ensures Eval(q.ctes[k].body, sql, db1, before) == Eval(q.ctes[k].body, sql, db2, before)
    decreases q, 0, 1
  {
    SequentialNames(q, sql, db1, scope, k);
    BodyAgrees(q, sql, db1, db2, scope, before, k);
  }

  lemma SameBodySameStep(q: Query, sql: Interpretation, db1: Database, db2: Database, scope: Scope, before: Scope, k: nat)
    requires 0 < k <= |q.ctes|
    requires before == Sequential(q, sql, db1, scope, k - 1) == Sequential(q, sql, db2, scope, k - 1)
    requires Eval(q.ctes[k - 1].body, sql, db1, before) == Eval(q.ctes[k - 1].body, sql, db2, before)
    ensures Sequential(q, sql, db1, scope, k) == Sequential(q, sql, db2, scope, k)
  {
    SequentialStep(q, sql, db1, scope, k);
    SequentialStep(q, sql, db2, scope, k);
  }

  lemma SequentialStep(q: Query, sql: Interpretation, db: Database, scope: Scope, k: nat)
    requires 0 < k <= |q.ctes|
    ensures var before := Sequential(q, sql, db, scope, k - 1);
            Sequential(q, sql, db, scope, k)
            == before[Lower(q.ctes[k - 1].name) := Eval(q.ctes[k - 1].body, sql, db, before)]
  {
  }

  lemma {:induction false} BodyAgrees(q: Query, sql: Interpretation, db1: Database, db2: Database,
                                      scope: Scope, visible: Scope, k: nat)
    requires AgreeOn(db1, db2, ReadTables(q, scope.Keys)) && k < |q.ctes|
    requires visible.Keys == ScopeInside(q, scope.Keys, k)
    ensures Eval(q.ctes[k].body, sql, db1, visible) == Eval(q.ctes[k].body, sql, db2, visible)
    decreases q, 0, 0
  {
    AgreeInside(q, db1, db2, scope.Keys, InWith(k));
    ReadsDetermineTheResult(q.ctes[k].body, sql, db1, db2, visible);
  }

  lemma {:induction false} RoundsAgree(q: Query, sql: Interpretation, db1: Database, db2: Database, scope: Scope, n: nat)
    requires q.recursive && AgreeOn(db1, db2, ReadTables(q, scope.Keys))
    ensures Rounds(q, sql, db1, scope, n) == Rounds(q, sql, db2, scope, n)
    decreases q, 1, 0, n
  {
    if n > 0 {
      RoundsAgree(q, sql, db1, db2, scope, n - 1);
      RoundsNames(q, sql, db1, scope, n - 1);
      WithRowsAgree(q, sql, db1, db2, scope, Rounds(q, sql, db1, scope, n - 1));
      SameRowsSameRound(q, sql, db1, db2, scope, n);
    }
  }

  lemma SameRowsSameRound(q: Query, sql: Interpretation, db1: Database, db2: Database, scope: Scope, n: nat)
    requires n > 0 && Rounds(q, sql, db1, scope, n - 1) == Rounds(q, sql, db2, scope, n - 1)
    requires WithRows(q, sql, db1, Rounds(q, sql, db1, scope, n - 1)) == WithRows(q, sql, db2, Rounds(q, sql, db1, scope, n - 1))
    ensures Rounds(q, sql, db1, scope, n) == Rounds(q, sql, db2, scope, n)
  {
    var rows := WithRows(q, sql, db1, Rounds(q, sql, db1, scope, n - 1));
    RoundsStep(q, sql, db1, scope, n, rows);
    RoundsStep(q, sql, db2, scope, n, rows);
  }

  lemma RoundsStep(q: Query, sql: Interpretation, db: Database, scope: Scope, n: nat, rows: seq<Rows>)
    requires n > 0 && rows == WithRows(q, sql, db, Rounds(q, sql, db, scope, n - 1))
    ensures Rounds(q, sql, db, scope, n) == Bind(q, scope, rows, |q.ctes|)
  {
  }

  lemma {:induction false} WithRowsAgree(q: Query, sql: Interpretation, db1: Database, db2: Database,
                                         scope: Scope, visible: Scope)
    requires q.recursive && AgreeOn(db1, db2, ReadTables(q, scope.Keys))
    requires visible.Keys == ScopeAfter(q, scope.Keys, |q.ctes|)
    ensures WithRows(q, sql, db1, visible) == WithRows(q, sql, db2, visible)
    decreases q, 0, 1
  {
    forall k | 0 <= k < |q.ctes|
      ensures Eval(q.ctes[k].body, sql, db1, visible) == Eval(q.ctes[k].body, sql, db2, visible)
    {
      BodyAgrees(q, sql, db1, db2, scope, visible, k);
    }
  }
}
