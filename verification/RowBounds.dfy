/** How many rows a query can return at most, read off its text: what makes a result certain to be whole. */
module RowBounds {
  import opened Sequences
  import opened Text
  import opened RowCap
  import opened Queries
  import opened BoundedQueries

  /**
   * `most` is the largest number of rows whatever tables and expressions mean, `None` when
   * there is none; `skips` is how many rows the offsets on the way to them swallow.
   */
  datatype Reach = Reach(most: Option<nat>, skips: nat)

  const UNBOUNDED := Reach(None, 0)
  const NOTHING := Reach(Some(0), 0)

  type ReachScope = map<string, Reach>

  function Minus(n: nat, skip: nat): (r: nat)
  {
    if n <= skip then 0 else n - skip
  }

  /** The reach of rows once a limit clause has cut them. Only literals can be counted on. */
  function Cropped(core: Reach, clause: LimitClause): (r: Reach)
  {
    var skip := if clause.offset.Literal? then clause.offset.n else 0;
    var rest := if core.most.Some? then Some(Minus(core.most.value, skip)) else None;
    Reach(if clause.bound.Literal? && (rest.None? || clause.bound.n < rest.value) then Some(clause.bound.n) else rest,
          core.skips + skip)
  }

  /** `rounds` is how often a WITH RECURSIVE is re-evaluated. */
  function ReachOf(q: Query, rounds: nat, scope: ReachScope): (r: Reach)
    decreases q, 2, 0
  {
    if q.tail != [] then Cropped(UNBOUNDED, q.tailLimit)
    else Cropped(CoreReach(q, rounds, WithReach(q, rounds, scope)), q.limit)
  }

  function CoreReach(q: Query, rounds: nat, inner: ReachScope): (r: Reach)
    decreases q, 1, 0
  {
    if q.shape.Star? && |q.sources| == 1 then SourceReach(q.sources[0], rounds, inner) else UNBOUNDED
  }

  function SourceReach(s: Source, rounds: nat, inner: ReachScope): (r: Reach)
    decreases s, 0, 0
  {
    match s
    case Table(qualifier, name) => if qualifier == "" && Lower(name) in inner then inner[Lower(name)] else UNBOUNDED
    case Derived(_, body) => ReachOf(body, rounds, inner)
  }

  function WithReach(q: Query, rounds: nat, scope: ReachScope): (r: ReachScope)
    decreases q, 1, |q.ctes| + rounds + 1
  {
    if q.recursive then RoundsReach(q, rounds, scope, rounds) else SequentialReach(q, rounds, scope, |q.ctes|)
  }

  function SequentialReach(q: Query, rounds: nat, scope: ReachScope, k: nat): (r: ReachScope)
    requires k <= |q.ctes|
    decreases q, 1, k
  {
    if k == 0 then scope
    else
      var before := SequentialReach(q, rounds, scope, k - 1);
      before[Lower(q.ctes[k - 1].name) := ReachOf(q.ctes[k - 1].body, rounds, before)]
  }

  function RoundsReach(q: Query, rounds: nat, scope: ReachScope, n: nat): (r: ReachScope)
    decreases q, 1, n
  {
    if n == 0 then Bind(q, scope, seq(|q.ctes|, _ => NOTHING), |q.ctes|)
    else Bind(q, scope, BodyReaches(q, rounds, RoundsReach(q, rounds, scope, n - 1)), |q.ctes|)
  }

  function BodyReaches(q: Query, rounds: nat, scope: ReachScope): (r: seq<Reach>)
    ensures |r| == |q.ctes|
    decreases q, 0, 0
  {
    seq(|q.ctes|, i requires 0 <= i < |q.ctes| => ReachOf(q.ctes[i].body, rounds, scope))
  }

  // ---------------------------------------------------------------- flooding

  function ManyRows(n: nat): (r: Rows)
    ensures |r| == n
  {
    seq(n, _ => map[])
  }

  /** An interpretation under which whatever is not copied through has `n` rows, and no expression is a number. */
  function Flooding(n: nat, rounds: nat): (r: Interpretation)
  {
    Interpretation((_, _, _) => ManyRows(n), (_, _) => ManyRows(n), (_, _) => None, rounds)
  }

  function FloodedTables(n: nat): (r: Database)
  {
    _ => ManyRows(n)
  }

  /** The rows stay within reach; and, in a flood of `n`, come as close to it as the skipped rows allow. */
  predicate Reached(rows: Rows, reach: Reach, flood: Option<nat>)
  {
    && (reach.most.Some? ==> |rows| <= reach.most.value)
    && (flood.Some? ==> |rows| >= Minus(flood.value, reach.skips) || (reach.most.Some? && |rows| >= reach.most.value))
  }

  ghost predicate ScopeReached(scope: Scope, reaches: ReachScope, flood: Option<nat>)
  {
    scope.Keys == reaches.Keys && forall name :: name in scope ==> Reached(scope[name], reaches[name], flood)
  }

  ghost predicate Floods(sql: Interpretation, db: Database, flood: Option<nat>)
  {
    flood.Some? ==> sql == Flooding(flood.value, sql.rounds) && db == FloodedTables(flood.value)
  }

  lemma FloodedParts(sql: Interpretation, db: Database, flood: Option<nat>, shape: Shape, sources: seq<Rows>, subqueries: seq<Rows>,
                     ops: seq<SetOp>, branches: seq<Rows>, t: TableId)
    requires Floods(sql, db, flood)
    ensures Reached(sql.combine(shape, sources, subqueries), UNBOUNDED, flood)
    ensures Reached(sql.setOps(ops, branches), UNBOUNDED, flood)
    ensures Reached(db(t), UNBOUNDED, flood)
  {
  }

  lemma NumberReached(term: Term, sql: Interpretation, db: Database, inner: Scope, flood: Option<nat>)
    requires Floods(sql, db, flood)
    ensures term.Literal? ==> NumberOf(term, sql, db, inner) == Some(term.n)
    ensures flood.Some? ==> NumberOf(term, sql, db, inner) == if term.Literal? then Some(term.n) else None
  {
  }

  lemma CroppedReached(rows: Rows, core: Reach, clause: LimitClause, sql: Interpretation, db: Database, inner: Scope, flood: Option<nat>)
    requires Floods(sql, db, flood) && Reached(rows, core, flood)
    ensures Reached(Limited(rows, CutOf(clause, sql, db, inner)), Cropped(core, clause), flood)
  {
    NumberReached(clause.bound, sql, db, inner, flood);
    NumberReached(clause.offset, sql, db, inner, flood);
    var cut := CutOf(clause, sql, db, inner);
    assert cut.bound == NumberOf(clause.bound, sql, db, inner);
  }

  lemma {:induction false} QueryReached(q: Query, sql: Interpretation, db: Database, scope: Scope, reaches: ReachScope, flood: Option<nat>)
    requires Floods(sql, db, flood) && ScopeReached(scope, reaches, flood)
    ensures Reached(Eval(q, sql, db, scope), ReachOf(q, sql.rounds, reaches), flood)
    decreases q, 3, 0
  {
    var inner := WithScope(q, sql, db, scope);
    WithReached(q, sql, db, scope, reaches, flood);
    var parts := PartsOf(q, sql, db, inner);
    var core := Core(q.shape, parts.sources, parts.subqueries, sql);
    var first := Limited(core, parts.cut);
    if q.tail != [] {
      FloodedParts(sql, db, flood, q.shape, parts.sources, parts.subqueries, Operators(q.tail), [first] + parts.tail, TableId("", ""));
      CroppedReached(sql.setOps(Operators(q.tail), [first] + parts.tail), UNBOUNDED, q.tailLimit, sql, db, inner, flood);
    } else {
      CoreReached(q, sql, db, inner, WithReach(q, sql.rounds, reaches), flood);
      CroppedReached(core, CoreReach(q, sql.rounds, WithReach(q, sql.rounds, reaches)), q.limit, sql, db, inner, flood);
    }
  }

  lemma {:induction false} CoreReached(q: Query, sql: Interpretation, db: Database, inner: Scope, reaches: ReachScope, flood: Option<nat>)
    requires Floods(sql, db, flood) && ScopeReached(inner, reaches, flood)
    ensures var parts := PartsOf(q, sql, db, inner);
            Reached(Core(q.shape, parts.sources, parts.subqueries, sql), CoreReach(q, sql.rounds, reaches), flood)
    decreases q, 1, 0
  {
    var parts := PartsOf(q, sql, db, inner);
    if q.shape.Star? && |q.sources| == 1 {
      SourceReached(q, q.sources[0], sql, db, inner, reaches, flood);
      assert SourceRows(q, sql, db, inner)[0] == EvalSource(q.sources[0], sql, db, inner);
    } else {
      FloodedParts(sql, db, flood, q.shape, parts.sources, parts.subqueries, [], [], TableId("", ""));
    }
  }

  lemma {:induction false} SourceReached(q: Query, s: Source, sql: Interpretation, db: Database, inner: Scope,
                                         reaches: ReachScope, flood: Option<nat>)
    requires s in q.sources && Floods(sql, db, flood) && ScopeReached(inner, reaches, flood)
    ensures Reached(EvalSource(s, sql, db, inner), SourceReach(s, sql.rounds, reaches), flood)
    decreases q, 0, 0
  {
    match s
    case Table(qualifier, name) =>
      FloodedParts(sql, db, flood, Star, [], [], [], [], TableId(qualifier, name));
    case Derived(_, body) =>
      QueryReached(body, sql, db, inner, reaches, flood);
  }

  lemma {:induction false} WithReached(q: Query, sql: Interpretation, db: Database, scope: Scope, reaches: ReachScope, flood: Option<nat>)
    requires Floods(sql, db, flood) && ScopeReached(scope, reaches, flood)
    ensures ScopeReached(WithScope(q, sql, db, scope), WithReach(q, sql.rounds, reaches), flood)
    decreases q, 2, 0
  {
    if q.recursive {
      RoundsReached(q, sql, db, scope, reaches, flood, sql.rounds);
    } else {
      SequentialReached(q, sql, db, scope, reaches, flood, |q.ctes|);
    }
  }

  lemma {:induction false} SequentialReached(q: Query, sql: Interpretation, db: Database, scope: Scope, reaches: ReachScope,
                                             flood: Option<nat>, k: nat)
    requires k <= |q.ctes| && Floods(sql, db, flood) && ScopeReached(scope, reaches, flood)
    ensures ScopeReached(Sequential(q, sql, db, scope, k), SequentialReach(q, sql.rounds, reaches, k), flood)
    decreases q, 1, k
  {
    if k > 0 {
      SequentialReached(q, sql, db, scope, reaches, flood, k - 1);
      var before, known := Sequential(q, sql, db, scope, k - 1), SequentialReach(q, sql.rounds, reaches, k - 1);
      QueryReached(q.ctes[k - 1].body, sql, db, before, known, flood);
    }
  }

  lemma {:induction false} BindReached(q: Query, scope: Scope, reaches: ReachScope, rows: seq<Rows>, known: seq<Reach>,
                                       flood: Option<nat>, k: nat)
    requires k <= |q.ctes| == |rows| == |known| && ScopeReached(scope, reaches, flood)
    requires forall i :: 0 <= i < |rows| ==> Reached(rows[i], known[i], flood)
    ensures ScopeReached(Bind(q, scope, rows, k), Bind(q, reaches, known, k), flood)
  {
    if k > 0 {
      BindReached(q, scope, reaches, rows, known, flood, k - 1);
    }
  }

  lemma {:induction false} RoundsReached(q: Query, sql: Interpretation, db: Database, scope: Scope, reaches: ReachScope,
                                         flood: Option<nat>, n: nat)
    requires Floods(sql, db, flood) && ScopeReached(scope, reaches, flood)
    ensures ScopeReached(Rounds(q, sql, db, scope, n), RoundsReach(q, sql.rounds, reaches, n), flood)
    decreases q, 1, n
  {
    if n == 0 {
      BindReached(q, scope, reaches, NoRows(|q.ctes|), seq(|q.ctes|, _ => NOTHING), flood, |q.ctes|);
    } else {
      RoundsReached(q, sql, db, scope, reaches, flood, n - 1);
      var before, known := Rounds(q, sql, db, scope, n - 1), RoundsReach(q, sql.rounds, reaches, n - 1);
      var rows, bodies := WithRows(q, sql, db, before), BodyReaches(q, sql.rounds, known);
      forall i | 0 <= i < |q.ctes| ensures Reached(rows[i], bodies[i], flood) {
        QueryReached(q.ctes[i].body, sql, db, before, known, flood);
      }
      BindReached(q, scope, reaches, rows, bodies, flood, |q.ctes|);
    }
  }

  // ---------------------------------------------------------------- who is certain to fit

  /** The query has no more than `max` rows, whatever tables and the rest of SQL mean. */
  ghost predicate AlwaysFits(q: Query, max: nat, rounds: nat)
  {
    forall sql: Interpretation, db: Database :: sql.rounds == rounds ==> |Eval(q, sql, db, map[])| <= max
  }

  predicate ReachFits(q: Query, max: nat, rounds: nat)
  {
    var most := ReachOf(q, rounds, map[]).most;
    most.Some? && most.value <= max
  }

  /** A query is certain to have no more than `max` rows exactly when its text says so. */
  lemma AlwaysFitsExactlyWhen(q: Query, max: nat, rounds: nat)
    ensures AlwaysFits(q, max, rounds) <==> ReachFits(q, max, rounds)
  {
    forall sql: Interpretation, db: Database | ReachFits(q, max, rounds) && sql.rounds == rounds
      ensures |Eval(q, sql, db, map[])| <= max
    {
      QueryReached(q, sql, db, map[], map[], None);
    }
    if !ReachFits(q, max, rounds) {
      var n := ReachOf(q, rounds, map[]).skips + max + 1;
      QueryReached(q, Flooding(n, rounds), FloodedTables(n), map[], map[], Some(n));
      assert |Eval(q, Flooding(n, rounds), FloodedTables(n), map[])| > max;
    }
  }

  /** The query copies nothing through: its rows are combined, or come out of a set operation. */
  predicate Combines(q: Query)
  {
    q.tail != [] || q.shape.Expressions? || |q.sources| != 1
  }

  /** For such a query the text to look at is its outermost limit: a literal within the cap. */
  lemma OuterLimitDecides(q: Query, max: nat, rounds: nat)
    requires Combines(q)
    ensures AlwaysFits(q, max, rounds) <==> Keeps(if q.tail != [] then q.tailLimit else q.limit, max)
  {
    AlwaysFitsExactlyWhen(q, max, rounds);
    assert q.tail == [] ==> CoreReach(q, rounds, WithReach(q, rounds, map[])) == UNBOUNDED;
  }

  /**
   * A statement whose bound the review calls the author's own always fits; and one without
   * set operations that combines rows is certain to fit only then.
   */
  lemma AuthorsBoundFits(q: Query, max: nat, rounds: nat)
    ensures OriginOf(Encode(q), max) == Author ==> AlwaysFits(q, max, rounds)
    ensures q.tail == [] && Combines(q) ==> (AlwaysFits(q, max, rounds) <==> OriginOf(Encode(q), max) == Author)
  {
    OriginsOfQueries(q, max);
    AlwaysFitsExactlyWhen(q, max, rounds);
    if Combines(q) {
      OuterLimitDecides(q, max, rounds);
    }
  }
}
