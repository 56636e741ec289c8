/**
 * The review's answers about a query's tree compared with what the query means: which
 * names its WITH clauses introduce, which tables it reads, and what its rows depend on.
 */
module ReviewedQueries {
  import opened Sequences
  import opened Text
  import opened JsonTree
  import opened SqlReview
  import opened RowCap
  import opened SqlValidator
  import opened Queries
  import opened BoundedQueries
  import opened EncodedTrees

  // ---------------------------------------------------------------- CTE names

  /** Every sub-query is listed as one, so no WITH hides in an expression tree. */
  ghost predicate Plain(q: Query)
    decreases q
  {
    && (q.shape.Expressions? ==> CteNames(q.shape.tree) == {})
    && (forall part :: TermAt(q, part).Computed? ==> CteNames(TermAt(q, part).expr) == {})
    && (forall at :: Holds(q, at) ==> Plain(Inner(q, at)))
  }

  /** The names a query's own WITH introduces, read back from its tree. */
  lemma OwnCtes(q: Query, name: string)
    ensures name in NodeCtes(Encode(q)) <==> exists k :: 0 <= k < |q.ctes| && name == Lower(q.ctes[k].name)
  {
    var t := Encode(q);
    SelectTreeProperties(t[0].value, t[2].value, t[3].value.items, t[4].value.items, t[5].value, t[6].value, t[7].value);
    assert Get(t, "with") == Some(t[0].value);
    if q.ctes != [] {
      var entries := t[0].value.items;
      assert NodeCtes(t) == set i | 0 <= i < |entries| && CteName(entries[i]).Some? :: CteName(entries[i]).value;
      forall k | 0 <= k < |q.ctes| ensures CteName(entries[k]) == Some(Lower(q.ctes[k].name)) {
        NameOfCteNode(q.ctes[k].name, Encode(q.ctes[k].body));
      }
    }
  }

  lemma NameOfCteNode(name: string, body: Record)
    ensures CteName(CteNode(name, body)) == Some(Lower(name))
  {
    GetAt(CteNode(name, body).fields, "name", 0);
    GetAt([Field("type", Str("default")), Field("value", Str(name))], "value", 1);
  }

  lemma PlainExpressionsNameNothing(q: Query, node: Record, name: string)
    requires Plain(q) && OwnNode(q, node)
    ensures name !in NodeCtes(node)
  {
    if q.shape.Expressions? && node in Walk(q.shape.tree) {
      CteNamesMember(q.shape.tree, name);
    } else {
      var part :| TermAt(q, part).Computed? && node in Walk(TermAt(q, part).expr);
      CteNamesMember(TermAt(q, part).expr, name);
    }
  }

  /** The walk's CTE names are those of the queries inside, plus the query's own. */
  lemma EncodedCtes(q: Query, name: string)
    requires Plain(q)
    ensures name in CteNames(Obj(Encode(q))) <==>
            || (exists k :: 0 <= k < |q.ctes| && name == Lower(q.ctes[k].name))
            || (exists at :: Holds(q, at) && name in CteNames(Obj(Encode(Inner(q, at)))))
  {
    CteNamesMember(Obj(Encode(q)), name);
    OwnCtes(q, name);
    EncodedNodes(q, Encode(q));
    if node :| node in Walk(Obj(Encode(q))) && name in NodeCtes(node) {
      EncodedNodes(q, node);
      if node != Encode(q) {
        NamedInside(q, node, name);
      }
    }
    if at :| Holds(q, at) && name in CteNames(Obj(Encode(Inner(q, at)))) {
      CteNamesMember(Obj(Encode(Inner(q, at))), name);
      var node :| node in Walk(Obj(Encode(Inner(q, at)))) && name in NodeCtes(node);
      EncodedNodes(q, node);
    }
  }

  lemma NamedInside(q: Query, node: Record, name: string)
    requires Plain(q) && name in NodeCtes(node) && (OwnNode(q, node) || InnerNode(q, node) || Glue(node))
    ensures exists at :: Holds(q, at) && name in CteNames(Obj(Encode(Inner(q, at))))
  {
    if OwnNode(q, node) {
      PlainExpressionsNameNothing(q, node, name);
    }
    if Glue(node) {
      GlueIsHarmless(node);
    }
    var at :| Holds(q, at) && node in Walk(Obj(Encode(Inner(q, at))));
    CteNamesMember(Obj(Encode(Inner(q, at))), name);
  }

  /** What the walk collects from the tree is every CTE name defined anywhere in the query. */
  lemma {:induction false} WalkFindsEveryCte(q: Query, name: string)
    requires Plain(q)
    ensures name in CteNames(Obj(Encode(q))) <==> name in Introduced(q)
    decreases q
  {
    EncodedCtes(q, name);
    forall at | Holds(q, at)
      ensures name in CteNames(Obj(Encode(Inner(q, at)))) <==> name in Introduced(Inner(q, at))
    {
      WalkFindsEveryCte(Inner(q, at), name);
    }
  }

  // ---------------------------------------------------------------- the parser's table report

  function Entry(t: TableId): (r: string)
  {
    "select" + "::" + ((if t.qualifier == "" then "null" else t.qualifier) + "::" + t.name)
  }

  /** Names without the separator the report uses. */
  predicate Splittable(t: TableId)
  {
    ':' !in t.qualifier && ':' !in t.name && t.name != ""
  }

  /** The report lists exactly the references in the tree, CTE references included. */
  ghost predicate Reports(tableList: seq<string>, q: Query)
  {
    && (forall t :: t in Refs(q) ==> Splittable(t) && Entry(t) in tableList)
    && (forall entry :: entry in tableList ==> exists t :: t in Refs(q) && Entry(t) == entry)
  }

  lemma EntryNameIsTheName(t: TableId)
    requires Splittable(t)
    ensures EntryName(Entry(t)) == Lower(t.name)
  {
    var db := if t.qualifier == "" then "null" else t.qualifier;
    var rest := db + "::" + t.name;
    SegmentAfterSeparator(Entry(t), "select", rest);
    SegmentAfterSeparator(rest, db, t.name);
    SegmentWithoutSeparator(t.name, t.name);
  }

  lemma ReportedNames(tableList: seq<string>, refs: iset<TableId>, name: string)
    requires forall t :: t in refs ==> Splittable(t) && Entry(t) in tableList
    requires forall entry :: entry in tableList ==> exists t :: t in refs && Entry(t) == entry
    ensures name in EntryNames(tableList) <==> exists t :: t in refs && Lower(t.name) == name
    ensures name in EntryNames(tableList) ==> name != ""
  {
    if name in EntryNames(tableList) {
      var i :| 0 <= i < |tableList| && EntryName(tableList[i]) == name;
      assert tableList[i] in tableList;
      var t :| t in refs && Entry(t) == tableList[i];
      EntryNameIsTheName(t);
    }
    if t :| t in refs && Lower(t.name) == name {
      EntryNameIsTheName(t);
      var i :| 0 <= i < |tableList| && tableList[i] == Entry(t);
      assert EntryName(tableList[i]) in EntryNames(tableList);
    }
  }

  /** The tables the code judges a query by are its references less every CTE name. */
  lemma BaseTablesAreGlobal(q: Query, tableList: seq<string>, name: string)
    requires Plain(q) && Reports(tableList, q)
    ensures name in BaseTables(tableList, CteNames(Obj(Encode(q)))) <==> name in GlobalBase(q)
  {
    WalkFindsEveryCte(q, name);
    BaseTablesMember(tableList, CteNames(Obj(Encode(q))), name);
    ReportedNames(tableList, Refs(q), name);
  }

  /**
   * The tables the code computes against a scope-correct resolver: a subset of what is
   * read; every table missed bears a CTE's name; and none is missed exactly when no
   * table read shares its name with a CTE anywhere in the query.
   */
  lemma BaseTablesAgainstScope(q: Query, tableList: seq<string>)
    requires Plain(q) && Reports(tableList, q)
    ensures var base := BaseTables(tableList, CteNames(Obj(Encode(q))));
            && (forall name :: name in base ==> name in Reads(q, {}))
            && (forall name :: name in Reads(q, {}) && name !in base ==> name in Introduced(q))
            && ((forall name :: name in Reads(q, {}) ==> name in base) <==> Reads(q, {}) !! Introduced(q))
  {
    GlobalSubtractionAgainstScope(q);
    forall name
      ensures name in BaseTables(tableList, CteNames(Obj(Encode(q)))) <==> name in GlobalBase(q)
    {
      BaseTablesAreGlobal(q, tableList, name);
    }
  }

  /** Every table a list of names stands for passes the gate. */
  ghost predicate AllPass(names: iset<string>, schemaTables: seq<string>, rules: TableRules)
  {
    forall name :: name in names ==> TablePasses(name, KnownNames(schemaTables), rules)
  }

  /** The names an accepted query reads all pass exactly when those it shares with its own CTEs do. */
  lemma AcceptedNamesPassExactlyWhen(text: string, q: Query, tableList: seq<string>, schemaTables: seq<string>, config: SafetyConfig)
    requires Trim(text) != "" && Plain(q) && Reports(tableList, q)
    ensures VerdictOn(text, Parsed(Encode(q), 0, tableList), schemaTables, config).Success? ==>
              (AllPass(Reads(q, {}), schemaTables, config.rules)
               <==> AllPass(Reads(q, {}) * Introduced(q), schemaTables, config.rules))
  {
    AcceptedExactlyWhenSafe(text, Parsed(Encode(q), 0, tableList), schemaTables, config);
    BaseTablesAgainstScope(q, tableList);
  }

  // ---------------------------------------------------------------- tables, with their schemas

  /** The introspected tables' names, which is all the gate knows of them. */
  function NamesOf(snapshot: seq<TableId>): (r: seq<string>)
  {
    Map(snapshot, (t: TableId) => t.name)
  }

  /** The reference stands for an introspected table; without a schema, any of that name. */
  ghost predicate InSnapshot(t: TableId, snapshot: seq<TableId>)
  {
    exists i :: 0 <= i < |snapshot| && Lower(snapshot[i].name) == Lower(t.name)
                && (t.qualifier == "" || Lower(snapshot[i].qualifier) == Lower(t.qualifier))
  }

  /** Introspected tables that pass the gate. */
  ghost function Permitted(snapshot: seq<TableId>, rules: TableRules): (r: iset<TableId>)
  {
    iset t | InSnapshot(t, snapshot) && TablePasses(Lower(t.name), KnownNames(NamesOf(snapshot)), rules)
  }

  /** Every reference that names a schema names one of the snapshot's, together with a table it holds. */
  ghost predicate SchemasListed(q: Query, snapshot: seq<TableId>)
  {
    forall t :: t in Refs(q) && t.qualifier != "" ==> InSnapshot(t, snapshot)
  }

  lemma KnownIsInSnapshot(t: TableId, snapshot: seq<TableId>)
    requires t.qualifier == ""
    ensures Lower(t.name) in KnownNames(NamesOf(snapshot)) <==> InSnapshot(t, snapshot)
  {
    if i :| 0 <= i < |snapshot| && Lower(snapshot[i].name) == Lower(t.name) {
      assert Lower(NamesOf(snapshot)[i]) == Lower(t.name);
    }
    if Lower(t.name) in KnownNames(NamesOf(snapshot)) {
      var i :| 0 <= i < |NamesOf(snapshot)| && Lower(NamesOf(snapshot)[i]) == Lower(t.name);
      assert Lower(snapshot[i].name) == Lower(t.name);
    }
  }

  /**
   * An accepted query reads permitted tables of the snapshot only, exactly when the tables
   * it reads under the name of one of its own CTEs pass, and every schema it names holds the
   * table it names there: those are the two things nobody looked at.
   */
  lemma AcceptedReadsArePermittedExactlyWhen(text: string, q: Query, tableList: seq<string>, snapshot: seq<TableId>,
                                             config: SafetyConfig)
    requires Trim(text) != "" && Plain(q) && Reports(tableList, q)
    ensures VerdictOn(text, Parsed(Encode(q), 0, tableList), NamesOf(snapshot), config).Success? ==>
              (ReadTables(q, {}) <= Permitted(snapshot, config.rules)
               <==> AllPass(Reads(q, {}) * Introduced(q), NamesOf(snapshot), config.rules) && SchemasListed(q, snapshot))
  {
    AcceptedNamesPassExactlyWhen(text, q, tableList, NamesOf(snapshot), config);
    if AllPass(Reads(q, {}), NamesOf(snapshot), config.rules) && SchemasListed(q, snapshot) {
      ListedReadsArePermitted(q, snapshot, config.rules);
    }
    if ReadTables(q, {}) <= Permitted(snapshot, config.rules) {
      PermittedReadsAreListed(q, snapshot, config.rules);
    }
  }

  lemma ListedReadsArePermitted(q: Query, snapshot: seq<TableId>, rules: TableRules)
    requires AllPass(Reads(q, {}), NamesOf(snapshot), rules) && SchemasListed(q, snapshot)
    ensures ReadTables(q, {}) <= Permitted(snapshot, rules)
  {
    forall t | t in ReadTables(q, {}) ensures t in Permitted(snapshot, rules) {
      assert Lower(t.name) in Reads(q, {});
      ReadsAreRefs(q, {}, t);
      if t.qualifier == "" {
        KnownIsInSnapshot(t, snapshot);
      }
    }
  }

  lemma PermittedReadsAreListed(q: Query, snapshot: seq<TableId>, rules: TableRules)
    requires ReadTables(q, {}) <= Permitted(snapshot, rules)
    ensures AllPass(Reads(q, {}), NamesOf(snapshot), rules) && SchemasListed(q, snapshot)
  {
    forall t | t in Refs(q) && t.qualifier != "" ensures InSnapshot(t, snapshot) {
      UnshadowedRefsAreRead(q, {}, Introduced(q), t);
    }
  }

  /**
   * Under that condition an accepted query's rows, and those of the bounded statement that
   * runs in its place, depend on nothing but introspected tables that pass the gate: two
   * databases that agree on those give the same.
   */
  lemma AcceptedQueriesReadOnlyPermittedTables(
    text: string, q: Query, tableList: seq<string>, snapshot: seq<TableId>, config: SafetyConfig,
    sql: Interpretation, db1: Database, db2: Database)
    requires Trim(text) != "" && Plain(q) && Reports(tableList, q) && SchemasListed(q, snapshot)
    requires AllPass(Reads(q, {}) * Introduced(q), NamesOf(snapshot), config.rules)
    requires AgreeOn(db1, db2, Permitted(snapshot, config.rules))
    ensures VerdictOn(text, Parsed(Encode(q), 0, tableList), NamesOf(snapshot), config).Success? ==>
              && Eval(q, sql, db1, map[]) == Eval(q, sql, db2, map[])
              && Eval(Bounded(q, config.maxRows), sql, db1, map[]) == Eval(Bounded(q, config.maxRows), sql, db2, map[])
  {
    AcceptedReadsArePermittedExactlyWhen(text, q, tableList, snapshot, config);
    if ReadTables(q, {}) <= Permitted(snapshot, config.rules) {
      assert AgreeOn(db1, db2, ReadTables(q, {}));
      BoundedReadsNoMore(q, config.maxRows);
      SameRows(q, sql, db1, db2);
      SameRows(Bounded(q, config.maxRows), sql, db1, db2);
    }
  }

  lemma SameRows(q: Query, sql: Interpretation, db1: Database, db2: Database)
    requires AgreeOn(db1, db2, ReadTables(q, {}))
    ensures Eval(q, sql, db1, map[]) == Eval(q, sql, db2, map[])
  {
    var empty: Scope := map[];
    assert empty.Keys == {};
    ReadsDetermineTheResult(q, sql, db1, db2, empty);
  }

  // ---------------------------------------------------------------- what bounding a query leaves of it

  /** Nothing is inside the bounded query that was not inside the original, at the same place. */
  lemma BoundedPlaces(q: Query, max: nat, at: Place)
    requires q.tail == [] && Holds(Bounded(q, max), at)
    ensures Holds(q, at) && Inner(Bounded(q, max), at) == Inner(q, at)
  {
  }

  lemma WrapPlaces(q: Query, max: nat, at: Place)
    ensures Holds(Wrap(q, max), at) <==> at == InFrom(0)
    ensures Inner(Wrap(q, max), InFrom(0)) == q
  {
  }

  lemma {:induction false} SameScopeAfter(q: Query, c: Query, scope: set<string>, k: nat)
    requires c.ctes == q.ctes && k <= |q.ctes|
    ensures ScopeAfter(c, scope, k) == ScopeAfter(q, scope, k)
  {
    if k > 0 {
      SameScopeAfter(q, c, scope, k - 1);
    }
  }

  lemma BoundedReadsNoMore(q: Query, max: nat)
    ensures ReadTables(Bounded(q, max), {}) <= ReadTables(q, {})
  {
    var b := Bounded(q, max);
    forall t | t in ReadTables(b, {}) ensures t in ReadTables(q, {}) {
      if q.tail != [] {
        var at :| Holds(b, at) && t in ReadTables(Inner(b, at), ScopeAt(b, {}, at));
        WrapPlaces(q, max, at);
      } else if i :| Names(b, i) && ReachesTable(Named(b, i), ScopeAfter(b, {}, |b.ctes|)) && Named(b, i) == t {
        SameScopeAfter(q, b, {}, |q.ctes|);
        assert Names(q, i) && Named(q, i) == Named(b, i);
      } else {
        var at :| Holds(b, at) && t in ReadTables(Inner(b, at), ScopeAt(b, {}, at));
        BoundedPlaces(q, max, at);
        SameScopeAfter(q, b, {}, if at.InWith? && !q.recursive then at.k else |q.ctes|);
        assert ScopeAt(b, {}, at) == ScopeAt(q, {}, at);
      }
    }
  }

  lemma BoundedRefersToNoMore(q: Query, max: nat)
    ensures Refs(Bounded(q, max)) <= Refs(q) && Introduced(Bounded(q, max)) <= Introduced(q)
    ensures q.tail != [] ==> Refs(Bounded(q, max)) == Refs(q) && Introduced(Bounded(q, max)) == Introduced(q)
  {
    var b := Bounded(q, max);
    if q.tail != [] {
      forall at ensures Holds(b, at) <==> at == InFrom(0) {
        WrapPlaces(q, max, at);
      }
      assert Inner(b, InFrom(0)) == q;
    } else {
      forall at | Holds(b, at) ensures Holds(q, at) && Inner(b, at) == Inner(q, at) {
        BoundedPlaces(q, max, at);
      }
      assert forall i :: Names(b, i) ==> Names(q, i) && Named(b, i) == Named(q, i);
      assert b.ctes == q.ctes;
    }
  }

  lemma BoundedIsPlain(q: Query, max: nat)
    requires Plain(q)
    ensures Plain(Bounded(q, max))
  {
    var b := Bounded(q, max);
    forall at | Holds(b, at) ensures Plain(Inner(b, at)) {
      if q.tail != [] {
        WrapPlaces(q, max, at);
      } else {
        BoundedPlaces(q, max, at);
      }
    }
    if q.tail == [] {
      forall part | TermAt(b, part).Computed? ensures CteNames(TermAt(b, part).expr) == {} {
        assert TermAt(b, part) == TermAt(q, part);
      }
    }
  }

  /** The cap overwrites no sub-query: it wraps, or leaves the limit alone, or finds none in it. */
  predicate LosesNoQuery(q: Query, max: nat)
  {
    q.tail != [] || Keeps(q.limit, max) || (QueriesIn(q.limit.bound) == [] && QueriesIn(q.limit.offset) == [])
  }

  lemma PlacesKept(q: Query, max: nat, at: Place)
    requires q.tail == [] && LosesNoQuery(q, max) && Holds(q, at)
    ensures Holds(Bounded(q, max), at) && Inner(Bounded(q, max), at) == Inner(q, at)
  {
  }

  lemma NothingLost(q: Query, max: nat)
    requires LosesNoQuery(q, max)
    ensures Refs(Bounded(q, max)) == Refs(q) && Introduced(Bounded(q, max)) == Introduced(q)
  {
    var b := Bounded(q, max);
    BoundedRefersToNoMore(q, max);
    if q.tail == [] {
      forall at | Holds(q, at) ensures Holds(b, at) && Inner(b, at) == Inner(q, at) {
        PlacesKept(q, max, at);
      }
      assert forall i :: Names(q, i) ==> Names(b, i) && Named(b, i) == Named(q, i);
      assert b.ctes == q.ctes;
    }
  }

  /** The CTE names the cap leaves in the tree are those of the bounded query. */
  lemma KeptCtesAreTheBoundedOnes(q: Query, max: nat, name: string)
    requires Plain(q)
    ensures name in KeptCtes(Encode(q), max) <==> name in Introduced(Bounded(q, max))
  {
    TheCodeBuildsTheBoundedQuery(q, max);
    BoundedIsPlain(q, max);
    if q.tail != [] {
      BoundedRefersToNoMore(q, max);
      WalkFindsEveryCte(q, name);
    } else {
      WalkFindsEveryCte(Bounded(q, max), name);
    }
  }

  /**
   * Parsing and reviewing the statement that came back, each time with the parser's own
   * report. It is accepted again exactly when every table it still refers to, under a name
   * only the overwritten limit introduced, passes the gate; with the tables of the bounded
   * query, which are the first verdict's exactly when none was named by the overwritten
   * limit alone. Where the cap overwrites no sub-query, both hold.
   */
  lemma BoundedQueriesRevalidate(text: string, again: string, q: Query, tableList: seq<string>, relisted: seq<string>,
                                 schemaTables: seq<string>, config: SafetyConfig)
    requires Trim(text) != "" && Trim(again) != "" && Plain(q)
    requires Reports(tableList, q) && Reports(relisted, Bounded(q, config.maxRows))
    ensures var b := Bounded(q, config.maxRows);
            var first := VerdictOn(text, Parsed(Encode(q), 0, tableList), schemaTables, config);
            first.Success? ==>
              var second := VerdictOn(again, Parsed(Encode(b), 0, relisted), schemaTables, config);
              && (second.Success? <==> AllPass(RefNames(b) * Introduced(q) - Introduced(b), schemaTables, config.rules))
              && (second.Success? ==>
                    && second == Success(ValidatedSql(Encode(b), Trim(again), second.value.tables, config.maxRows, Author))
                    && (forall name :: name in second.value.tables <==> name in GlobalBase(b))
                    && (second.value.tables == first.value.tables <==> RefNames(q) - Introduced(b) <= RefNames(b)))
              && (LosesNoQuery(q, config.maxRows) ==> second.Success? && second.value.tables == first.value.tables)
  {
    var b, max := Bounded(q, config.maxRows), config.maxRows;
    TheVerdictCarriesTheBoundedQuery(text, q, tableList, schemaTables, config);
    HiddenAndReported(q, tableList, relisted, schemaTables, config);
    RevalidationIsStable(text, again, Encode(q), tableList, relisted, schemaTables, config);
    SameTablesWhen(q, tableList, relisted, max);
    if LosesNoQuery(q, max) {
      NothingLost(q, max);
    }
  }

  /** One name in the two reports and the two trees, and in the two queries. */
  lemma NameInBoth(q: Query, tableList: seq<string>, relisted: seq<string>, max: nat, name: string)
    requires Plain(q) && Reports(tableList, q) && Reports(relisted, Bounded(q, max))
    ensures name in EntryNames(tableList) <==> name in RefNames(q)
    ensures name in EntryNames(relisted) <==> name in RefNames(Bounded(q, max))
    ensures name in RefNames(Bounded(q, max)) ==> name in RefNames(q)
    ensures name in RefNames(q) ==> name != ""
    ensures name in CteNames(Obj(Encode(q))) <==> name in Introduced(q)
    ensures name in KeptCtes(Encode(q), max) <==> name in Introduced(Bounded(q, max))
  {
    BoundedRefersToNoMore(q, max);
    ReportedNames(tableList, Refs(q), name);
    ReportedNames(relisted, Refs(Bounded(q, max)), name);
    WalkFindsEveryCte(q, name);
    KeptCtesAreTheBoundedOnes(q, max, name);
  }

  lemma HiddenAndReported(q: Query, tableList: seq<string>, relisted: seq<string>, schemaTables: seq<string>, config: SafetyConfig)
    requires Plain(q) && Reports(tableList, q) && Reports(relisted, Bounded(q, config.maxRows))
    ensures var b, kept := Bounded(q, config.maxRows), KeptCtes(Encode(q), config.maxRows);
            && EntryNames(relisted) <= EntryNames(tableList)
            && ((forall name :: name in EntryNames(relisted) && name != "" && name in CteNames(Obj(Encode(q))) && name !in kept ==>
                   TablePasses(name, KnownNames(schemaTables), config.rules))
                <==> AllPass(RefNames(b) * Introduced(q) - Introduced(b), schemaTables, config.rules))
  {
    var b, kept := Bounded(q, config.maxRows), KeptCtes(Encode(q), config.maxRows);
    forall name
      ensures name in EntryNames(relisted) ==> name in EntryNames(tableList)
      ensures name in EntryNames(relisted) && name != "" && name in CteNames(Obj(Encode(q))) && name !in kept
         <==> name in RefNames(b) * Introduced(q) - Introduced(b)
    {
      NameInBoth(q, tableList, relisted, config.maxRows, name);
    }
  }

  lemma SameTablesWhen(q: Query, tableList: seq<string>, relisted: seq<string>, max: nat)
    requires Plain(q) && Reports(tableList, q) && Reports(relisted, Bounded(q, max))
    ensures var b, kept := Bounded(q, max), KeptCtes(Encode(q), max);
            && (forall name :: name in BaseTables(relisted, kept) <==> name in GlobalBase(b))
            && ((forall name :: name in EntryNames(tableList) && name != "" && name !in kept ==> name in EntryNames(relisted))
                <==> RefNames(q) - Introduced(b) <= RefNames(b))
  {
    var b, kept := Bounded(q, max), KeptCtes(Encode(q), max);
    forall name
      ensures name in BaseTables(relisted, kept) <==> name in GlobalBase(b)
      ensures name in EntryNames(tableList) && name != "" && name !in kept <==> name in RefNames(q) - Introduced(b)
      ensures name in EntryNames(relisted) <==> name in RefNames(b)
    {
      NameInBoth(q, tableList, relisted, max, name);
      BaseTablesMember(relisted, kept, name);
    }
  }

  /** The statement handed to the executor is the bounded query's tree. */
  lemma TheVerdictCarriesTheBoundedQuery(text: string, q: Query, tableList: seq<string>, schemaTables: seq<string>, config: SafetyConfig)
    ensures var verdict := VerdictOn(text, Parsed(Encode(q), 0, tableList), schemaTables, config);
            verdict.Success? ==> verdict.value.sql == Encode(Bounded(q, config.maxRows))
  {
    TheCodeBuildsTheBoundedQuery(q, config.maxRows);
  }
}
