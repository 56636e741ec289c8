/** Where the objects of a query's tree come from: its own expressions, the queries inside it, and glue. */
module EncodedTrees {
  import opened Sequences
  import opened JsonTree
  import opened RowCap
  import opened SqlReview
  import opened Queries
  import opened BoundedQueries

  /** The words the encoding uses as node types. */
  predicate PlainType(value: Option<Json>)
  {
    value in {None, Some(Str("number")), Some(Str("expr")), Some(Str("origin")), Some(Str("default"))}
  }

  /** An object the encoding adds around the parts: no statement, no target, no call, no WITH. */
  predicate Glue(node: Record)
  {
    PlainType(Get(node, "type")) && Get(node, "into").None? && Get(node, "with").None?
  }

  lemma GlueIsHarmless(node: Record)
    requires Glue(node)
    ensures HarmlessNode(node) && NodeCtes(node) == {}
  {
  }

  /** An object inside an expression of the query's own. */
  ghost predicate OwnNode(q: Query, node: Record)
  {
    || (q.shape.Expressions? && node in Walk(q.shape.tree))
    || (exists part :: TermAt(q, part).Computed? && node in Walk(TermAt(q, part).expr))
  }

  /** An object of the tree of some query directly inside. */
  ghost predicate InnerNode(q: Query, node: Record)
  {
    exists at :: Holds(q, at) && node in Walk(Obj(Encode(Inner(q, at))))
  }

  // ---------------------------------------------------------------- nothing else gets in

  ghost predicate MadeOf(tree: Json, nodes: iset<Record>)
  {
    forall node :: node in Walk(tree) ==> node in nodes
  }

  ghost predicate AllowsGlue(nodes: iset<Record>)
  {
    forall node :: Glue(node) ==> node in nodes
  }

  lemma ItemsMade(items: seq<Json>, nodes: iset<Record>)
    requires forall i :: 0 <= i < |items| ==> MadeOf(items[i], nodes)
    ensures MadeOf(Arr(items), nodes)
  {
    forall node | node in WalkItems(items) ensures node in nodes {
      WalkItemsMember(items, node);
    }
  }

  lemma RecordMade(record: Record, nodes: iset<Record>)
    requires record in nodes && forall i :: 0 <= i < |record| ==> MadeOf(record[i].value, nodes)
    ensures MadeOf(Obj(record), nodes)
  {
    forall node | node in WalkFields(record) ensures node in nodes {
      WalkFieldsMember(record, node);
    }
  }

  /** A record whose keys and type are the encoding's own. */
  lemma GlueMade(record: Record, nodes: iset<Record>)
    requires AllowsGlue(nodes) && forall i :: 0 <= i < |record| ==> record[i].key !in {"with", "into"}
    requires forall i :: 0 <= i < |record| && record[i].key == "type" ==> i == 0 && PlainType(Some(record[0].value))
    requires forall i :: 0 <= i < |record| ==> MadeOf(record[i].value, nodes)
    ensures MadeOf(Obj(record), nodes)
  {
    GetAbsent(record, "with");
    GetAbsent(record, "into");
    if record != [] && record[0].key == "type" {
      GetAt(record, "type", 0);
    } else {
      GetAbsent(record, "type");
    }
    RecordMade(record, nodes);
  }

  lemma ListMade(queries: seq<Query>, nodes: iset<Record>)
    requires forall k :: 0 <= k < |queries| ==> MadeOf(Obj(Encode(queries[k])), nodes)
    ensures MadeOf(Arr(EncodeAll(queries)), nodes)
  {
    var items := EncodeAll(queries);
    assert forall k :: 0 <= k < |items| ==> items[k] == Obj(Encode(queries[k]));
    ItemsMade(items, nodes);
  }

  /** What a term's expression and sub-queries are made of. */
  ghost predicate TermPartsMade(term: Term, nodes: iset<Record>)
  {
    && (term.Computed? ==> MadeOf(term.expr, nodes))
    && (forall k :: 0 <= k < |QueriesIn(term)| ==> MadeOf(Obj(Encode(QueriesIn(term)[k])), nodes))
  }

  lemma TermMade(term: Term, nodes: iset<Record>)
    requires AllowsGlue(nodes) && !term.Absent? && TermPartsMade(term, nodes)
    ensures MadeOf(EncodeTerm(term), nodes)
  {
    if term.Computed? {
      assert QueriesIn(term) == term.queries;
      ListMade(QueriesIn(term), nodes);
    }
    GlueMade(EncodeTerm(term).fields, nodes);
  }

  lemma ClauseMade(clause: LimitClause, nodes: iset<Record>)
    requires AllowsGlue(nodes) && TermPartsMade(clause.bound, nodes) && TermPartsMade(clause.offset, nodes)
    ensures MadeOf(EncodeLimit(clause), nodes)
  {
    if !clause.bound.Absent? {
      TermMade(clause.bound, nodes);
    }
    if !clause.offset.Absent? {
      TermMade(clause.offset, nodes);
    }
    var node := EncodeLimit(clause).fields;
    ItemsMade(node[1].value.items, nodes);
    GlueMade(node, nodes);
  }

  lemma CteNodeMade(name: string, body: Record, nodes: iset<Record>)
    requires AllowsGlue(nodes) && MadeOf(Obj(body), nodes)
    ensures MadeOf(CteNode(name, body), nodes)
  {
    GlueMade([Field("type", Str("default")), Field("value", Str(name))], nodes);
    GlueMade(CteNode(name, body).fields, nodes);
  }

  lemma SourceMade(s: Source, nodes: iset<Record>)
    requires AllowsGlue(nodes) && (s.Derived? ==> MadeOf(Obj(Encode(s.body)), nodes))
    ensures MadeOf(EncodeSource(s), nodes)
  {
    if s.Derived? {
      GlueMade([Field("ast", Obj(Encode(s.body))), Field("parentheses", Bool(true))], nodes);
    }
    GlueMade(EncodeSource(s).fields, nodes);
  }

  lemma WithMade(q: Query, nodes: iset<Record>)
    requires AllowsGlue(nodes) && forall k :: 0 <= k < |q.ctes| ==> MadeOf(Obj(Encode(q.ctes[k].body)), nodes)
    ensures MadeOf(Encode(q)[0].value, nodes)
  {
    if q.ctes != [] {
      var items := Encode(q)[0].value.items;
      forall k | 0 <= k < |q.ctes| ensures MadeOf(items[k], nodes) {
        CteNodeMade(q.ctes[k].name, Encode(q.ctes[k].body), nodes);
      }
      ItemsMade(items, nodes);
    }
  }

  lemma FromMade(q: Query, nodes: iset<Record>)
    requires AllowsGlue(nodes)
    requires forall k :: 0 <= k < |q.sources| && q.sources[k].Derived? ==> MadeOf(Obj(Encode(q.sources[k].body)), nodes)
    ensures MadeOf(Encode(q)[3].value, nodes)
  {
    var items := Encode(q)[3].value.items;
    forall k | 0 <= k < |q.sources| ensures MadeOf(items[k], nodes) {
      assert items[k] == EncodeSource(q.sources[k]);
      SourceMade(q.sources[k], nodes);
    }
    ItemsMade(items, nodes);
  }

  lemma TailMade(q: Query, nodes: iset<Record>)
    requires AllowsGlue(nodes) && forall k :: 0 <= k < |q.tail| ==> MadeOf(Obj(Encode(q.tail[k].body)), nodes)
    ensures MadeOf(Encode(q)[6].value, nodes)
  {
    if q.tail != [] {
      var items := Encode(q)[6].value.items;
      forall k | 0 <= k < |q.tail| ensures MadeOf(items[k], nodes) {
        GlueMade(BranchNode(q.tail[k].op, Encode(q.tail[k].body)).fields, nodes);
      }
      ItemsMade(items, nodes);
    }
  }

  lemma LimitsMade(q: Query, nodes: iset<Record>)
    requires AllowsGlue(nodes) && forall part :: TermPartsMade(TermAt(q, part), nodes)
    ensures MadeOf(Encode(q)[5].value, nodes) && MadeOf(Encode(q)[7].value, nodes)
  {
    assert TermPartsMade(TermAt(q, Bound), nodes) && TermPartsMade(TermAt(q, Offset), nodes);
    ClauseMade(q.limit, nodes);
    if q.tail != [] {
      assert TermPartsMade(TermAt(q, TailBound), nodes) && TermPartsMade(TermAt(q, TailOffset), nodes);
      ClauseMade(q.tailLimit, nodes);
    }
  }

  ghost predicate InnerMade(q: Query, nodes: iset<Record>)
  {
    forall at :: Holds(q, at) ==> MadeOf(Obj(Encode(Inner(q, at))), nodes)
  }

  lemma TermPartsAreMade(q: Query, part: LimitPart, nodes: iset<Record>)
    requires InnerMade(q, nodes) && forall node :: OwnNode(q, node) ==> node in nodes
    ensures TermPartsMade(TermAt(q, part), nodes)
  {
    forall k | 0 <= k < |QueriesIn(TermAt(q, part))| ensures MadeOf(Obj(Encode(QueriesIn(TermAt(q, part))[k])), nodes) {
      assert Holds(q, InLimit(part, k));
    }
  }

  /** Everything but the limits. */
  lemma OtherPartsMade(q: Query, nodes: iset<Record>)
    requires AllowsGlue(nodes) && InnerMade(q, nodes)
    ensures MadeOf(Encode(q)[0].value, nodes) && MadeOf(Encode(q)[3].value, nodes)
    ensures MadeOf(Encode(q)[4].value, nodes) && MadeOf(Encode(q)[6].value, nodes)
  {
    forall k | 0 <= k < |q.ctes| ensures MadeOf(Obj(Encode(q.ctes[k].body)), nodes) {
      assert Holds(q, InWith(k));
    }
    forall k | 0 <= k < |q.sources| && q.sources[k].Derived? ensures MadeOf(Obj(Encode(q.sources[k].body)), nodes) {
      assert Holds(q, InFrom(k));
    }
    forall k | 0 <= k < |q.subqueries| ensures MadeOf(Obj(Encode(q.subqueries[k])), nodes) {
      assert Holds(q, InExpression(k));
    }
    forall k | 0 <= k < |q.tail| ensures MadeOf(Obj(Encode(q.tail[k].body)), nodes) {
      assert Holds(q, InTail(k));
    }
    WithMade(q, nodes);
    FromMade(q, nodes);
    ListMade(q.subqueries, nodes);
    TailMade(q, nodes);
  }

  lemma QueryMade(q: Query, nodes: iset<Record>)
    requires AllowsGlue(nodes) && Encode(q) in nodes && InnerMade(q, nodes)
    requires forall node :: OwnNode(q, node) ==> node in nodes
    ensures MadeOf(Obj(Encode(q)), nodes)
  {
    var t := Encode(q);
    forall part ensures TermPartsMade(TermAt(q, part), nodes) {
      TermPartsAreMade(q, part, nodes);
    }
    OtherPartsMade(q, nodes);
    LimitsMade(q, nodes);
    assert MadeOf(t[1].value, nodes) && MadeOf(t[2].value, nodes);
    RecordMade(t, nodes);
  }

  // ---------------------------------------------------------------- and nothing is left out

  ghost predicate PartOf(part: Json, tree: Json)
  {
    forall node :: node in Walk(part) ==> node in Walk(tree)
  }

  lemma ItemIsPart(items: seq<Json>, i: nat)
    requires i < |items|
    ensures PartOf(items[i], Arr(items))
  {
    forall node | node in Walk(items[i]) ensures node in WalkItems(items) {
      WalkItemsMember(items, node);
    }
  }

  lemma FieldIsPart(record: Record, i: nat)
    requires i < |record|
    ensures PartOf(record[i].value, Obj(record))
  {
    forall node | node in Walk(record[i].value) ensures node in WalkFields(record) {
      WalkFieldsMember(record, node);
    }
  }

  lemma ListedIsPart(queries: seq<Query>, k: nat)
    requires k < |queries|
    ensures PartOf(Obj(Encode(queries[k])), Arr(EncodeAll(queries)))
  {
    ItemIsPart(EncodeAll(queries), k);
    assert EncodeAll(queries)[k] == Obj(Encode(queries[k]));
  }

  lemma TermIsPart(clause: LimitClause, term: Term)
    requires term == clause.bound || term == clause.offset
    requires term.Computed?
    ensures PartOf(EncodeTerm(term), EncodeLimit(clause))
    ensures PartOf(term.expr, EncodeTerm(term)) && PartOf(Arr(EncodeAll(term.queries)), EncodeTerm(term))
  {
    var node := EncodeLimit(clause).fields;
    var values := node[1].value.items;
    FieldIsPart(node, 1);
    ItemIsPart(values, if term == clause.bound then 0 else |values| - 1);
    FieldIsPart(EncodeTerm(term).fields, 1);
    FieldIsPart(EncodeTerm(term).fields, 2);
  }

  /** The computed term at that part of a query's limits sits in the query's tree. */
  lemma LimitTermIsPart(q: Query, part: LimitPart)
    requires TermAt(q, part).Computed?
    ensures PartOf(EncodeTerm(TermAt(q, part)), Obj(Encode(q)))
    ensures PartOf(TermAt(q, part).expr, EncodeTerm(TermAt(q, part)))
    ensures PartOf(Arr(EncodeAll(TermAt(q, part).queries)), EncodeTerm(TermAt(q, part)))
  {
    if part.Bound? || part.Offset? {
      TermIsPart(q.limit, TermAt(q, part));
      FieldIsPart(Encode(q), 5);
    } else {
      TermIsPart(q.tailLimit, TermAt(q, part));
      FieldIsPart(Encode(q), 7);
    }
  }

  lemma CteBodyIsPart(q: Query, k: nat)
    requires k < |q.ctes|
    ensures PartOf(Obj(Encode(q.ctes[k].body)), Obj(Encode(q)))
  {
    FieldIsPart(CteNode(q.ctes[k].name, Encode(q.ctes[k].body)).fields, 1);
    ItemIsPart(Encode(q)[0].value.items, k);
    FieldIsPart(Encode(q), 0);
  }

  lemma SourceBodyIsPart(q: Query, k: nat)
    requires k < |q.sources| && q.sources[k].Derived?
    ensures PartOf(Obj(Encode(q.sources[k].body)), Obj(Encode(q)))
  {
    var source := DerivedSource(Encode(q.sources[k].body), q.sources[k].alias);
    FieldIsPart(source.fields[0].value.fields, 0);
    FieldIsPart(source.fields, 0);
    assert Encode(q)[3].value.items[k] == EncodeSource(q.sources[k]);
    ItemIsPart(Encode(q)[3].value.items, k);
    FieldIsPart(Encode(q), 3);
  }

  lemma BranchBodyIsPart(q: Query, k: nat)
    requires k < |q.tail|
    ensures PartOf(Obj(Encode(q.tail[k].body)), Obj(Encode(q)))
  {
    FieldIsPart(BranchNode(q.tail[k].op, Encode(q.tail[k].body)).fields, 1);
    ItemIsPart(Encode(q)[6].value.items, k);
    FieldIsPart(Encode(q), 6);
  }

  lemma InnerIsPart(q: Query, at: Place)
    requires Holds(q, at)
    ensures PartOf(Obj(Encode(Inner(q, at))), Obj(Encode(q)))
  {
    match at
    case InWith(k) => CteBodyIsPart(q, k);
    case InFrom(k) => SourceBodyIsPart(q, k);
    case InExpression(k) =>
      ListedIsPart(q.subqueries, k);
      FieldIsPart(Encode(q), 4);
    case InTail(k) => BranchBodyIsPart(q, k);
    case InLimit(part, k) =>
      LimitTermIsPart(q, part);
      ListedIsPart(QueriesIn(TermAt(q, part)), k);
  }

  /**
   * The objects of a query's tree are its root, the objects of its own expressions, those
   * of the trees of the queries inside it, and glue.
   */
  lemma EncodedNodes(q: Query, node: Record)
    ensures node in Walk(Obj(Encode(q))) ==> node == Encode(q) || OwnNode(q, node) || InnerNode(q, node) || Glue(node)
    ensures node == Encode(q) || OwnNode(q, node) || InnerNode(q, node) ==> node in Walk(Obj(Encode(q)))
  {
    var nodes := iset n: Record | n == Encode(q) || OwnNode(q, n) || InnerNode(q, n) || Glue(n);
    forall at | Holds(q, at) ensures MadeOf(Obj(Encode(Inner(q, at))), nodes) {
      forall n | n in Walk(Obj(Encode(Inner(q, at)))) ensures n in nodes {
        assert InnerNode(q, n);
      }
    }
    QueryMade(q, nodes);
    if OwnNode(q, node) {
      OwnNodesAreParts(q, node);
    }
    if InnerNode(q, node) {
      var at :| Holds(q, at) && node in Walk(Obj(Encode(Inner(q, at))));
      InnerIsPart(q, at);
    }
  }

  lemma OwnNodesAreParts(q: Query, node: Record)
    requires OwnNode(q, node)
    ensures node in Walk(Obj(Encode(q)))
  {
    if q.shape.Expressions? && node in Walk(q.shape.tree) {
      FieldIsPart(Encode(q), 2);
    } else {
      var part :| TermAt(q, part).Computed? && node in Walk(TermAt(q, part).expr);
      LimitTermIsPart(q, part);
    }
  }
}
