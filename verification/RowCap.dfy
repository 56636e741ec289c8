/**
 * The row cap: reading the parser's limit node, rewriting it, and wrapping a set
 * operation. A statement's text is represented by the tree it parses to.
 */
module RowCap {
  import opened Sequences
  import opened JsonTree

  datatype LimitOrigin = Author | Injected | Clamped | Wrapped

  datatype Bounds = Bounds(limit: Option<int>, offset: Option<int>)

  // ---------------------------------------------------------------- trees of a select

  /** The select node the parser builds, with the properties the review and the cap look at. */
  function SelectTree(ctes: Json, columns: Json, from: seq<Json>, subqueries: seq<Json>,
                      limit: Json, next: Json, tailLimit: Json): (r: Record)
  {
    [ Field("with", ctes), Field("type", Str("select")), Field("columns", columns), Field("from", Arr(from)),
      Field("subqueries", Arr(subqueries)), Field("limit", limit), Field("_next", next), Field("_limit", tailLimit) ]
  }

  /** `(inner) AS "alias"` in a FROM clause. */
  function DerivedSource(inner: Record, alias: string): (r: Json)
  {
    Obj([Field("expr", Obj([Field("ast", Obj(inner)), Field("parentheses", Bool(true))])), Field("as", Str(alias))])
  }

  function NumberNode(n: int): (r: Json)
  {
    Obj([Field("type", Str("number")), Field("value", Number(n))])
  }

  function LimitNode(separator: string, values: seq<Json>): (r: Json)
  {
    Obj([Field("seperator", Str(separator)), Field("value", Arr(values))])
  }

  // ---------------------------------------------------------------- limit nodes

  function NumberAt(values: seq<Json>, index: nat): (r: Option<int>)
  {
    if index < |values| && values[index].Obj? then
      match Get(values[index].fields, "value")
      case Some(Number(n)) => Some(n)
      case _ => None
    else None
  }

  function LimitValues(node: Option<Json>): (r: seq<Json>)
  {
    match node
    case Some(Obj(fields)) => (match Get(fields, "value") case Some(Arr(values)) => values case _ => [])
    case _ => []
  }

  function LimitSeparator(node: Option<Json>): (r: string)
  {
    match node
    case Some(Obj(fields)) => (match Get(fields, "seperator") case Some(Str(s)) => s case _ => "")
    case _ => ""
  }

  function ReadLimitNode(node: Option<Json>): (r: Bounds)
  {
    var values := LimitValues(node);
    if LimitSeparator(node) == "offset" then
      if |values| > 1 then Bounds(NumberAt(values, 0), NumberAt(values, 1))
      else Bounds(None, NumberAt(values, 0))
    else Bounds(NumberAt(values, 0), None)
  }

  function WriteLimitNode(max: nat, offset: Option<int>): (r: Json)
  {
    if offset.None? then LimitNode("", [NumberNode(max)])
    else LimitNode("offset", [NumberNode(max), NumberNode(offset.value)])
  }

  // ---------------------------------------------------------------- the rewrite

  function OriginOf(ast: Record, max: nat): (r: LimitOrigin)
  {
    var bound := ReadLimitNode(Get(ast, "limit")).limit;
    if Truthy(Get(ast, "_next")) then Wrapped
    else if bound.None? then Injected
    else if bound.value > max then Clamped
    else Author
  }

  /** The statement's own tree after the rewrite, which overwrites `limit` in place. */
  function CappedAst(ast: Record, max: nat): (r: Record)
  {
    if OriginOf(ast, max) in {Injected, Clamped}
    then Put(ast, "limit", WriteLimitNode(max, ReadLimitNode(Get(ast, "limit")).offset))
    else ast
  }

  /** `SELECT * FROM (inner) AS "bounded_query" LIMIT max`. */
  function WrapTree(inner: Record, max: nat): (r: Record)
  {
    SelectTree(Null, Str("*"), [DerivedSource(inner, "bounded_query")], [],
               LimitNode("", [NumberNode(max)]), Null, Null)
  }

  /** The statement that comes back out. */
  function CappedSql(ast: Record, max: nat): (r: Record)
  {
    if OriginOf(ast, max) == Wrapped then WrapTree(ast, max) else CappedAst(ast, max)
  }

  /** What `parse` hands to the checks: the tree, which the cap mutates, and the reported tables. */
  class ParsedStatement {
    var ast: Record
    const tableList: seq<string>

    constructor (ast: Record, tableList: seq<string>)
      ensures this.ast == ast && this.tableList == tableList
    {
      this.ast := ast;
      this.tableList := tableList;
    }

    method EnforceRowLimit(max: nat) returns (sql: Record, origin: LimitOrigin)
      modifies this
      ensures ast == CappedAst(old(ast), max)
      ensures sql == CappedSql(old(ast), max)
      ensures origin == OriginOf(old(ast), max)
    {
      if Truthy(Get(ast, "_next")) {
        return WrapTree(ast, max), Wrapped;
      }
      var bounds := ReadLimitNode(Get(ast, "limit"));
      origin := Author;
      if bounds.limit.None? {
        origin := Injected;
      } else if bounds.limit.value > max {
        origin := Clamped;
      }
      if origin != Author {
        ast := Put(ast, "limit", WriteLimitNode(max, bounds.offset));
      }
      sql := ast;
    }
  }

  // ---------------------------------------------------------------- property lookup

  lemma {:induction false} GetAt(record: Record, key: string, i: nat)
    requires i < |record| && record[i].key == key
    requires forall j :: 0 <= j < i ==> record[j].key != key
    ensures Get(record, key) == Some(record[i].value)
  {
    if i > 0 {
      GetAt(record[1..], key, i - 1);
    }
  }

  lemma {:induction false} GetAbsent(record: Record, key: string)
    requires forall j :: 0 <= j < |record| ==> record[j].key != key
    ensures Get(record, key) == None
  {
    if record != [] {
      GetAbsent(record[1..], key);
    }
  }

  lemma {:induction false} PutAt(record: Record, key: string, value: Json, i: nat)
    requires i < |record| && record[i].key == key
    requires forall j :: 0 <= j < i ==> record[j].key != key
    ensures Put(record, key, value) == record[i := Field(key, value)]
  {
    if i > 0 {
      PutAt(record[1..], key, value, i - 1);
    }
  }

  lemma SelectTreeProperties(ctes: Json, columns: Json, from: seq<Json>, subqueries: seq<Json>,
                             limit: Json, next: Json, tailLimit: Json)
    ensures var t := SelectTree(ctes, columns, from, subqueries, limit, next, tailLimit);
            && Get(t, "with") == Some(ctes) && Get(t, "type") == Some(Str("select")) && Get(t, "into") == None
            && Get(t, "limit") == Some(limit) && Get(t, "_next") == Some(next)
    ensures forall other :: Put(SelectTree(ctes, columns, from, subqueries, limit, next, tailLimit), "limit", other)
                         == SelectTree(ctes, columns, from, subqueries, other, next, tailLimit)
  {
    var t := SelectTree(ctes, columns, from, subqueries, limit, next, tailLimit);
    GetAt(t, "with", 0);
    GetAt(t, "type", 1);
    GetAt(t, "limit", 5);
    GetAt(t, "_next", 6);
    GetAbsent(t, "into");
    forall other ensures Put(t, "limit", other) == SelectTree(ctes, columns, from, subqueries, other, next, tailLimit) {
      PutAt(t, "limit", other, 5);
    }
  }

  lemma LimitNodeProperties(separator: string, values: seq<Json>)
    ensures LimitValues(Some(LimitNode(separator, values))) == values
    ensures LimitSeparator(Some(LimitNode(separator, values))) == separator
  {
    var fields := LimitNode(separator, values).fields;
    GetAt(fields, "seperator", 0);
    GetAt(fields, "value", 1);
  }

  lemma NumberNodeProperties(n: int)
    ensures Get(NumberNode(n).fields, "value") == Some(Number(n))
  {
    GetAt(NumberNode(n).fields, "value", 1);
  }

  /** Reading back what was written: the cap, and the offset that was there. */
  lemma WriteThenRead(max: nat, offset: Option<int>)
    ensures ReadLimitNode(Some(WriteLimitNode(max, offset))) == Bounds(Some(max), offset)
  {
    NumberNodeProperties(max);
    if offset.None? {
      LimitNodeProperties("", [NumberNode(max)]);
    } else {
      NumberNodeProperties(offset.value);
      LimitNodeProperties("offset", [NumberNode(max), NumberNode(offset.value)]);
    }
  }

  lemma {:induction false} GetAfterPut(record: Record, key: string, value: Json, other: string)
    ensures Get(Put(record, key, value), other) == if other == key then Some(value) else Get(record, other)
  {
    if record != [] && record[0].key != key {
      GetAfterPut(record[1..], key, value, other);
    }
  }

  /**
   * For every tree: what comes out of the cap is within the cap, counts as the author's
   * own bound, and is left alone by a second pass.
   */
  lemma CappingIsStable(ast: Record, max: nat)
    ensures OriginOf(CappedSql(ast, max), max) == Author
    ensures CappedSql(CappedSql(ast, max), max) == CappedSql(ast, max)
    ensures var bound := ReadLimitNode(Get(CappedSql(ast, max), "limit")).limit; bound.Some? && bound.value <= max
  {
    var offset := ReadLimitNode(Get(ast, "limit")).offset;
    if OriginOf(ast, max) == Wrapped {
      WriteThenRead(max, None);
      SelectTreeProperties(Null, Str("*"), [DerivedSource(ast, "bounded_query")], [],
                           LimitNode("", [NumberNode(max)]), Null, Null);
    } else if OriginOf(ast, max) != Author {
      WriteThenRead(max, offset);
      GetAfterPut(ast, "limit", WriteLimitNode(max, offset), "limit");
      GetAfterPut(ast, "limit", WriteLimitNode(max, offset), "_next");
    }
  }
}
