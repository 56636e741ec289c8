/**
 * The parser's syntax tree as the safety review sees it: plain JSON objects,
 * found by a depth-first walk.
 */
module JsonTree {
  import opened Sequences

  datatype Json =
    | Null
    | Bool(b: bool)
    | Number(n: int)
    | Str(s: string)
    | Arr(items: seq<Json>)
    | Obj(fields: Record)

  datatype Field = Field(key: string, value: Json)

  /** An object's own properties in insertion order, which is the order `Object.values` uses. */
  type Record = seq<Field>

  /** Property access; `None` is JavaScript's `undefined`. */
  function Get(record: Record, key: string): (r: Option<Json>)
  {
    if record == [] then None
    else if record[0].key == key then Some(record[0].value)
    else Get(record[1..], key)
  }

  /** Property assignment: overwrites in place, or adds a property at the end. */
  function Put(record: Record, key: string, value: Json): (r: Record)
  {
    if record == [] then [Field(key, value)]
    else if record[0].key == key then [Field(key, value)] + record[1..]
    else [record[0]] + Put(record[1..], key, value)
  }

  predicate Truthy(value: Option<Json>)
  {
    value.Some? && value.value != Null && value.value != Bool(false)
    && value.value != Number(0) && value.value != Str("")
  }

  /** Depth-first, parents before children: every object node, as its record. */
  function Walk(node: Json): (nodes: seq<Record>)
    decreases node, 1
  {
    match node
    case Arr(items) => WalkItems(items)
    case Obj(fields) => [fields] + WalkFields(fields)
    case _ => []
  }

  function WalkItems(items: seq<Json>): (nodes: seq<Record>)
    decreases items, 0
  {
    if items == [] then [] else Walk(items[0]) + WalkItems(items[1..])
  }

  function WalkFields(fields: Record): (nodes: seq<Record>)
    decreases fields, 0
  {
    if fields == [] then [] else Walk(fields[0].value) + WalkFields(fields[1..])
  }

  /** Reference notion of "anywhere in the tree": follow child numbers from the root. */
  function Children(node: Json): (r: seq<Json>)
  {
    match node
    case Arr(items) => items
    case Obj(fields) => seq(|fields|, i requires 0 <= i < |fields| => fields[i].value)
    case _ => []
  }

  function NodeAt(node: Json, path: seq<nat>): (r: Option<Json>)
    decreases |path|
  {
    if path == [] then Some(node)
    else if path[0] < |Children(node)| then NodeAt(Children(node)[path[0]], path[1..])
    else None
  }

  ghost predicate Contains(tree: Json, record: Record)
  {
    exists path :: NodeAt(tree, path) == Some(Obj(record))
  }

  lemma {:induction false} WalkItemsMember(items: seq<Json>, record: Record)
    ensures record in WalkItems(items) <==> exists i :: 0 <= i < |items| && record in Walk(items[i])
  {
    if items != [] {
      WalkItemsMember(items[1..], record);
      if record in WalkItems(items[1..]) {
        var i :| 0 <= i < |items[1..]| && record in Walk(items[1..][i]);
        assert record in Walk(items[i + 1]);
      }
      if i :| 0 < i < |items| && record in Walk(items[i]) {
        assert items[1..][i - 1] == items[i];
      }
    }
  }

  lemma {:induction false} WalkFieldsMember(fields: Record, record: Record)
    ensures record in WalkFields(fields) <==> exists i :: 0 <= i < |fields| && record in Walk(fields[i].value)
  {
    if fields != [] {
      WalkFieldsMember(fields[1..], record);
      if record in WalkFields(fields[1..]) {
        var i :| 0 <= i < |fields[1..]| && record in Walk(fields[1..][i].value);
        assert record in Walk(fields[i + 1].value);
      }
      if i :| 0 < i < |fields| && record in Walk(fields[i].value) {
        assert fields[1..][i - 1] == fields[i];
      }
    }
  }

  /** The walk of a node, one level at a time. */
  lemma WalkStep(node: Json, record: Record)
    ensures record in Walk(node) <==>
            node == Obj(record) || exists i :: 0 <= i < |Children(node)| && record in Walk(Children(node)[i])
  {
    match node
    case Arr(items) =>
      WalkItemsMember(items, record);
      assert Children(node) == items;
    case Obj(fields) =>
      WalkFieldsMember(fields, record);
      if record in WalkFields(fields) {
        var i :| 0 <= i < |fields| && record in Walk(fields[i].value);
        assert record in Walk(Children(node)[i]);
      }
    case _ =>
  }

  /** The walk misses no object node, at any depth, and invents none. */
  lemma {:induction false} WalkVisitsExactlyTheNodes(tree: Json, record: Record)
    ensures record in Walk(tree) <==> Contains(tree, record)
    decreases tree
  {
    WalkStep(tree, record);
    var children := Children(tree);
    forall i | 0 <= i < |children|
      ensures record in Walk(children[i]) <==> Contains(children[i], record)
    {
      WalkVisitsExactlyTheNodes(children[i], record);
    }
    if record in Walk(tree) {
      if tree == Obj(record) {
        assert NodeAt(tree, []) == Some(Obj(record));
      } else {
        var i :| 0 <= i < |children| && record in Walk(children[i]);
        var path :| NodeAt(children[i], path) == Some(Obj(record));
        assert ([i] + path)[1..] == path;
        assert NodeAt(tree, [i] + path) == Some(Obj(record));
      }
    }
    if Contains(tree, record) {
      var path :| NodeAt(tree, path) == Some(Obj(record));
      if path != [] {
        assert NodeAt(children[path[0]], path[1..]) == Some(Obj(record));
      }
    }
  }
}
