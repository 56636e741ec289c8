/**
 * Safety review of one parsed statement: the checks that walk the whole tree,
 * the table rules, and the collapse of repeated findings.
 */
module SqlReview {
  import opened Sequences
  import opened Text
  import opened JsonTree
  import opened Distinct

  const FORBIDDEN_STATEMENT_TYPES: set<string> := {
    "alter", "analyze", "call", "comment", "copy", "create", "declare", "delete", "desc", "drop",
    "execute", "explain", "grant", "insert", "load", "lock", "prepare", "rename", "replace", "revoke",
    "set", "show", "transaction", "truncate", "update", "use"
  }

  const FORBIDDEN_FUNCTIONS: set<string> := {
    "dblink", "dblink_exec", "lo_export", "lo_import", "pg_cancel_backend", "pg_logical_emit_message",
    "pg_ls_dir", "pg_read_binary_file", "pg_read_file", "pg_reload_conf", "pg_rotate_logfile", "pg_sleep",
    "pg_sleep_for", "pg_sleep_until", "pg_stat_file", "pg_terminate_backend", "query_to_xml", "set_config"
  }

  datatype ViolationCode =
    | EmptyStatement | Unparseable | MultipleStatements | NotASelect
    | SelectInto | ForbiddenFunction | UnknownTable | DeniedTable

  datatype Violation = Violation(code: ViolationCode, subject: Option<string>)

  datatype TableRules = TableRules(allowed: seq<string>, denied: seq<string>)

  // ---------------------------------------------------------------- one node

  function StringField(node: Record, key: string): (r: Option<string>)
  {
    match Get(node, key)
    case Some(Str(s)) => Some(s)
    case _ => None
  }

  /** JavaScript's `String(value)`. */
  function Shown(value: Option<Json>): (r: string)
  {
    match value
    case None => "undefined"
    case Some(json) => TextOf(json)
  }

  function TextOf(value: Json): (r: string)
    decreases value, 1
  {
    match value
    case Null => "null"
    case Bool(b) => if b then "true" else "false"
    case Number(n) => if n < 0 then "-" + Digits(-n) else Digits(n)
    case Str(s) => s
    case Arr(items) => ElementsText(items)
    case Obj(_) => "[object Object]"
  }

  /** An array's elements between commas; null ones leave nothing. */
  function ElementsText(items: seq<Json>): (r: string)
    decreases items, 0
  {
    if items == [] then ""
    else
      (if items[0].Null? then "" else TextOf(items[0]))
      + if |items| == 1 then "" else "," + ElementsText(items[1..])
  }

  function Digits(n: nat): (r: string)
  {
    (if n < 10 then "" else Digits(n / 10)) + ["0123456789"[n % 10]]
  }

  /** What a row of decimal digits stands for. */
  function ValueOf(digits: string): (r: nat)
  {
    if digits == "" then 0
    else
      var last := digits[|digits| - 1];
      ValueOf(digits[..|digits| - 1]) * 10 + if '0' <= last <= '9' then last as int - '0' as int else 0
  }

  lemma DigitAt(d: nat)
    requires d < 10
    ensures var c := "0123456789"[d]; '0' <= c <= '9' && c as int == '0' as int + d
  {
  }

  lemma {:induction false} DigitsStandFor(n: nat)
    ensures Digits(n) != "" && ValueOf(Digits(n)) == n
    ensures forall c :: c in Digits(n) ==> '0' <= c <= '9'
  {
    DigitAt(n % 10);
    if n >= 10 {
      DigitsStandFor(n / 10);
      assert Digits(n)[..|Digits(n)| - 1] == Digits(n / 10);
    }
  }

  function ElementText(): Json -> string
  {
    (item: Json) => if item.Null? then "" else TextOf(item)
  }

  lemma {:induction false} ElementsAreJoined(items: seq<Json>)
    ensures ElementsText(items) == Join(Map(items, ElementText()), ",")
  {
    if |items| > 1 {
      ElementsAreJoined(items[1..]);
      assert Map(items, ElementText())[1..] == Map(items[1..], ElementText());
      assert ElementsText(items) == Map(items, ElementText())[0] + ("," + ElementsText(items[1..]));
    }
  }

  /** The number's digits, behind a minus sign where it is negative. */
  predicate ReadsAs(text: string, n: int)
  {
    if n < 0 then text != "" && text[0] == '-' && ValueOf(text[1..]) == -n
    else text != "" && text[0] != '-' && ValueOf(text) == n
  }

  lemma NumberReadsAs(n: int)
    ensures ReadsAs(TextOf(Number(n)), n)
  {
    if n < 0 {
      DigitsStandFor(-n);
      var digits := Digits(-n);
      assert TextOf(Number(n)) == "-" + digits && ("-" + digits)[1..] == digits;
    } else {
      DigitsStandFor(n);
      assert TextOf(Number(n))[0] in Digits(n);
    }
  }

  /** A value as text: a string is itself, a number its digits, an array its elements between commas. */
  lemma ShownAsText(value: Option<Json>)
    ensures match value
            case None => Shown(value) == "undefined"
            case Some(Null) => Shown(value) == "null"
            case Some(Bool(b)) => Shown(value) == if b then "true" else "false"
            case Some(Str(s)) => Shown(value) == s
            case Some(Obj(_)) => Shown(value) == "[object Object]"
            case Some(Arr(items)) => Shown(value) == Join(Map(items, ElementText()), ",")
            case Some(Number(n)) => ReadsAs(Shown(value), n)
  {
    match value
    case Some(Number(n)) => NumberReadsAs(n);
    case Some(Arr(items)) => ElementsAreJoined(items);
    case _ =>
  }

  predicate HasForbiddenType(node: Record)
  {
    var kind := StringField(node, "type");
    kind.Some? && kind.value in FORBIDDEN_STATEMENT_TYPES
  }

  /** The target of SELECT ... INTO, when the node names one. */
  function IntoTarget(node: Record): (r: Option<Json>)
  {
    match Get(node, "into")
    case Some(Obj(into)) => if Truthy(Get(into, "expr")) then Get(into, "expr") else None
    case _ => None
  }

  /** Every part of the function name a node calls, lower-cased. */
  function CalledNames(node: Record): (r: seq<string>)
  {
    if Get(node, "type") != Some(Str("function")) && Get(node, "type") != Some(Str("aggr_func")) then []
    else
      match Get(node, "name")
      case Some(Str(name)) => [Lower(name)]
      case Some(Obj(qualified)) =>
        (match Get(qualified, "name")
         case Some(Arr(parts)) => PartNames(parts)
         case _ => [])
      case _ => []
  }

  function PartNames(parts: seq<Json>): (r: seq<string>)
  {
    if parts == [] then []
    else PartNames(parts[..|parts| - 1]) + PartName(parts[|parts| - 1])
  }

  function PartName(part: Json): (r: seq<string>)
  {
    match part
    case Obj(fields) => (match Get(fields, "value") case Some(Str(s)) => [Lower(s)] case _ => [])
    case _ => []
  }

  /** Names a WITH clause on this node introduces, lower-cased. */
  function NodeCtes(node: Record): (r: set<string>)
  {
    match Get(node, "with")
    case Some(Arr(entries)) => set i | 0 <= i < |entries| && CteName(entries[i]).Some? :: CteName(entries[i]).value
    case _ => {}
  }

  /** `entry?.name?.value`, when it is a string. */
  function CteName(entry: Json): (r: Option<string>)
  {
    match entry
    case Obj(fields) =>
      (match Get(fields, "name")
       case Some(Obj(name)) => (match Get(name, "value") case Some(Str(s)) => Some(Lower(s)) case _ => None)
       case _ => None)
    case _ => None
  }

  // ------------------------------------------------- findings, as the specification

  function NodeFindings(node: Record): (r: seq<Violation>)
  {
    (if HasForbiddenType(node) then [Violation(NotASelect, StringField(node, "type"))] else [])
    + match IntoTarget(node)
      case None => []
      case Some(Str(name)) => [Violation(SelectInto, Some(name))]
      case Some(_) => [Violation(SelectInto, None)]
  }

  function WalkFindings(nodes: seq<Record>): (r: seq<Violation>)
  {
    if nodes == [] then []
    else WalkFindings(nodes[..|nodes| - 1]) + NodeFindings(nodes[|nodes| - 1])
  }

  lemma WalkFindingsPush(nodes: seq<Record>, i: nat)
    requires i < |nodes|
    ensures WalkFindings(nodes[..i + 1]) == WalkFindings(nodes[..i]) + NodeFindings(nodes[i])
  {
    assert nodes[..i + 1][..i] == nodes[..i];
  }

  function RootFindings(ast: Record): (r: seq<Violation>)
  {
    if Get(ast, "type") == Some(Str("select")) then []
    else [Violation(NotASelect, Some(Shown(Get(ast, "type"))))]
  }

  function AllCalledNames(nodes: seq<Record>): (r: seq<string>)
  {
    if nodes == [] then []
    else AllCalledNames(nodes[..|nodes| - 1]) + CalledNames(nodes[|nodes| - 1])
  }

  function FunctionFindings(names: seq<string>): (r: seq<Violation>)
  {
    if names == [] then []
    else
      var last := names[|names| - 1];
      FunctionFindings(names[..|names| - 1])
      + if last in FORBIDDEN_FUNCTIONS then [Violation(ForbiddenFunction, Some(last))] else []
  }

  lemma FunctionFindingsPush(names: seq<string>, i: nat)
    requires i < |names|
    ensures FunctionFindings(names[..i + 1])
         == FunctionFindings(names[..i])
            + if names[i] in FORBIDDEN_FUNCTIONS then [Violation(ForbiddenFunction, Some(names[i]))] else []
  {
    assert names[..i + 1][..i] == names[..i];
  }

  function CteNames(tree: Json): (r: set<string>)
  {
    NamesIntroduced(Walk(tree))
  }

  function NamesIntroduced(nodes: seq<Record>): (r: set<string>)
  {
    set i, name | 0 <= i < |nodes| && name in NodeCtes(nodes[i]) :: name
  }

  lemma NamesIntroducedPush(nodes: seq<Record>, i: nat)
    requires i < |nodes|
    ensures NamesIntroduced(nodes[..i + 1]) == NamesIntroduced(nodes[..i]) + NodeCtes(nodes[i])
  {
    var front, all := nodes[..i], nodes[..i + 1];
    assert all[i] == nodes[i];
    assert forall k :: 0 <= k < i ==> front[k] == all[k];
  }

  /** The tables a statement is judged by: reported names less every CTE name, sorted. */
  function BaseTables(tableList: seq<string>, ctes: set<string>): (r: seq<string>)
  {
    SortedUnique(Filter(ListedNames(tableList), NotIn(ctes)))
  }

  /** The last segment of each reported entry, if there is one, in lower case. */
  function ListedNames(tableList: seq<string>): (r: seq<string>)
  {
    var lasts := Map(tableList, (entry: string) => LastSegment(entry));
    var named := Filter(lasts, (name: string) => |name| > 0);
    Map(named, (name: string) => Lower(name))
  }

  function NotIn(names: set<string>): string -> bool
  {
    (name: string) => name !in names
  }

  function TableFinding(table: string, known: set<string>, rules: TableRules): (r: seq<Violation>)
  {
    if table in rules.denied then [Violation(DeniedTable, Some(table))]
    else if rules.allowed != [] && table !in rules.allowed then [Violation(DeniedTable, Some(table))]
    else if table !in known then [Violation(UnknownTable, Some(table))]
    else []
  }

  function TableFindings(tables: seq<string>, known: set<string>, rules: TableRules): (r: seq<Violation>)
  {
    if tables == [] then []
    else
      TableFindings(tables[..|tables| - 1], known, rules)
      + TableFinding(tables[|tables| - 1], known, rules)
  }

  /** A table the gate lets through. */
  predicate TablePasses(table: string, known: set<string>, rules: TableRules)
  {
    table !in rules.denied && (rules.allowed == [] || table in rules.allowed) && table in known
  }

  function KnownNames(names: seq<string>): (r: set<string>)
  {
    set i | 0 <= i < |names| :: Lower(names[i])
  }

  function Findings(ast: Record, tableList: seq<string>, known: set<string>, rules: TableRules): (r: seq<Violation>)
  {
    RootFindings(ast) + WalkFindings(Walk(Obj(ast)))
    + FunctionFindings(AllCalledNames(Walk(Obj(ast))))
    + TableFindings(BaseTables(tableList, CteNames(Obj(ast))), known, rules)
  }

  // ---------------------------------------------------------------- the loops

  method CheckStatementShape(ast: Record) returns (violations: seq<Violation>)
    ensures violations == RootFindings(ast) + WalkFindings(Walk(Obj(ast)))
  {
    violations := [];
    if Get(ast, "type") != Some(Str("select")) {
      violations := violations + [Violation(NotASelect, Some(Shown(Get(ast, "type"))))];
    }
    ghost var root := violations;
    assert root == RootFindings(ast);
    var nodes := Walk(Obj(ast));
    for i := 0 to |nodes|
      invariant violations == root + WalkFindings(nodes[..i])
    {
      var found := CheckNode(nodes[i]);
      WalkFindingsPush(nodes, i);
      assert root + (WalkFindings(nodes[..i]) + found) == violations + found;
      violations := violations + found;
    }
    assert nodes[..|nodes|] == nodes;
  }

  method CheckNode(node: Record) returns (found: seq<Violation>)
    ensures found == NodeFindings(node)
  {
    found := [];
    if HasForbiddenType(node) {
      found := found + [Violation(NotASelect, StringField(node, "type"))];
    }
    var target := IntoTarget(node);
    if target.Some? {
      found := found + [Violation(SelectInto, if target.value.Str? then Some(target.value.s) else None)];
    }
  }

  method FunctionNames(ast: Record) returns (names: seq<string>)
    ensures names == AllCalledNames(Walk(Obj(ast)))
  {
    names := [];
    var nodes := Walk(Obj(ast));
    for i := 0 to |nodes|
      invariant names == AllCalledNames(nodes[..i])
    {
      names := names + CalledNames(nodes[i]);
      assert nodes[..i + 1][..i] == nodes[..i];
    }
    assert nodes[..|nodes|] == nodes;
  }

  method CheckFunctions(ast: Record) returns (violations: seq<Violation>)
    ensures violations == FunctionFindings(AllCalledNames(Walk(Obj(ast))))
  {
    var names := FunctionNames(ast);
    violations := [];
    for i := 0 to |names|
      invariant violations == FunctionFindings(names[..i])
    {
      FunctionFindingsPush(names, i);
      if names[i] in FORBIDDEN_FUNCTIONS {
        violations := violations + [Violation(ForbiddenFunction, Some(names[i]))];
      }
    }
    assert names[..|names|] == names;
  }

  method CollectCteNames(ast: Record) returns (names: set<string>)
    ensures names == CteNames(Obj(ast))
  {
    names := {};
    var nodes := Walk(Obj(ast));
    for i := 0 to |nodes|
      invariant names == NamesIntroduced(nodes[..i])
    {
      var clause := Get(nodes[i], "with");
      ghost var before := names;
      if clause.Some? && clause.value.Arr? {
        var entries := clause.value.items;
        for j := 0 to |entries|
          invariant names == before + set k | 0 <= k < j && CteName(entries[k]).Some? :: CteName(entries[k]).value
        {
          var name := CteName(entries[j]);
          if name.Some? {
            names := names + {name.value};
          }
        }
      }
      assert names == before + NodeCtes(nodes[i]);
      NamesIntroducedPush(nodes, i);
    }
    assert nodes[..|nodes|] == nodes;
  }

  method CheckTables(ast: Record, tableList: seq<string>, schemaTables: seq<string>, rules: TableRules)
    returns (violations: seq<Violation>)
    ensures violations
         == TableFindings(BaseTables(tableList, CteNames(Obj(ast))), KnownNames(schemaTables), rules)
  {
    violations := [];
    var known := KnownNames(schemaTables);
    var ctes := CollectCteNames(ast);
    var tables := BaseTables(tableList, ctes);
    for i := 0 to |tables|
      invariant violations == TableFindings(tables[..i], known, rules)
    {
      var table := tables[i];
      assert tables[..i + 1][..i] == tables[..i];
      if table in rules.denied {
        violations := violations + [Violation(DeniedTable, Some(table))];
        continue;
      }
      if |rules.allowed| > 0 && table !in rules.allowed {
        violations := violations + [Violation(DeniedTable, Some(table))];
        continue;
      }
      if table !in known {
        violations := violations + [Violation(UnknownTable, Some(table))];
      }
    }
    assert tables[..|tables|] == tables;
  }

  // ---------------------------------------------------------------- repeated findings

  function CodeText(code: ViolationCode): (r: string)
  {
    match code
    case EmptyStatement => "empty_statement"
    case Unparseable => "unparseable"
    case MultipleStatements => "multiple_statements"
    case NotASelect => "not_a_select"
    case SelectInto => "select_into"
    case ForbiddenFunction => "forbidden_function"
    case UnknownTable => "unknown_table"
    case DeniedTable => "denied_table"
  }

  function FindingKey(v: Violation): (r: string)
  {
    CodeText(v.code) + ":" + if v.subject.Some? then v.subject.value else ""
  }

  predicate SaysTheSame(v: Violation, w: Violation)
  {
    v.code == w.code
    && (if v.subject.Some? then v.subject.value else "") == (if w.subject.Some? then w.subject.value else "")
  }

  /** Two findings are repeats of each other exactly when code and subject agree. */
  lemma FindingKeySeparates(v: Violation, w: Violation)
    ensures FindingKey(v) == FindingKey(w) <==> SaysTheSame(v, w)
  {
    var a, b := CodeText(v.code), CodeText(w.code);
    var x := if v.subject.Some? then v.subject.value else "";
    var y := if w.subject.Some? then w.subject.value else "";
    if FindingKey(v) == FindingKey(w) {
      CodeTextIsPlain(v.code);
      CodeTextIsPlain(w.code);
      FirstColon(a, x, b, y);
    }
  }

  lemma CodeTextIsPlain(code: ViolationCode)
    ensures ':' !in CodeText(code)
  {
  }

  lemma FirstColon(a: string, x: string, b: string, y: string)
    requires ':' !in a && ':' !in b && a + ":" + x == b + ":" + y
    ensures a == b && x == y
  {
    var s := a + ":" + x;
    assert s[|a|] == ':' && (b + ":" + y)[|b|] == ':';
    assert s[..|a|] == a && (b + ":" + y)[..|b|] == b;
    assert a == s[..|a|] && b == s[..|b|];
    assert x == s[|a| + 1..] && y == s[|b| + 1..];
  }

  function ByKey(): Violation -> string
  {
    (v: Violation) => FindingKey(v)
  }

  function Deduped(vs: seq<Violation>): (r: seq<Violation>)
  {
    DistinctBy(vs, ByKey())
  }

  lemma DedupeOne(vs: seq<Violation>, i: nat)
    requires i < |vs|
    ensures KeysOf(vs[..i + 1], ByKey()) == KeysOf(vs[..i], ByKey()) + {FindingKey(vs[i])}
    ensures Deduped(vs[..i + 1])
         == Deduped(vs[..i]) + if FindingKey(vs[i]) in KeysOf(vs[..i], ByKey()) then [] else [vs[i]]
  {
    assert vs[..i + 1] == vs[..i] + [vs[i]];
    DistinctPush(vs[..i], vs[i], ByKey());
    KeysPush(vs[..i], vs[i], ByKey());
  }

  method Dedupe(violations: seq<Violation>) returns (kept: seq<Violation>)
    ensures kept == Deduped(violations)
  {
    kept := [];
    var seen: set<string> := {};
    for i := 0 to |violations|
      invariant kept == Deduped(violations[..i])
      invariant seen == KeysOf(violations[..i], ByKey())
    {
      var key := FindingKey(violations[i]);
      DedupeOne(violations, i);
      if key !in seen {
        seen := seen + {key};
        kept := kept + [violations[i]];
      }
    }
    assert violations[..|violations|] == violations;
  }

  // ---------------------------------------------------------------- acceptance

  /** The node is of a type that does something other than read. */
  predicate IsForbiddenStatement(node: Record)
  {
    var kind := Get(node, "type");
    kind.Some? && kind.value.Str? && kind.value.s in FORBIDDEN_STATEMENT_TYPES
  }

  /** The node is a SELECT ... INTO something. */
  predicate SelectsInto(node: Record)
  {
    var into := Get(node, "into");
    into.Some? && into.value.Obj? && Truthy(Get(into.value.fields, "expr"))
  }

  predicate IsText(value: Option<Json>, name: string)
  {
    value.Some? && value.value.Str? && Lower(value.value.s) == name
  }

  /** The node calls something by that name: the name alone, or any part of a qualified one. */
  ghost predicate Calls(node: Record, name: string)
  {
    var callee := Get(node, "name");
    && Get(node, "type") in {Some(Str("function")), Some(Str("aggr_func"))}
    && (IsText(callee, name) || (callee.Some? && callee.value.Obj? && HasPart(Get(callee.value.fields, "name"), name)))
  }

  ghost predicate HasPart(parts: Option<Json>, name: string)
  {
    && parts.Some? && parts.value.Arr?
    && exists i :: 0 <= i < |parts.value.items| && parts.value.items[i].Obj?
                   && IsText(Get(parts.value.items[i].fields, "value"), name)
  }

  /** An object node nobody need object to. */
  ghost predicate HarmlessNode(node: Record)
  {
    && !IsForbiddenStatement(node) && !SelectsInto(node)
    && (forall name :: Calls(node, name) ==> name !in FORBIDDEN_FUNCTIONS)
  }

  lemma {:induction false} PartNamesMember(parts: seq<Json>, name: string)
    ensures name in PartNames(parts) <==> HasPart(Some(Arr(parts)), name)
  {
    if parts != [] {
      var front, last := parts[..|parts| - 1], parts[|parts| - 1];
      PartNamesMember(front, name);
      assert forall i :: 0 <= i < |front| ==> front[i] == parts[i];
      assert name in PartName(last) <==> last.Obj? && IsText(Get(last.fields, "value"), name);
    }
  }

  /** The names the check collects from a node are exactly those the node calls. */
  lemma CalledNamesAreCalls(node: Record, name: string)
    ensures name in CalledNames(node) <==> Calls(node, name)
  {
    match Get(node, "name") {
      case Some(Obj(qualified)) =>
        match Get(qualified, "name") {
          case Some(Arr(parts)) => PartNamesMember(parts, name);
          case _ =>
        }
      case _ =>
    }
  }

  ghost predicate AllHarmless(nodes: seq<Record>)
  {
    forall node :: node in nodes ==> HarmlessNode(node)
  }

  lemma NodeFindingsEmpty(node: Record)
    ensures NodeFindings(node) == [] <==> (!IsForbiddenStatement(node) && !SelectsInto(node))
  {
  }

  lemma {:induction false} WalkFindingsEmpty(nodes: seq<Record>)
    ensures WalkFindings(nodes) == [] <==> forall node :: node in nodes ==> (!IsForbiddenStatement(node) && !SelectsInto(node))
  {
    if nodes != [] {
      WalkFindingsEmpty(nodes[..|nodes| - 1]);
      NodeFindingsEmpty(nodes[|nodes| - 1]);
      assert nodes == nodes[..|nodes| - 1] + [nodes[|nodes| - 1]];
    }
  }

  lemma {:induction false} CalledNamesMember(nodes: seq<Record>, name: string)
    ensures name in AllCalledNames(nodes) <==> exists node :: node in nodes && Calls(node, name)
  {
    if nodes != [] {
      CalledNamesMember(nodes[..|nodes| - 1], name);
      CalledNamesAreCalls(nodes[|nodes| - 1], name);
      assert nodes == nodes[..|nodes| - 1] + [nodes[|nodes| - 1]];
    }
  }

  lemma {:induction false} FunctionFindingsEmpty(names: seq<string>)
    ensures FunctionFindings(names) == [] <==> forall name :: name in names ==> name !in FORBIDDEN_FUNCTIONS
  {
    if names != [] {
      FunctionFindingsEmpty(names[..|names| - 1]);
      assert names == names[..|names| - 1] + [names[|names| - 1]];
    }
  }

  lemma {:induction false} TableFindingsEmpty(tables: seq<string>, known: set<string>, rules: TableRules)
    ensures TableFindings(tables, known, rules) == [] <==>
            forall table :: table in tables ==> TablePasses(table, known, rules)
  {
    if tables != [] {
      TableFindingsEmpty(tables[..|tables| - 1], known, rules);
      assert TableFinding(tables[|tables| - 1], known, rules) == [] <==>
             TablePasses(tables[|tables| - 1], known, rules);
      assert tables == tables[..|tables| - 1] + [tables[|tables| - 1]];
    }
  }

  lemma FindingsEmpty(ast: Record, tableList: seq<string>, known: set<string>, rules: TableRules)
    ensures Findings(ast, tableList, known, rules) == [] <==>
            && Get(ast, "type") == Some(Str("select"))
            && AllHarmless(Walk(Obj(ast)))
            && (forall table :: table in BaseTables(tableList, CteNames(Obj(ast))) ==> TablePasses(table, known, rules))
  {
    var nodes := Walk(Obj(ast));
    WalkFindingsEmpty(nodes);
    FunctionFindingsEmpty(AllCalledNames(nodes));
    TableFindingsEmpty(BaseTables(tableList, CteNames(Obj(ast))), known, rules);
    CallsAreAllHarmless(nodes);
  }

  lemma CallsAreAllHarmless(nodes: seq<Record>)
    ensures (forall name :: name in AllCalledNames(nodes) ==> name !in FORBIDDEN_FUNCTIONS) <==>
            forall node, name :: node in nodes && Calls(node, name) ==> name !in FORBIDDEN_FUNCTIONS
  {
    forall name ensures name in AllCalledNames(nodes) <==> exists node :: node in nodes && Calls(node, name) {
      CalledNamesMember(nodes, name);
    }
  }

  /**
   * A statement is accepted exactly when its root is a select, no object at any path
   * of the tree has a forbidden type, an INTO target or a forbidden function name in
   * any part, and every base table passes the gate.
   */
  lemma AcceptanceCharacterised(ast: Record, tableList: seq<string>, known: set<string>, rules: TableRules)
    ensures Deduped(Findings(ast, tableList, known, rules)) == [] <==>
            && Get(ast, "type") == Some(Str("select"))
            && (forall node :: Contains(Obj(ast), node) ==> HarmlessNode(node))
            && (forall table :: table in BaseTables(tableList, CteNames(Obj(ast))) ==> TablePasses(table, known, rules))
  {
    DropsNoKind(Findings(ast, tableList, known, rules), ByKey());
    FindingsEmpty(ast, tableList, known, rules);
    forall node ensures node in Walk(Obj(ast)) <==> Contains(Obj(ast), node) {
      WalkVisitsExactlyTheNodes(Obj(ast), node);
    }
  }

  // ---------------------------------------------------------------- what a refusal says

  /** What is wrong with the statement that this violation says. */
  ghost predicate Wrong(v: Violation, ast: Record, tableList: seq<string>, known: set<string>, rules: TableRules)
  {
    match v.code
    case NotASelect =>
      || (Get(ast, "type") != Some(Str("select")) && v.subject == Some(Shown(Get(ast, "type"))))
      || (exists node :: node in Walk(Obj(ast)) && IsForbiddenStatement(node) && v.subject == Some(Get(node, "type").value.s))
    case SelectInto =>
      exists node :: node in Walk(Obj(ast)) && SelectsInto(node) && v.subject == TargetName(node)
    case ForbiddenFunction =>
      exists node, name :: node in Walk(Obj(ast)) && Calls(node, name) && name in FORBIDDEN_FUNCTIONS && v.subject == Some(name)
    case DeniedTable =>
      exists table :: table in BaseTables(tableList, CteNames(Obj(ast))) && v.subject == Some(table)
                      && (table in rules.denied || (rules.allowed != [] && table !in rules.allowed))
    case UnknownTable =>
      exists table :: table in BaseTables(tableList, CteNames(Obj(ast))) && v.subject == Some(table)
                      && table !in rules.denied && (rules.allowed == [] || table in rules.allowed) && table !in known
    case _ => false
  }

  /** The target's name, where it is a plain one. */
  function TargetName(node: Record): (r: Option<string>)
    requires SelectsInto(node)
  {
    var target := Get(Get(node, "into").value.fields, "expr").value;
    if target.Str? then Some(target.s) else None
  }

  lemma NodeFindingsMember(node: Record, v: Violation)
    ensures v in NodeFindings(node) <==>
            || (IsForbiddenStatement(node) && v == Violation(NotASelect, Some(Get(node, "type").value.s)))
            || (SelectsInto(node) && v == Violation(SelectInto, TargetName(node)))
  {
  }

  lemma {:induction false} WalkFindingsMember(nodes: seq<Record>, v: Violation)
    ensures v in WalkFindings(nodes) <==> exists node :: node in nodes && v in NodeFindings(node)
  {
    if nodes != [] {
      WalkFindingsMember(nodes[..|nodes| - 1], v);
      assert nodes == nodes[..|nodes| - 1] + [nodes[|nodes| - 1]];
    }
  }

  lemma {:induction false} FunctionFindingsMember(names: seq<string>, v: Violation)
    ensures v in FunctionFindings(names) <==>
            exists name :: name in names && name in FORBIDDEN_FUNCTIONS && v == Violation(ForbiddenFunction, Some(name))
  {
    if names != [] {
      FunctionFindingsMember(names[..|names| - 1], v);
      assert names == names[..|names| - 1] + [names[|names| - 1]];
    }
  }

  lemma {:induction false} TableFindingsMember(tables: seq<string>, known: set<string>, rules: TableRules, v: Violation)
    ensures v in TableFindings(tables, known, rules) <==> exists table :: table in tables && v in TableFinding(table, known, rules)
  {
    if tables != [] {
      TableFindingsMember(tables[..|tables| - 1], known, rules, v);
      assert tables == tables[..|tables| - 1] + [tables[|tables| - 1]];
    }
  }

  lemma TreeFindingsAreWrong(ast: Record, tableList: seq<string>, known: set<string>, rules: TableRules, v: Violation)
    requires v.code.NotASelect? || v.code.SelectInto?
    ensures v in RootFindings(ast) + WalkFindings(Walk(Obj(ast))) <==> Wrong(v, ast, tableList, known, rules)
  {
    WalkFindingsMember(Walk(Obj(ast)), v);
    forall node | node in Walk(Obj(ast))
      ensures v in NodeFindings(node) <==>
              || (IsForbiddenStatement(node) && v == Violation(NotASelect, Some(Get(node, "type").value.s)))
              || (SelectsInto(node) && v == Violation(SelectInto, TargetName(node)))
    {
      NodeFindingsMember(node, v);
    }
  }

  lemma TreeCodes(ast: Record, nodes: seq<Record>, v: Violation)
    requires v in RootFindings(ast) + WalkFindings(nodes)
    ensures v.code.NotASelect? || v.code.SelectInto?
  {
    WalkFindingsMember(nodes, v);
    if v in WalkFindings(nodes) {
      var node :| node in nodes && v in NodeFindings(node);
      NodeFindingsMember(node, v);
    }
  }

  lemma TableCodes(tables: seq<string>, known: set<string>, rules: TableRules, v: Violation)
    requires v in TableFindings(tables, known, rules)
    ensures v.code.DeniedTable? || v.code.UnknownTable?
  {
    TableFindingsMember(tables, known, rules, v);
  }

  lemma OnlyOwnCodes(ast: Record, tableList: seq<string>, known: set<string>, rules: TableRules, v: Violation)
    ensures v in RootFindings(ast) + WalkFindings(Walk(Obj(ast))) ==> v.code.NotASelect? || v.code.SelectInto?
    ensures v in FunctionFindings(AllCalledNames(Walk(Obj(ast)))) ==> v.code.ForbiddenFunction?
    ensures v in TableFindings(BaseTables(tableList, CteNames(Obj(ast))), known, rules) ==> v.code.DeniedTable? || v.code.UnknownTable?
  {
    if v in RootFindings(ast) + WalkFindings(Walk(Obj(ast))) {
      TreeCodes(ast, Walk(Obj(ast)), v);
    }
    if v in TableFindings(BaseTables(tableList, CteNames(Obj(ast))), known, rules) {
      TableCodes(BaseTables(tableList, CteNames(Obj(ast))), known, rules, v);
    }
    FunctionFindingsMember(AllCalledNames(Walk(Obj(ast))), v);
  }

  lemma CallFindingsAreWrong(ast: Record, tableList: seq<string>, known: set<string>, rules: TableRules, v: Violation)
    requires v.code.ForbiddenFunction?
    ensures v in FunctionFindings(AllCalledNames(Walk(Obj(ast)))) <==> Wrong(v, ast, tableList, known, rules)
  {
    var nodes := Walk(Obj(ast));
    FunctionFindingsMember(AllCalledNames(nodes), v);
    forall name ensures name in AllCalledNames(nodes) <==> exists node :: node in nodes && Calls(node, name) {
      CalledNamesMember(nodes, name);
    }
  }

  lemma TableFindingsAreWrong(ast: Record, tableList: seq<string>, known: set<string>, rules: TableRules, v: Violation)
    requires v.code.DeniedTable? || v.code.UnknownTable?
    ensures v in TableFindings(BaseTables(tableList, CteNames(Obj(ast))), known, rules) <==> Wrong(v, ast, tableList, known, rules)
  {
    TableFindingsMember(BaseTables(tableList, CteNames(Obj(ast))), known, rules, v);
  }

  lemma FindingsAreWhatIsWrong(ast: Record, tableList: seq<string>, known: set<string>, rules: TableRules, v: Violation)
    ensures v in Findings(ast, tableList, known, rules) <==> Wrong(v, ast, tableList, known, rules)
  {
    OnlyOwnCodes(ast, tableList, known, rules, v);
    match v.code
    case NotASelect => TreeFindingsAreWrong(ast, tableList, known, rules, v);
    case SelectInto => TreeFindingsAreWrong(ast, tableList, known, rules, v);
    case ForbiddenFunction => CallFindingsAreWrong(ast, tableList, known, rules, v);
    case DeniedTable => TableFindingsAreWrong(ast, tableList, known, rules, v);
    case UnknownTable => TableFindingsAreWrong(ast, tableList, known, rules, v);
    case _ =>
  }

  /**
   * A refusal lists exactly what is wrong, and nothing twice: whatever it says is so, and
   * whatever is so it says, under the right code and of the right subject.
   */
  lemma RefusalsSayExactlyWhatIsWrong(ast: Record, tableList: seq<string>, known: set<string>, rules: TableRules)
    ensures var said := Deduped(Findings(ast, tableList, known, rules));
            && (forall v :: v in said ==> Wrong(v, ast, tableList, known, rules))
            && (forall v :: Wrong(v, ast, tableList, known, rules) ==> exists w :: w in said && SaysTheSame(v, w))
            && (forall i, j :: 0 <= i < j < |said| ==> !SaysTheSame(said[i], said[j]))
  {
    var all := Findings(ast, tableList, known, rules);
    var said := Deduped(all);
    DropsNoKind(all, ByKey());
    var positions := KeepsFirstOccurrences(all, ByKey());
    forall v | v in said ensures Wrong(v, ast, tableList, known, rules) {
      var i :| 0 <= i < |said| && said[i] == v;
      assert said[i] == all[positions[i]];
      FindingsAreWhatIsWrong(ast, tableList, known, rules, v);
    }
    forall v | Wrong(v, ast, tableList, known, rules) ensures exists w :: w in said && SaysTheSame(v, w) {
      FindingsAreWhatIsWrong(ast, tableList, known, rules, v);
      StillSaid(all, v);
    }
    forall i, j | 0 <= i < j < |said| ensures !SaysTheSame(said[i], said[j]) {
      FindingKeySeparates(said[i], said[j]);
    }
  }

  lemma StillSaid(all: seq<Violation>, v: Violation)
    requires v in all
    ensures exists w :: w in Deduped(all) && SaysTheSame(v, w)
  {
    DropsNoKind(all, ByKey());
    var i :| 0 <= i < |all| && all[i] == v;
    assert ByKey()(all[i]) in KeysOf(all, ByKey());
    var said := Deduped(all);
    assert FindingKey(v) in KeysOf(said, ByKey());
    var j :| 0 <= j < |said| && ByKey()(said[j]) == FindingKey(v);
    FindingKeySeparates(v, said[j]);
    assert said[j] in said;
  }
}
