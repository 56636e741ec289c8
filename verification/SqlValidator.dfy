/** `validate`: parse outcome in, bounded statement or violations out, for every tree the parser can hand over. */
module SqlValidator {
  import opened Sequences
  import opened Text
  import opened JsonTree
  import opened Distinct
  import opened SqlReview
  import opened RowCap

  datatype Result<+T, +E> = Success(value: T) | Failure(error: E)

  /** The first statement, how many follow it, and the tables the parser reports. */
  datatype ParseOutcome =
    | ParseError(message: Option<string>)
    | Parsed(first: Record, others: nat, tableList: seq<string>)

  datatype SafetyConfig = SafetyConfig(maxRows: nat, rules: TableRules)

  datatype ValidatedSql = ValidatedSql(
    sql: Record, original: string, tables: seq<string>, rowLimit: nat, limitOrigin: LimitOrigin)

  type Verdict = Result<ValidatedSql, seq<Violation>>

  function FirstLine(s: string): (r: string)
  {
    if s == "" || s[0] == '\n' then "" else [s[0]] + FirstLine(s[1..])
  }

  function VerdictOn(text: string, outcome: ParseOutcome, schemaTables: seq<string>, config: SafetyConfig): (r: Verdict)
  {
    var original := Trim(text);
    if original == "" then Failure([Violation(EmptyStatement, None)])
    else
      match outcome
      case ParseError(message) =>
        Failure([Violation(Unparseable, if message.Some? then Some(FirstLine(message.value)) else None)])
      case Parsed(ast, others, tableList) =>
        if others > 0 then Failure([Violation(MultipleStatements, None)])
        else
          var violations := Deduped(Findings(ast, tableList, KnownNames(schemaTables), config.rules));
          if violations != [] then Failure(violations)
          else
            Success(ValidatedSql(
              CappedSql(ast, config.maxRows), original,
              BaseTables(tableList, CteNames(Obj(CappedAst(ast, config.maxRows)))),
              config.maxRows, OriginOf(ast, config.maxRows)))
  }

  method Validate(text: string, outcome: ParseOutcome, schemaTables: seq<string>, config: SafetyConfig)
    returns (verdict: Verdict)
    ensures verdict == VerdictOn(text, outcome, schemaTables, config)
  {
    var original := Trim(text);
    if |original| == 0 {
      return Failure([Violation(EmptyStatement, None)]);
    }
    if outcome.ParseError? {
      return Failure([Violation(Unparseable,
                                if outcome.message.Some? then Some(FirstLine(outcome.message.value)) else None)]);
    }
    if outcome.others > 0 {
      return Failure([Violation(MultipleStatements, None)]);
    }
    var parsed := new ParsedStatement(outcome.first, outcome.tableList);
    var shape := CheckStatementShape(parsed.ast);
    var functions := CheckFunctions(parsed.ast);
    var tables := CheckTables(parsed.ast, parsed.tableList, schemaTables, config.rules);
    var violations := Dedupe(shape + functions + tables);
    if |violations| > 0 {
      return Failure(violations);
    }
    var sql, origin := parsed.EnforceRowLimit(config.maxRows);
    var ctes := CollectCteNames(parsed.ast);
    verdict := Success(ValidatedSql(sql, original, BaseTables(parsed.tableList, ctes), config.maxRows, origin));
  }

  /** What safety asks of a tree: a select of harmless nodes that reads no table the gate stops. */
  ghost predicate Safe(ast: Record, tableList: seq<string>, schemaTables: seq<string>, rules: TableRules)
  {
    && Get(ast, "type") == Some(Str("select"))
    && (forall node :: Contains(Obj(ast), node) ==> HarmlessNode(node))
    && (forall table :: table in BaseTables(tableList, CteNames(Obj(ast))) ==> TablePasses(table, KnownNames(schemaTables), rules))
  }

  /**
   * Whatever the text and whatever the parser makes of it: it is accepted exactly when there
   * is a text, it parses, to one statement and no more, and that statement is safe. What is
   * accepted comes back bounded by the cap, and a rejection always says why.
   */
  lemma AcceptedExactlyWhenSafe(text: string, outcome: ParseOutcome, schemaTables: seq<string>, config: SafetyConfig)
    ensures var verdict := VerdictOn(text, outcome, schemaTables, config);
            && (verdict.Success? <==>
                  Trim(text) != "" && outcome.Parsed? && outcome.others == 0
                  && Safe(outcome.first, outcome.tableList, schemaTables, config.rules))
            && (verdict.Success? ==>
                var bound := ReadLimitNode(Get(verdict.value.sql, "limit")).limit;
                bound.Some? && bound.value <= config.maxRows)
            && (verdict.Failure? ==> verdict.error != [])
  {
    if outcome.Parsed? {
      AcceptanceCharacterised(outcome.first, outcome.tableList, KnownNames(schemaTables), config.rules);
      CappingIsStable(outcome.first, config.maxRows);
    }
  }

  /**
   * Why a text is turned away: an empty one, one that does not parse and one that goes on
   * after its first statement each for that one reason; any other for exactly what is wrong
   * with its tree.
   */
  lemma RejectionsSayWhy(text: string, outcome: ParseOutcome, schemaTables: seq<string>, config: SafetyConfig)
    ensures var verdict := VerdictOn(text, outcome, schemaTables, config);
            && (Trim(text) == "" ==> verdict == Failure([Violation(EmptyStatement, None)]))
            && (Trim(text) != "" && outcome.ParseError? ==>
                  verdict.Failure? && |verdict.error| == 1 && verdict.error[0].code == Unparseable
                  && SaysFirstLine(verdict.error[0].subject, outcome.message))
            && (Trim(text) != "" && outcome.Parsed? && outcome.others > 0 ==>
                  verdict == Failure([Violation(MultipleStatements, None)]))
            && (Trim(text) != "" && outcome.Parsed? && outcome.others == 0 && verdict.Failure? ==>
                  var known := KnownNames(schemaTables);
                  && (forall v :: v in verdict.error ==> Wrong(v, outcome.first, outcome.tableList, known, config.rules))
                  && (forall v :: Wrong(v, outcome.first, outcome.tableList, known, config.rules) ==>
                        exists w :: w in verdict.error && SaysTheSame(v, w)))
  {
    if outcome.Parsed? {
      RefusalsSayExactlyWhatIsWrong(outcome.first, outcome.tableList, KnownNames(schemaTables), config.rules);
    } else if outcome.message.Some? {
      FirstLineIsTheFirst(outcome.message.value);
    }
  }

  /** The parser's message up to its first line break, if it has a message. */
  ghost predicate SaysFirstLine(subject: Option<string>, message: Option<string>)
  {
    && (subject.Some? <==> message.Some?)
    && (subject.Some? ==> IsFirstLine(subject.value, message.value))
  }

  predicate IsFirstLine(line: string, text: string)
  {
    '\n' !in line && (text == line || line + "\n" <= text)
  }

  lemma {:induction false} FirstLineIsTheFirst(text: string)
    ensures IsFirstLine(FirstLine(text), text)
  {
    if text != "" && text[0] != '\n' {
      FirstLineIsTheFirst(text[1..]);
      assert text == [text[0]] + text[1..];
    }
  }

  // ---------------------------------------------------------------- reviewing the rewritten statement

  lemma {:induction false} PutVisitsNothingNew(record: Record, key: string, value: Json, node: Record)
    requires node in WalkFields(Put(record, key, value))
    ensures node in WalkFields(record) || node in Walk(value)
  {
    if record != [] && record[0].key != key && node !in Walk(record[0].value) {
      PutVisitsNothingNew(record[1..], key, value, node);
    }
  }

  /** A node made of number literals and punctuation: no statement, no target, no call, no WITH. */
  ghost predicate Inert(node: Record)
  {
    HarmlessNode(node) && NodeCtes(node) == {}
  }

  lemma PlainWords()
    ensures "select" !in FORBIDDEN_STATEMENT_TYPES && "number" !in FORBIDDEN_STATEMENT_TYPES
  {
  }

  lemma NumberNodeIsInert(n: int, node: Record)
    requires node in Walk(NumberNode(n))
    ensures Inert(node)
  {
    var fields := NumberNode(n).fields;
    assert WalkFields(fields) == Walk(fields[0].value) + (Walk(fields[1].value) + WalkFields(fields[1..][1..]));
    assert node == fields;
    GetAt(fields, "type", 0);
    GetAbsent(fields, "into");
    GetAbsent(fields, "with");
    PlainWords();
  }

  lemma LimitNodeIsInert(separator: string, values: seq<Json>, node: Record)
    requires forall i, inner :: 0 <= i < |values| && inner in Walk(values[i]) ==> Inert(inner)
    requires node in Walk(LimitNode(separator, values))
    ensures Inert(node)
  {
    var fields := LimitNode(separator, values).fields;
    assert WalkFields(fields) == Walk(fields[0].value) + (Walk(fields[1].value) + WalkFields(fields[1..][1..]));
    if node == fields {
      GetAbsent(fields, "type");
      GetAbsent(fields, "into");
      GetAbsent(fields, "with");
    } else {
      assert node in WalkItems(values);
      WalkItemsMember(values, node);
    }
  }

  lemma WrittenLimitIsInert(max: nat, offset: Option<int>, node: Record)
    requires node in Walk(WriteLimitNode(max, offset))
    ensures Inert(node)
  {
    forall n: int, inner | inner in Walk(NumberNode(n)) ensures Inert(inner) {
      NumberNodeIsInert(n, inner);
    }
    if offset.None? {
      LimitNodeIsInert("", [NumberNode(max)], node);
    } else {
      LimitNodeIsInert("offset", [NumberNode(max), NumberNode(offset.value)], node);
    }
  }

  /** Every object of the rewritten tree is one of the original's, is inert, or is the root with its limit replaced. */
  lemma CappedNodes(ast: Record, max: nat, node: Record)
    requires node in Walk(Obj(CappedAst(ast, max)))
    ensures node in Walk(Obj(ast)) || Inert(node)
         || (node == CappedAst(ast, max)
             && forall key :: key != "limit" ==> Get(node, key) == Get(ast, key))
  {
    if CappedAst(ast, max) != ast {
      var offset := ReadLimitNode(Get(ast, "limit")).offset;
      var limit := WriteLimitNode(max, offset);
      if node == CappedAst(ast, max) {
        forall key | key != "limit" ensures Get(node, key) == Get(ast, key) {
          GetAfterPut(ast, "limit", limit, key);
        }
      } else {
        PutVisitsNothingNew(ast, "limit", limit, node);
        if node in Walk(limit) {
          WrittenLimitIsInert(max, offset, node);
        }
      }
    }
  }

  /** The wrapper adds four objects around the original, none of which a check objects to. */
  lemma WrapNodes(inner: Record, max: nat, node: Record)
    requires node in Walk(Obj(WrapTree(inner, max)))
    ensures node in Walk(Obj(inner)) || Inert(node)
  {
    var tree := WrapTree(inner, max);
    SelectTreeProperties(Null, Str("*"), [DerivedSource(inner, "bounded_query")], [],
                         LimitNode("", [NumberNode(max)]), Null, Null);
    if node == tree {
      PlainWords();
    } else {
      WalkFieldsMember(tree, node);
      var i :| 0 <= i < |tree| && node in Walk(tree[i].value);
      if i == 3 {
        WalkItemsMember([DerivedSource(inner, "bounded_query")], node);
        SourceNodes(inner, node);
      } else if i == 5 {
        assert node in Walk(WriteLimitNode(max, None));
        WrittenLimitIsInert(max, None, node);
      }
    }
  }

  lemma SourceNodes(inner: Record, node: Record)
    requires node in Walk(DerivedSource(inner, "bounded_query"))
    ensures node in Walk(Obj(inner)) || Inert(node)
  {
    var source := DerivedSource(inner, "bounded_query").fields;
    var expr := source[0].value.fields;
    assert WalkFields(source) == Walk(source[0].value) + (Walk(source[1].value) + WalkFields(source[1..][1..]));
    assert WalkFields(expr) == Walk(expr[0].value) + (Walk(expr[1].value) + WalkFields(expr[1..][1..]));
    GetAbsent(source, "type");
    GetAbsent(source, "into");
    GetAbsent(source, "with");
    GetAbsent(expr, "type");
    GetAbsent(expr, "into");
    GetAbsent(expr, "with");
  }

  lemma CappedTreeIsHarmless(ast: Record, max: nat)
    requires AllHarmless(Walk(Obj(ast)))
    ensures AllHarmless(Walk(Obj(CappedSql(ast, max))))
  {
    assert ast in Walk(Obj(ast));
    forall node | node in Walk(Obj(CappedSql(ast, max))) ensures HarmlessNode(node) {
      if OriginOf(ast, max) == Wrapped {
        WrapNodes(ast, max, node);
      } else {
        CappedNodes(ast, max, node);
        if node !in Walk(Obj(ast)) && !Inert(node) {
          LimitAloneDecidesNothing(node, ast);
        }
      }
    }
  }

  lemma LimitAloneDecidesNothing(node: Record, other: Record)
    requires forall key :: key != "limit" ==> Get(node, key) == Get(other, key)
    ensures HarmlessNode(node) <==> HarmlessNode(other)
    ensures NodeCtes(node) == NodeCtes(other)
  {
    assert Get(node, "type") == Get(other, "type");
    assert Get(node, "into") == Get(other, "into");
    assert Get(node, "name") == Get(other, "name");
    assert Get(node, "with") == Get(other, "with");
  }

  // ---------------------------------------------------------------- CTE names of the rewritten statement

  lemma CteNamesMember(tree: Json, name: string)
    ensures name in CteNames(tree) <==> exists node :: node in Walk(tree) && name in NodeCtes(node)
  {
    if node :| node in Walk(tree) && name in NodeCtes(node) {
      var i :| 0 <= i < |Walk(tree)| && Walk(tree)[i] == node;
      assert name in NodeCtes(Walk(tree)[i]);
    }
  }

  lemma CteNamesOfPart(record: Record, i: nat, name: string)
    requires i < |record| && name in CteNames(record[i].value)
    ensures name in CteNames(Obj(record))
  {
    CteNamesMember(record[i].value, name);
    var node :| node in Walk(record[i].value) && name in NodeCtes(node);
    WalkFieldsMember(record, node);
    CteNamesMember(Obj(record), name);
  }

  lemma {:induction false} PutKeepsOtherNodes(record: Record, key: string, value: Json, node: Record)
    requires node in WalkFields(record)
    ensures node in WalkFields(Put(record, key, value))
         || (Get(record, key).Some? && node in Walk(Get(record, key).value))
  {
    if record[0].key != key && node !in Walk(record[0].value) {
      PutKeepsOtherNodes(record[1..], key, value, node);
    }
  }

  /** No WITH clause sits inside the limit node the cap may replace. */
  ghost predicate LimitWithoutCtes(ast: Record)
  {
    Get(ast, "limit").Some? ==> CteNames(Get(ast, "limit").value) == {}
  }

  lemma CappedAstKeepsCtes(ast: Record, max: nat)
    requires LimitWithoutCtes(ast)
    ensures CteNames(Obj(CappedAst(ast, max))) == CteNames(Obj(ast))
  {
    var capped := CappedAst(ast, max);
    if capped != ast {
      var limit := WriteLimitNode(max, ReadLimitNode(Get(ast, "limit")).offset);
      GetAfterPut(ast, "limit", limit, "with");
      forall name ensures name in CteNames(Obj(capped)) <==> name in CteNames(Obj(ast)) {
        CteNamesMember(Obj(capped), name);
        CteNamesMember(Obj(ast), name);
        if node :| node in Walk(Obj(capped)) && name in NodeCtes(node) {
          CappedNodes(ast, max, node);
          assert node != capped ==> node in Walk(Obj(ast));
          assert ast in Walk(Obj(ast));
        }
        if node :| node in Walk(Obj(ast)) && name in NodeCtes(node) {
          CappingLosesNoCte(ast, limit, node, name);
        }
      }
    }
  }

  lemma CappingLosesNoCte(ast: Record, limit: Json, node: Record, name: string)
    requires LimitWithoutCtes(ast) && node in Walk(Obj(ast)) && name in NodeCtes(node)
    ensures exists kept :: kept in Walk(Obj(Put(ast, "limit", limit))) && name in NodeCtes(kept)
  {
    var capped := Put(ast, "limit", limit);
    GetAfterPut(ast, "limit", limit, "with");
    assert capped in Walk(Obj(capped));
    if node != ast {
      PutKeepsOtherNodes(ast, "limit", limit, node);
      if node !in WalkFields(capped) {
        CteNamesMember(Get(ast, "limit").value, name);
      }
    }
  }

  lemma WrapCarriesCtes(inner: Record, max: nat, name: string)
    requires name in CteNames(Obj(inner))
    ensures name in CteNames(Obj(WrapTree(inner, max)))
  {
    var tree := WrapTree(inner, max);
    var source := DerivedSource(inner, "bounded_query");
    CteNamesOfPart(source.fields[0].value.fields, 0, name);
    CteNamesOfPart(source.fields, 0, name);
    CteNamesOfItem([source], 0, name);
    CteNamesOfPart(tree, 3, name);
  }

  lemma CteNamesOfItem(items: seq<Json>, i: nat, name: string)
    requires i < |items| && name in CteNames(items[i])
    ensures name in CteNames(Arr(items))
  {
    CteNamesMember(items[i], name);
    var node :| node in Walk(items[i]) && name in NodeCtes(node);
    WalkItemsMember(items, node);
    CteNamesMember(Arr(items), name);
  }

  lemma WrapKeepsCtes(inner: Record, max: nat)
    ensures CteNames(Obj(WrapTree(inner, max))) == CteNames(Obj(inner))
  {
    var tree := WrapTree(inner, max);
    forall name ensures name in CteNames(Obj(tree)) <==> name in CteNames(Obj(inner)) {
      if name in CteNames(Obj(inner)) {
        WrapCarriesCtes(inner, max, name);
      }
      if name in CteNames(Obj(tree)) {
        CteNamesMember(Obj(tree), name);
        var node :| node in Walk(Obj(tree)) && name in NodeCtes(node);
        WrapNodes(inner, max, node);
        CteNamesMember(Obj(inner), name);
      }
    }
  }

  lemma CappedSqlKeepsCtes(ast: Record, max: nat)
    ensures CteNames(Obj(CappedSql(ast, max))) == CteNames(Obj(CappedAst(ast, max)))
  {
    WrapKeepsCtes(ast, max);
  }

  // ---------------------------------------------------------------- reported tables

  /** The name a table-list entry stands for once split and lower-cased. */
  function EntryName(entry: string): (r: string)
  {
    Lower(LastSegment(entry))
  }

  function EntryNames(tableList: seq<string>): (r: set<string>)
  {
    set i | 0 <= i < |tableList| :: EntryName(tableList[i])
  }

  lemma BaseTablesMember(tableList: seq<string>, ctes: set<string>, name: string)
    ensures name in BaseTables(tableList, ctes) <==> name != "" && name !in ctes && name in EntryNames(tableList)
    ensures Ascending(BaseTables(tableList, ctes))
  {
    SortedUniqueKeepsTheNames(Filter(ListedNames(tableList), NotIn(ctes)));
    FilterMember(ListedNames(tableList), NotIn(ctes), name);
    ListedMember(tableList, name);
  }

  lemma ListedMember(tableList: seq<string>, name: string)
    ensures name in ListedNames(tableList) <==> name != "" && name in EntryNames(tableList)
  {
    var lasts := Map(tableList, (entry: string) => LastSegment(entry));
    var named := Filter(lasts, (name: string) => |name| > 0);
    var lowered := ListedNames(tableList);
    if name in lowered {
      var j :| 0 <= j < |lowered| && lowered[j] == name;
      FilterMember(lasts, (name: string) => |name| > 0, named[j]);
      var i :| 0 <= i < |lasts| && lasts[i] == named[j];
      assert EntryName(tableList[i]) == name;
    }
    if i :| 0 <= i < |tableList| && EntryName(tableList[i]) == name && name != "" {
      FilterMember(lasts, (name: string) => |name| > 0, lasts[i]);
      var j :| 0 <= j < |named| && named[j] == lasts[i];
      assert lowered[j] == name;
    }
  }

  lemma SameBaseWhen(list1: seq<string>, list2: seq<string>, ctes: set<string>)
    ensures BaseTables(list1, ctes) == BaseTables(list2, ctes) <==>
            forall name :: name != "" && name !in ctes ==> (name in EntryNames(list1) <==> name in EntryNames(list2))
  {
    var base1, base2 := BaseTables(list1, ctes), BaseTables(list2, ctes);
    forall name ensures name in base1 <==> name != "" && name !in ctes && name in EntryNames(list1) {
      BaseTablesMember(list1, ctes, name);
    }
    forall name ensures name in base2 <==> name != "" && name !in ctes && name in EntryNames(list2) {
      BaseTablesMember(list2, ctes, name);
    }
    BaseTablesMember(list1, ctes, "");
    BaseTablesMember(list2, ctes, "");
    if forall name :: name in base1 <==> name in base2 {
      AscendingIsUnique(base1, base2);
    }
  }

  /** The CTE names the statement still has once the cap has overwritten its limit node. */
  function KeptCtes(ast: Record, max: nat): (r: set<string>)
  {
    CteNames(Obj(CappedAst(ast, max)))
  }

  /**
   * Reviewing the statement that came back out, whose report names nothing the first did
   * not. It is accepted again exactly when every table it still reports, hidden the first
   * time by nothing but a WITH clause inside the overwritten limit node, passes the gate.
   * It then comes back unchanged, wrapped set operations included, as the author's own
   * bound, with no table the first verdict did not have; and with the same tables exactly
   * when every name reported at first, other than a CTE's, is still reported.
   */
  lemma RevalidationIsStable(text: string, again: string, ast: Record, tableList: seq<string>, relisted: seq<string>,
                             schemaTables: seq<string>, config: SafetyConfig)
    requires Trim(text) != "" && Trim(again) != "" && EntryNames(relisted) <= EntryNames(tableList)
    ensures var first := VerdictOn(text, Parsed(ast, 0, tableList), schemaTables, config);
            var kept := KeptCtes(ast, config.maxRows);
            first.Success? ==>
              var second := VerdictOn(again, Parsed(first.value.sql, 0, relisted), schemaTables, config);
              && (second.Success? <==>
                    forall name :: name in EntryNames(relisted) && name != "" && name in CteNames(Obj(ast)) && name !in kept ==>
                      TablePasses(name, KnownNames(schemaTables), config.rules))
              && (LimitWithoutCtes(ast) ==> second.Success?)
              && (second.Success? ==>
                    && second == Success(ValidatedSql(first.value.sql, Trim(again), BaseTables(relisted, kept), config.maxRows, Author))
                    && (forall name :: name in second.value.tables ==> name in first.value.tables)
                    && (second.value.tables == first.value.tables <==>
                          forall name :: name in EntryNames(tableList) && name != "" && name !in kept ==>
                            name in EntryNames(relisted)))
  {
    var max, known := config.maxRows, KnownNames(schemaTables);
    var sql, kept := CappedSql(ast, max), KeptCtes(ast, max);
    VerdictFromFindings(text, ast, tableList, schemaTables, config);
    VerdictFromFindings(again, sql, relisted, schemaTables, config);
    if Findings(ast, tableList, known, config.rules) == [] {
      SecondFindings(ast, tableList, relisted, max, known, config.rules);
      CappedSqlKeepsCtes(ast, max);
      CappingIsStable(ast, max);
      assert CappedAst(sql, max) == sql;
      forall name ensures name in BaseTables(relisted, kept) ==> name in BaseTables(tableList, kept) {
        BaseTablesMember(relisted, kept, name);
        BaseTablesMember(tableList, kept, name);
      }
      SameBaseWhen(relisted, tableList, kept);
    }
  }

  lemma VerdictFromFindings(text: string, ast: Record, tableList: seq<string>, schemaTables: seq<string>, config: SafetyConfig)
    requires Trim(text) != ""
    ensures var verdict := VerdictOn(text, Parsed(ast, 0, tableList), schemaTables, config);
            if Findings(ast, tableList, KnownNames(schemaTables), config.rules) == []
            then verdict == Success(ValidatedSql(CappedSql(ast, config.maxRows), Trim(text),
                                                 BaseTables(tableList, CteNames(Obj(CappedAst(ast, config.maxRows)))),
                                                 config.maxRows, OriginOf(ast, config.maxRows)))
            else verdict.Failure?
  {
    DropsNoKind(Findings(ast, tableList, KnownNames(schemaTables), config.rules), ByKey());
  }

  /** Only a table a WITH clause kept from the first review can be held against the rewritten tree. */
  lemma SecondFindings(ast: Record, tableList: seq<string>, relisted: seq<string>, max: nat, known: set<string>, rules: TableRules)
    requires Findings(ast, tableList, known, rules) == [] && EntryNames(relisted) <= EntryNames(tableList)
    ensures Findings(CappedSql(ast, max), relisted, known, rules) == [] <==>
            forall name :: name in EntryNames(relisted) && name != "" && name in CteNames(Obj(ast)) && name !in KeptCtes(ast, max) ==>
              TablePasses(name, known, rules)
    ensures LimitWithoutCtes(ast) ==> Findings(CappedSql(ast, max), relisted, known, rules) == []
  {
    FindingsEmpty(ast, tableList, known, rules);
    FindingsEmpty(CappedSql(ast, max), relisted, known, rules);
    CappedTreeIsHarmless(ast, max);
    CappedRootIsASelect(ast, max);
    CappedSqlKeepsCtes(ast, max);
    PassedBefore(tableList, relisted, CteNames(Obj(ast)), KeptCtes(ast, max), known, rules);
    if LimitWithoutCtes(ast) {
      CappedAstKeepsCtes(ast, max);
    }
  }

  lemma PassedBefore(tableList: seq<string>, relisted: seq<string>, ctes: set<string>, kept: set<string>,
                     known: set<string>, rules: TableRules)
    requires EntryNames(relisted) <= EntryNames(tableList)
    requires forall table :: table in BaseTables(tableList, ctes) ==> TablePasses(table, known, rules)
    ensures (forall table :: table in BaseTables(relisted, kept) ==> TablePasses(table, known, rules)) <==>
            forall name :: name in EntryNames(relisted) && name != "" && name in ctes && name !in kept ==>
              TablePasses(name, known, rules)
  {
    forall name
      ensures name in BaseTables(relisted, kept) <==> name != "" && name !in kept && name in EntryNames(relisted)
      ensures name in BaseTables(tableList, ctes) <==> name != "" && name !in ctes && name in EntryNames(tableList)
    {
      BaseTablesMember(relisted, kept, name);
      BaseTablesMember(tableList, ctes, name);
    }
  }

  lemma CappedRootIsASelect(ast: Record, max: nat)
    requires Get(ast, "type") == Some(Str("select"))
    ensures Get(CappedSql(ast, max), "type") == Some(Str("select"))
  {
    if OriginOf(ast, max) == Wrapped {
      SelectTreeProperties(Null, Str("*"), [DerivedSource(ast, "bounded_query")], [],
                           LimitNode("", [NumberNode(max)]), Null, Null);
    } else {
      GetAfterPut(ast, "limit", WriteLimitNode(max, ReadLimitNode(Get(ast, "limit")).offset), "type");
    }
  }
}
