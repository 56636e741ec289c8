/**
 * Narrowing a snapshot to the tables the service may touch, against the safety
 * review's own check of the same lists.
 */
module Visibility {
  import opened Sequences
  import opened Text
  import opened SchemaTypes
  import SqlReview

  /** The same lists safety review holds tables to. */
  type Rules = SqlReview.TableRules

  function Normalized(names: seq<string>): (r: set<string>)
  {
    set i | 0 <= i < |names| :: Normalize(names[i])
  }

  predicate Unrestricted(rules: Rules)
  {
    rules.allowed == [] && rules.denied == []
  }

  /** Deny wins; an empty allow list allows everything. */
  predicate Visible(name: string, rules: Rules)
  {
    Normalize(name) !in Normalized(rules.denied)
    && (rules.allowed == [] || Normalize(name) in Normalized(rules.allowed))
  }

  function TableVisible(rules: Rules): Table -> bool
  {
    (t: Table) => Visible(t.name, rules)
  }

  function TargetVisible(rules: Rules): ForeignKey -> bool
  {
    (k: ForeignKey) => Visible(k.referencedTable, rules)
  }

  function WithoutDanglingKeys(t: Table, rules: Rules): (r: Table)
  {
    var keys := Filter(t.foreignKeys, TargetVisible(rules));
    if |keys| == |t.foreignKeys| then t else t.(foreignKeys := keys)
  }

  function Trimmed(rules: Rules): Table -> Table
  {
    (t: Table) => WithoutDanglingKeys(t, rules)
  }

  function ApplyVisibility(schema: DatabaseSchema, rules: Rules): (r: DatabaseSchema)
  {
    if Unrestricted(rules) then schema
    else schema.(tables := Narrow(schema.tables, rules))
  }

  function Narrow(tables: seq<Table>, rules: Rules): (r: seq<Table>)
  {
    Map(Filter(tables, TableVisible(rules)), Trimmed(rules))
  }

  lemma {:induction false} FilterFull<T>(s: seq<T>, keep: T -> bool)
    ensures |Filter(s, keep)| == |s| ==> Filter(s, keep) == s
  {
    if s != [] {
      FilterFull(s[..|s| - 1], keep);
    }
  }

  lemma {:induction false} FilterTwice<T>(s: seq<T>, keep: T -> bool)
    ensures Filter(Filter(s, keep), keep) == Filter(s, keep)
  {
    if s != [] {
      FilterTwice(s[..|s| - 1], keep);
      if keep(s[|s| - 1]) {
        FilterPush(Filter(s[..|s| - 1], keep), s[|s| - 1], keep);
      } else {
        assert Filter(s, keep) == Filter(s[..|s| - 1], keep);
      }
    }
  }

  /** Trimming keeps exactly the keys whose target is visible, whichever branch builds the table. */
  lemma TrimmedKeys(t: Table, rules: Rules)
    ensures WithoutDanglingKeys(t, rules) == t.(foreignKeys := Filter(t.foreignKeys, TargetVisible(rules)))
  {
    FilterFull(t.foreignKeys, TargetVisible(rules));
  }

  lemma TrimmingKeepsVisibility(t: Table, rules: Rules)
    ensures TableVisible(rules)(Trimmed(rules)(t)) == TableVisible(rules)(t)
  {
  }

  lemma {:induction false} FilterOfMap(tables: seq<Table>, rules: Rules)
    ensures Filter(Map(tables, Trimmed(rules)), TableVisible(rules)) == Map(Filter(tables, TableVisible(rules)), Trimmed(rules))
  {
    if tables != [] {
      var front, last := tables[..|tables| - 1], tables[|tables| - 1];
      FilterOfMap(front, rules);
      assert tables == front + [last];
      MapPush(front, last, Trimmed(rules));
      FilterPush(Map(front, Trimmed(rules)), Trimmed(rules)(last), TableVisible(rules));
      FilterPush(front, last, TableVisible(rules));
      TrimmingKeepsVisibility(last, rules);
      if TableVisible(rules)(last) {
        MapPush(Filter(front, TableVisible(rules)), last, Trimmed(rules));
      }
    }
  }

  lemma TrimTwice(t: Table, rules: Rules)
    ensures WithoutDanglingKeys(WithoutDanglingKeys(t, rules), rules) == WithoutDanglingKeys(t, rules)
  {
    TrimmedKeys(t, rules);
    TrimmedKeys(WithoutDanglingKeys(t, rules), rules);
    FilterTwice(t.foreignKeys, TargetVisible(rules));
  }

  lemma NarrowTwice(tables: seq<Table>, rules: Rules)
    ensures Narrow(Narrow(tables, rules), rules) == Narrow(tables, rules)
  {
    var visible := Filter(tables, TableVisible(rules));
    FilterOfMap(visible, rules);
    FilterTwice(tables, TableVisible(rules));
    assert Narrow(Narrow(tables, rules), rules) == Map(Narrow(tables, rules), Trimmed(rules));
    forall i | 0 <= i < |visible|
      ensures Narrow(Narrow(tables, rules), rules)[i] == Narrow(tables, rules)[i]
    {
      TrimTwice(visible[i], rules);
    }
  }

  /** Without any rule, too, the snapshot is what the rules leave of it. */
  lemma AlwaysNarrowed(schema: DatabaseSchema, rules: Rules)
    ensures ApplyVisibility(schema, rules) == schema.(tables := Narrow(schema.tables, rules))
  {
    if rules.allowed == [] && rules.denied == [] {
      FilterAll(schema.tables, TableVisible(rules));
      forall i | 0 <= i < |schema.tables| ensures Narrow(schema.tables, rules)[i] == schema.tables[i] {
        FilterAll(schema.tables[i].foreignKeys, TargetVisible(rules));
      }
      assert Narrow(schema.tables, rules) == schema.tables;
    }
  }

  /** Narrowing twice is narrowing once. */
  lemma NarrowingIsIdempotent(schema: DatabaseSchema, rules: Rules)
    ensures ApplyVisibility(ApplyVisibility(schema, rules), rules) == ApplyVisibility(schema, rules)
  {
    NarrowTwice(schema.tables, rules);
  }

  /** Of the foreign keys exactly those are left whose referenced table is visible, in order. */
  ghost predicate KeysToTheVisible(before: seq<ForeignKey>, after: seq<ForeignKey>, rules: Rules)
  {
    exists positions: seq<nat> ::
      At(before, after, positions)
      && forall i :: 0 <= i < |before| ==> (i in positions <==> Visible(before[i].referencedTable, rules))
  }

  lemma KeysAreKept(t: Table, rules: Rules)
    ensures KeysToTheVisible(t.foreignKeys, WithoutDanglingKeys(t, rules).foreignKeys, rules)
  {
    TrimmedKeys(t, rules);
    var positions := FilterPositions(t.foreignKeys, TargetVisible(rules));
  }

  /**
   * Narrowing leaves exactly the visible tables, each once and in order, and of each its
   * foreign keys to visible tables; nothing else about a table, or about the rest of the
   * snapshot, changes.
   */
  lemma NarrowingKeepsExactlyTheVisible(schema: DatabaseSchema, rules: Rules) returns (positions: seq<nat>)
    ensures var narrow := ApplyVisibility(schema, rules);
            && |positions| == |narrow.tables| && narrow == schema.(tables := narrow.tables)
            && (forall i, j :: 0 <= i < j < |positions| ==> positions[i] < positions[j])
            && (forall i :: 0 <= i < |schema.tables| ==> (i in positions <==> Visible(schema.tables[i].name, rules)))
            && (forall k :: 0 <= k < |positions| ==>
                  && positions[k] < |schema.tables|
                  && narrow.tables[k] == schema.tables[positions[k]].(foreignKeys := narrow.tables[k].foreignKeys)
                  && KeysToTheVisible(schema.tables[positions[k]].foreignKeys, narrow.tables[k].foreignKeys, rules))
  {
    AlwaysNarrowed(schema, rules);
    var visible := Filter(schema.tables, TableVisible(rules));
    positions := FilterPositions(schema.tables, TableVisible(rules));
    forall k | 0 <= k < |positions|
      ensures KeysToTheVisible(visible[k].foreignKeys, WithoutDanglingKeys(visible[k], rules).foreignKeys, rules)
    {
      KeysAreKept(visible[k], rules);
    }
  }

  /** Every foreign key points at a table of the snapshot, compared as the lists compare names. */
  ghost predicate KeysClosed(tables: seq<Table>)
  {
    forall t, k :: t in tables && k in t.foreignKeys ==> exists u :: u in tables && Normalize(u.name) == Normalize(k.referencedTable)
  }

  lemma NarrowedTable(schema: DatabaseSchema, rules: Rules, t: Table)
    ensures t in ApplyVisibility(schema, rules).tables <==>
            exists u :: u in schema.tables && Visible(u.name, rules) && t == WithoutDanglingKeys(u, rules)
  {
    AlwaysNarrowed(schema, rules);
    var visible := Filter(schema.tables, TableVisible(rules));
    if u :| u in schema.tables && Visible(u.name, rules) && t == WithoutDanglingKeys(u, rules) {
      FilterMember(schema.tables, TableVisible(rules), u);
      var i :| 0 <= i < |visible| && visible[i] == u;
      assert ApplyVisibility(schema, rules).tables[i] == t;
    }
    if t in ApplyVisibility(schema, rules).tables {
      var i :| 0 <= i < |visible| && Map(visible, Trimmed(rules))[i] == t;
      FilterMember(schema.tables, TableVisible(rules), visible[i]);
    }
  }

  /** A snapshot whose keys are closed stays so: narrowing never leaves a key naming a hidden table. */
  lemma NarrowingKeepsKeysClosed(schema: DatabaseSchema, rules: Rules)
    requires KeysClosed(schema.tables)
    ensures KeysClosed(ApplyVisibility(schema, rules).tables)
    ensures forall t, k :: t in ApplyVisibility(schema, rules).tables && k in t.foreignKeys ==> Visible(k.referencedTable, rules)
  {
    var narrow := ApplyVisibility(schema, rules).tables;
    forall t, k | t in narrow && k in t.foreignKeys
      ensures Visible(k.referencedTable, rules)
      ensures exists u :: u in narrow && Normalize(u.name) == Normalize(k.referencedTable)
    {
      NarrowedTable(schema, rules, t);
      var source :| source in schema.tables && Visible(source.name, rules) && t == WithoutDanglingKeys(source, rules);
      TrimmedKeys(source, rules);
      FilterMember(source.foreignKeys, TargetVisible(rules), k);
      var u :| u in schema.tables && Normalize(u.name) == Normalize(k.referencedTable);
      NarrowedTable(schema, rules, WithoutDanglingKeys(u, rules));
      assert WithoutDanglingKeys(u, rules).name == u.name;
    }
  }

  // ---------------------------------------------------------------- two gates on the same lists

  function TableName(): Table -> string
  {
    (t: Table) => t.name
  }

  /** The names safety review knows: lower-cased, not trimmed. */
  function Known(schema: DatabaseSchema): (r: set<string>)
  {
    SqlReview.KnownNames(Map(schema.tables, TableName()))
  }

  predicate ReviewPasses(table: string, schema: DatabaseSchema, rules: Rules)
  {
    SqlReview.TablePasses(table, Known(schema), rules)
  }

  lemma KnownMember(schema: DatabaseSchema, name: string)
    ensures name in Known(schema) <==> exists t :: t in schema.tables && Lower(t.name) == name
  {
    if t :| t in schema.tables && Lower(t.name) == name {
      var i :| 0 <= i < |schema.tables| && schema.tables[i] == t;
      assert Lower(Map(schema.tables, TableName())[i]) == name;
    }
  }

  /** A table review accepts against the narrowed schema it accepts against the full one. */
  lemma NarrowAcceptanceIsFullAcceptance(table: string, schema: DatabaseSchema, rules: Rules)
    requires ReviewPasses(table, ApplyVisibility(schema, rules), rules)
    ensures ReviewPasses(table, schema, rules)
  {
    KnownMember(schema, table);
    KnownMember(ApplyVisibility(schema, rules), table);
    var t :| t in ApplyVisibility(schema, rules).tables && Lower(t.name) == table;
    NarrowedTable(schema, rules, t);
  }

  /** Lists as the configuration loads them: trimmed and lower-cased. */
  predicate Canonical(names: seq<string>)
  {
    forall i :: 0 <= i < |names| ==> Normalize(names[i]) == names[i]
  }

  lemma CanonicalMember(names: seq<string>, name: string)
    requires Canonical(names)
    ensures name in Normalized(names) <==> name in names
  {
  }

  /**
   * The gates part ways over one family of tables only: listed nowhere as they are written,
   * with no allow list to stop them, but denied once their surrounding blanks are trimmed.
   */
  predicate SlipsThrough(table: string, schema: DatabaseSchema, rules: Rules)
  {
    table in Known(schema) && rules.allowed == [] && table !in rules.denied && Trim(table) in rules.denied
  }

  /** What narrowing makes of a table that goes by this lower-cased name. */
  lemma VisibleByLowerName(t: Table, rules: Rules)
    requires Canonical(rules.allowed) && Canonical(rules.denied)
    ensures Visible(t.name, rules) <==>
            Trim(Lower(t.name)) !in rules.denied && (rules.allowed == [] || Trim(Lower(t.name)) in rules.allowed)
  {
    NormalizeCommutes(t.name);
    CanonicalMember(rules.denied, Normalize(t.name));
    CanonicalMember(rules.allowed, Normalize(t.name));
  }

  lemma ListedIsTrimmed(names: seq<string>, name: string)
    requires Canonical(names) && name in names
    ensures Trim(name) == name
  {
    NormalIsTrimmed(name);
  }

  lemma NarrowedKnows(table: string, schema: DatabaseSchema, rules: Rules)
    requires Canonical(rules.allowed) && Canonical(rules.denied)
    ensures table in Known(ApplyVisibility(schema, rules)) <==>
            table in Known(schema) && Trim(table) !in rules.denied && (rules.allowed == [] || Trim(table) in rules.allowed)
  {
    KnownMember(schema, table);
    KnownMember(ApplyVisibility(schema, rules), table);
    if t :| t in schema.tables && Lower(t.name) == table && Visible(t.name, rules) {
      NarrowedTable(schema, rules, WithoutDanglingKeys(t, rules));
      VisibleByLowerName(t, rules);
    }
    if t :| t in ApplyVisibility(schema, rules).tables && Lower(t.name) == table {
      NarrowedTable(schema, rules, t);
      var u :| u in schema.tables && Visible(u.name, rules) && t == WithoutDanglingKeys(u, rules);
      VisibleByLowerName(u, rules);
    }
    forall t | t in schema.tables && Lower(t.name) == table
      ensures Visible(t.name, rules) <==> Trim(table) !in rules.denied && (rules.allowed == [] || Trim(table) in rules.allowed)
    {
      VisibleByLowerName(t, rules);
    }
  }

  /**
   * With lists as the configuration loads them, review accepts a table against the full
   * schema exactly when it accepts it against the narrowed one, except for the tables that
   * slip through.
   */
  lemma GatesAgreeExactlyWhen(table: string, schema: DatabaseSchema, rules: Rules)
    requires Canonical(rules.allowed) && Canonical(rules.denied)
    ensures (ReviewPasses(table, schema, rules) <==> ReviewPasses(table, ApplyVisibility(schema, rules), rules))
       <==> !SlipsThrough(table, schema, rules)
  {
    NarrowedKnows(table, schema, rules);
    if table in rules.allowed {
      ListedIsTrimmed(rules.allowed, table);
    }
  }

  /**
   * Review against the narrowed schema passes exactly the tables narrowing shows; where
   * there is an allow list, only those written without blanks around the name.
   */
  lemma NarrowedReviewPassesTheVisible(table: string, schema: DatabaseSchema, rules: Rules)
    requires Canonical(rules.allowed) && Canonical(rules.denied)
    ensures ReviewPasses(table, ApplyVisibility(schema, rules), rules) <==>
            && (exists t :: t in schema.tables && Lower(t.name) == table && Visible(t.name, rules))
            && (rules.allowed == [] || Trim(table) == table)
  {
    KnownMember(schema, table);
    forall t | t in schema.tables && Lower(t.name) == table
      ensures Visible(t.name, rules) <==> Trim(table) !in rules.denied && (rules.allowed == [] || Trim(table) in rules.allowed)
    {
      VisibleByLowerName(t, rules);
    }
    NarrowedKnows(table, schema, rules);
    if table in rules.allowed {
      ListedIsTrimmed(rules.allowed, table);
    }
    if table in rules.denied {
      ListedIsTrimmed(rules.denied, table);
    }
  }

  /** A name padded with a blank: denied, hence hidden, yet review against the full schema lets it through. */
  lemma PaddedNamesDisagree(schema: DatabaseSchema, t: Table)
    requires schema.tables == [t] && t.name == " pay"
    ensures var rules := SqlReview.TableRules([], ["pay"]);
            ReviewPasses(" pay", schema, rules) && !ReviewPasses(" pay", ApplyVisibility(schema, rules), rules)
  {
    var rules := SqlReview.TableRules([], ["pay"]);
    assert Lower(" pay") == " pay" && Lower("pay") == "pay";
    assert TrimStart(" pay") == "pay" && Trim(" pay") == "pay" && Trim("pay") == "pay";
    KnownMember(schema, " pay");
    KnownMember(ApplyVisibility(schema, rules), " pay");
    assert t in schema.tables;
    assert Normalized(rules.denied) == {"pay"} by {
      assert Normalize(rules.denied[0]) == "pay";
    }
    FilterNone(schema.tables, TableVisible(rules));
  }
}
