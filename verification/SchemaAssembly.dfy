/** Joining the three flat catalog result sets into one entry per table. */
module SchemaAssembly {
  import opened Sequences
  import opened SchemaTypes

  datatype TableRow = TableRow(schema: string, name: string, relkind: string, comment: Option<string>)

  datatype ColumnRow = ColumnRow(
    schema: string, table: string, name: string, position: int, dataType: string, isNullable: bool,
    defaultValue: Option<string>, comment: Option<string>)

  datatype ConstraintRow = ConstraintRow(
    schema: string, table: string, name: string, kind: string, columns: Option<seq<string>>,
    referencedSchema: string, referencedTable: string, referencedColumns: Option<seq<string>>)

  function Key(schema: string, table: string): (r: string)
  {
    schema + "." + table
  }

  /** The schema and table a catalog row belongs to. */
  datatype Owner = Owner(schema: string, table: string)

  function ColumnOwner(): ColumnRow -> Owner
  {
    (c: ColumnRow) => Owner(c.schema, c.table)
  }

  function ConstraintOwner(): ConstraintRow -> Owner
  {
    (c: ConstraintRow) => Owner(c.schema, c.table)
  }

  function KeyBy<T>(owner: T -> Owner): T -> string
  {
    (row: T) => Key(owner(row).schema, owner(row).table)
  }

  function HasKey<T>(key: T -> string, id: string): T -> bool
  {
    (row: T) => key(row) == id
  }

  function OfKind(kind: string): ConstraintRow -> bool
  {
    (c: ConstraintRow) => c.kind == kind
  }

  function OrEmpty<T>(s: Option<seq<T>>): (r: seq<T>)
  {
    if s.Some? then s.value else []
  }

  function KindOf(relkind: string): (r: TableKind)
  {
    if relkind == "v" then View
    else if relkind == "m" then MaterializedView
    else if relkind == "p" then PartitionedTable
    else BaseTable
  }

  /** The columns of the first primary-key constraint. */
  function PrimaryKey(constraints: seq<ConstraintRow>): (r: seq<string>)
  {
    if constraints == [] then []
    else if constraints[0].kind == "p" then OrEmpty(constraints[0].columns)
    else PrimaryKey(constraints[1..])
  }

  function AsForeignKey(): ConstraintRow -> ForeignKey
  {
    (c: ConstraintRow) =>
      ForeignKey(c.name, OrEmpty(c.columns), c.referencedSchema, c.referencedTable, OrEmpty(c.referencedColumns))
  }

  function AsUnique(): ConstraintRow -> UniqueConstraint
  {
    (c: ConstraintRow) => UniqueConstraint(c.name, OrEmpty(c.columns))
  }

  function AsColumn(primaryKey: seq<string>): ColumnRow -> Column
  {
    (c: ColumnRow) =>
      Column(c.name, c.position, c.dataType, c.isNullable, c.defaultValue, c.comment, c.name in primaryKey)
  }

  function BuildTable(row: TableRow, columns: seq<ColumnRow>, constraints: seq<ConstraintRow>): (r: Table)
  {
    var primaryKey := PrimaryKey(constraints);
    Table(row.schema, row.name, KindOf(row.relkind), row.comment,
          Map(columns, AsColumn(primaryKey)), primaryKey,
          Map(Filter(constraints, OfKind("f")), AsForeignKey()),
          Map(Filter(constraints, OfKind("u")), AsUnique()))
  }

  /** A group for every key that occurs, holding exactly the rows with that key, in input order. */
  ghost predicate GroupedBy<T>(groups: map<string, seq<T>>, rows: seq<T>, key: T -> string)
  {
    && (forall id :: id in groups <==> KeyOccurs(rows, key, id))
    && (forall id :: id in groups ==> groups[id] == Filter(rows, HasKey(key, id)))
  }

  /** `groups` with one more row in its place. */
  function WithRow<T>(groups: map<string, seq<T>>, id: string, row: T): (r: map<string, seq<T>>)
  {
    groups[id := Group(groups, id) + [row]]
  }

  predicate KeyOccurs<T>(rows: seq<T>, key: T -> string, id: string)
  {
    exists i :: 0 <= i < |rows| && key(rows[i]) == id
  }

  lemma KeyOccursPush<T>(rows: seq<T>, row: T, key: T -> string, id: string)
    ensures KeyOccurs(rows + [row], key, id) <==> KeyOccurs(rows, key, id) || key(row) == id
  {
    var all := rows + [row];
    assert all[|rows|] == row;
    assert forall i :: 0 <= i < |rows| ==> all[i] == rows[i];
  }

  lemma GroupOne<T>(groups: map<string, seq<T>>, rows: seq<T>, row: T, key: T -> string)
    requires GroupedBy(groups, rows, key)
    ensures GroupedBy(WithRow(groups, key(row), row), rows + [row], key)
  {
    var next := WithRow(groups, key(row), row);
    forall id ensures id in next <==> KeyOccurs(rows + [row], key, id) {
      KeyOccursPush(rows, row, key, id);
    }
    forall id | id in next ensures next[id] == Filter(rows + [row], HasKey(key, id)) {
      MissingGroup(groups, rows, key, id);
      FilterPush(rows, row, HasKey(key, id));
    }
  }

  /** The map-building loop: each id collects its rows in input order. */
  method GroupBy<T>(rows: seq<T>, key: T -> string) returns (groups: map<string, seq<T>>)
    ensures GroupedBy(groups, rows, key)
  {
    groups := map[];
    for i := 0 to |rows|
      invariant GroupedBy(groups, rows[..i], key)
    {
      var id := key(rows[i]);
      assert rows[..i + 1] == rows[..i] + [rows[i]];
      GroupOne(groups, rows[..i], rows[i], key);
      groups := if id in groups then groups[id := groups[id] + [rows[i]]] else groups[id := [rows[i]]];
    }
    assert rows[..|rows|] == rows;
  }

  function Group<T>(groups: map<string, seq<T>>, id: string): (r: seq<T>)
  {
    if id in groups then groups[id] else []
  }

  /** The rows a table is given: those with its key. */
  function Given<T>(row: TableRow, items: seq<T>, owner: T -> Owner): (r: seq<T>)
  {
    Filter(items, HasKey(KeyBy(owner), Key(row.schema, row.name)))
  }

  function Assembled(row: TableRow, columns: seq<ColumnRow>, constraints: seq<ConstraintRow>): (r: Table)
  {
    BuildTable(row, Given(row, columns, ColumnOwner()), Given(row, constraints, ConstraintOwner()))
  }

  function AssembledFrom(columns: seq<ColumnRow>, constraints: seq<ConstraintRow>): TableRow -> Table
  {
    (row: TableRow) => Assembled(row, columns, constraints)
  }

  method Assemble(tableRows: seq<TableRow>, columnRows: seq<ColumnRow>, constraintRows: seq<ConstraintRow>)
    returns (tables: seq<Table>)
    ensures tables == Map(tableRows, AssembledFrom(columnRows, constraintRows))
  {
    var columns := GroupBy(columnRows, KeyBy(ColumnOwner()));
    var constraints := GroupBy(constraintRows, KeyBy(ConstraintOwner()));
    tables := [];
    for i := 0 to |tableRows|
      invariant tables == Map(tableRows[..i], AssembledFrom(columnRows, constraintRows))
    {
      var id := Key(tableRows[i].schema, tableRows[i].name);
      MissingGroup(columns, columnRows, KeyBy(ColumnOwner()), id);
      MissingGroup(constraints, constraintRows, KeyBy(ConstraintOwner()), id);
      assert tableRows[..i + 1] == tableRows[..i] + [tableRows[i]];
      MapPush(tableRows[..i], tableRows[i], AssembledFrom(columnRows, constraintRows));
      tables := tables + [BuildTable(tableRows[i], Group(columns, id), Group(constraints, id))];
    }
    assert tableRows[..|tableRows|] == tableRows;
  }

  lemma MissingGroup<T>(groups: map<string, seq<T>>, rows: seq<T>, key: T -> string, id: string)
    requires GroupedBy(groups, rows, key)
    ensures Group(groups, id) == Filter(rows, HasKey(key, id))
  {
    if id !in groups {
      FilterNone(rows, HasKey(key, id));
    }
  }

  // ---------------------------------------------------------------- grouping by key against belonging to a table

  function BelongsTo<T>(row: TableRow, owner: T -> Owner): T -> bool
  {
    (item: T) => owner(item) == Owner(row.schema, row.name)
  }

  /**
   * Two tables share a key exactly when they are one table, or the longer schema name goes
   * on after the shorter with a dot and the very text that opens the other's table name.
   */
  lemma KeysCollideExactlyWhen(s1: string, t1: string, s2: string, t2: string)
    requires |s1| <= |s2|
    ensures Key(s1, t1) == Key(s2, t2) <==>
            (s1 == s2 && t1 == t2) || exists p: string :: s2 == s1 + "." + p && t1 == p + "." + t2
  {
    var k1, k2 := Key(s1, t1), Key(s2, t2);
    if k1 == k2 {
      assert s1 == k1[..|s1|] == k2[..|s1|] == s2[..|s1|];
      if |s1| == |s2| {
        assert t1 == k1[|s1| + 1..] && t2 == k2[|s2| + 1..];
      } else {
        var p := s2[|s1| + 1..];
        assert k1[|s1|] == '.' && k2[|s1|] == s2[|s1|];
        assert s2 == s1 + "." + p;
        assert t1 == k1[|s1| + 1..] && k2[|s1| + 1..] == p + "." + t2;
      }
    }
    if p: string :| s2 == s1 + "." + p && t1 == p + "." + t2 {
      assert k1 == s1 + "." + (p + "." + t2) == k2;
    }
  }

  /** No row of another table has this table's key. */
  ghost predicate KeyIsItsOwn<T>(row: TableRow, items: seq<T>, owner: T -> Owner)
  {
    forall x :: x in items && KeyBy(owner)(x) == Key(row.schema, row.name) ==> BelongsTo(row, owner)(x)
  }

  /**
   * A table is given exactly its own rows, columns and constraints alike, in order, precisely
   * when no row of another table happens to have the same dotted key.
   */
  lemma GroupingIsFilteringExactly<T>(row: TableRow, items: seq<T>, owner: T -> Owner)
    ensures Given(row, items, owner) == Filter(items, BelongsTo(row, owner))
       <==> KeyIsItsOwn(row, items, owner)
  {
    var byKey, byTable := HasKey(KeyBy(owner), Key(row.schema, row.name)), BelongsTo(row, owner);
    if forall x :: x in items && byKey(x) ==> byTable(x) {
      FilterAgree(items, byKey, byTable);
    } else {
      var x :| x in items && byKey(x) && !byTable(x);
      FilterMember(items, byKey, x);
      FilterMember(items, byTable, x);
    }
  }

  /** Schema `a.b` with table `c`, and schema `a` with table `b.c`, share a key. */
  lemma DottedSchemasCollide(row: TableRow, c: ColumnRow)
    requires row.schema == "a.b" && row.name == "c" && c.schema == "a" && c.table == "b.c"
    ensures c in Given(row, [c], ColumnOwner()) && !BelongsTo(row, ColumnOwner())(c)
  {
    assert Key("a.b", "c") == Key("a", "b.c");
    FilterMember([c], HasKey(KeyBy(ColumnOwner()), Key("a.b", "c")), c);
  }

  /** Schema names without a dot are enough for that, whatever the tables are called. */
  lemma UndottedKeysAreTheirOwn<T>(row: TableRow, items: seq<T>, owner: T -> Owner)
    requires '.' !in row.schema && forall x :: x in items ==> '.' !in owner(x).schema
    ensures KeyIsItsOwn(row, items, owner)
  {
    forall x | x in items && KeyBy(owner)(x) == Key(row.schema, row.name) ensures BelongsTo(row, owner)(x) {
      KeysOf(owner(x), Owner(row.schema, row.name));
    }
  }

  /** And so are table names without one. */
  lemma UndottedTablesAreTheirOwn<T>(row: TableRow, items: seq<T>, owner: T -> Owner)
    requires '.' !in row.name && forall x :: x in items ==> '.' !in owner(x).table
    ensures KeyIsItsOwn(row, items, owner)
  {
    forall x | x in items && KeyBy(owner)(x) == Key(row.schema, row.name) ensures BelongsTo(row, owner)(x) {
      KeysOf(owner(x), Owner(row.schema, row.name));
    }
  }

  lemma KeysOf(a: Owner, b: Owner)
    requires Key(a.schema, a.table) == Key(b.schema, b.table)
    ensures a == b || ('.' in a.schema + b.schema && '.' in a.table + b.table)
  {
    if |a.schema| <= |b.schema| {
      KeysCollideExactlyWhen(a.schema, a.table, b.schema, b.table);
    } else {
      KeysCollideExactlyWhen(b.schema, b.table, a.schema, a.table);
    }
  }

  /** The column as its catalog row has it. */
  predicate IsColumn(c: Column, row: ColumnRow, primaryKey: seq<string>)
  {
    && c.name == row.name && c.position == row.position && c.dataType == row.dataType && c.isNullable == row.isNullable
    && c.defaultValue == row.defaultValue && c.comment == row.comment
    && (c.isPrimaryKey <==> row.name in primaryKey)
  }

  predicate IsForeignKey(k: ForeignKey, row: ConstraintRow)
  {
    && k.name == row.name && Lists(k.columns, row.columns)
    && k.referencedSchema == row.referencedSchema && k.referencedTable == row.referencedTable
    && Lists(k.referencedColumns, row.referencedColumns)
  }

  predicate IsUnique(u: UniqueConstraint, row: ConstraintRow)
  {
    u.name == row.name && Lists(u.columns, row.columns)
  }

  predicate Lists(names: seq<string>, listed: Option<seq<string>>)
  {
    listed == Some(names) || (listed.None? && names == [])
  }

  /** The columns of the first primary-key constraint, if there is one. */
  ghost predicate IsPrimaryKey(names: seq<string>, constraints: seq<ConstraintRow>)
  {
    && ((forall i :: 0 <= i < |constraints| ==> constraints[i].kind != "p") ==> names == [])
    && forall i :: 0 <= i < |constraints| && constraints[i].kind == "p" && (forall j :: 0 <= j < i ==> constraints[j].kind != "p") ==>
         Lists(names, constraints[i].columns)
  }

  lemma {:induction false} PrimaryKeyIsTheFirst(constraints: seq<ConstraintRow>)
    ensures IsPrimaryKey(PrimaryKey(constraints), constraints)
  {
    if constraints != [] && constraints[0].kind != "p" {
      var rest := constraints[1..];
      PrimaryKeyIsTheFirst(rest);
      assert forall i :: 1 <= i < |constraints| ==> constraints[i] == rest[i - 1];
      forall i | 0 <= i < |constraints| && constraints[i].kind == "p" && (forall j :: 0 <= j < i ==> constraints[j].kind != "p")
        ensures Lists(PrimaryKey(constraints), constraints[i].columns)
      {
        assert rest[i - 1].kind == "p" && forall j :: 0 <= j < i - 1 ==> rest[j].kind != "p";
      }
    }
  }

  /** Where the constraints of that kind stand, in order. */
  ghost predicate StandsWhere(own: seq<ConstraintRow>, kind: string, positions: seq<nat>)
  {
    && (forall i, j :: 0 <= i < j < |positions| ==> positions[i] < positions[j])
    && (forall i :: 0 <= i < |positions| ==> positions[i] < |own|)
    && (forall i :: 0 <= i < |own| ==> (i in positions <==> own[i].kind == kind))
  }

  /** One key for each foreign-key row, in order. */
  ghost predicate KeysOfRows(keys: seq<ForeignKey>, own: seq<ConstraintRow>)
  {
    exists positions: seq<nat> ::
      && StandsWhere(own, "f", positions) && |positions| == |keys|
      && forall i :: 0 <= i < |keys| ==> IsForeignKey(keys[i], own[positions[i]])
  }

  /** One unique constraint for each unique row, in order. */
  ghost predicate UniquesOfRows(uniques: seq<UniqueConstraint>, own: seq<ConstraintRow>)
  {
    exists positions: seq<nat> ::
      && StandsWhere(own, "u", positions) && |positions| == |uniques|
      && forall i :: 0 <= i < |uniques| ==> IsUnique(uniques[i], own[positions[i]])
  }

  lemma KindStandsWhere(own: seq<ConstraintRow>, kind: string) returns (positions: seq<nat>)
    ensures StandsWhere(own, kind, positions) && At(own, Filter(own, OfKind(kind)), positions)
  {
    positions := FilterPositions(own, OfKind(kind));
    assert forall i :: 0 <= i < |own| ==> (i in positions <==> OfKind(kind)(own[i]));
  }

  lemma KeysAreBuilt(own: seq<ConstraintRow>)
    ensures KeysOfRows(Map(Filter(own, OfKind("f")), AsForeignKey()), own)
  {
    var positions := KindStandsWhere(own, "f");
  }

  lemma UniquesAreBuilt(own: seq<ConstraintRow>)
    ensures UniquesOfRows(Map(Filter(own, OfKind("u")), AsUnique()), own)
  {
    var positions := KindStandsWhere(own, "u");
  }

  /** One column for each of the table's rows, in order. */
  ghost predicate ColumnsOfRows(columns: seq<Column>, row: TableRow, rows: seq<ColumnRow>, primaryKey: seq<string>)
  {
    exists positions: seq<nat> ::
      && |positions| == |columns| && (forall i, j :: 0 <= i < j < |positions| ==> positions[i] < positions[j])
      && (forall i :: 0 <= i < |rows| ==> (i in positions <==> rows[i].schema == row.schema && rows[i].table == row.name))
      && forall i :: 0 <= i < |columns| ==> positions[i] < |rows| && IsColumn(columns[i], rows[positions[i]], primaryKey)
  }

  lemma ColumnsAreBuilt(row: TableRow, rows: seq<ColumnRow>, primaryKey: seq<string>)
    ensures ColumnsOfRows(Map(Filter(rows, BelongsTo(row, ColumnOwner())), AsColumn(primaryKey)), row, rows, primaryKey)
  {
    var mine := BelongsTo(row, ColumnOwner());
    var positions := FilterPositions(rows, mine);
    assert forall i :: 0 <= i < |rows| ==> (i in positions <==> mine(rows[i]));
  }

  /** The kind the catalog's letter stands for. */
  predicate IsKind(kind: TableKind, relkind: string)
  {
    && (kind.View? <==> relkind == "v") && (kind.MaterializedView? <==> relkind == "m")
    && (kind.PartitionedTable? <==> relkind == "p")
  }

  /**
   * Where its key is its own, a table gets exactly its own column and constraint rows in
   * order, each with all it says: the first primary-key constraint is its key, and a column
   * is marked primary exactly when that key lists it.
   */
  lemma AssembleGivesEachTableItsRows(row: TableRow, columns: seq<ColumnRow>, constraints: seq<ConstraintRow>)
    requires KeyIsItsOwn(row, columns, ColumnOwner()) && KeyIsItsOwn(row, constraints, ConstraintOwner())
    ensures var t := Assembled(row, columns, constraints);
            var own := Filter(constraints, BelongsTo(row, ConstraintOwner()));
            && t.schema == row.schema && t.name == row.name && t.comment == row.comment && IsKind(t.kind, row.relkind)
            && ColumnsOfRows(t.columns, row, columns, t.primaryKey)
            && IsPrimaryKey(t.primaryKey, own) && KeysOfRows(t.foreignKeys, own) && UniquesOfRows(t.uniqueConstraints, own)
  {
    var own := Filter(constraints, BelongsTo(row, ConstraintOwner()));
    GroupingIsFilteringExactly(row, columns, ColumnOwner());
    GroupingIsFilteringExactly(row, constraints, ConstraintOwner());
    ColumnsAreBuilt(row, columns, PrimaryKey(own));
    PrimaryKeyIsTheFirst(own);
    KeysAreBuilt(own);
    UniquesAreBuilt(own);
  }

  // ---------------------------------------------------------------- no row lost, none shared

  ghost predicate DistinctTables(rows: seq<TableRow>)
  {
    forall i, j :: 0 <= i < j < |rows| ==> rows[i].schema != rows[j].schema || rows[i].name != rows[j].name
  }

  /** The table the row belongs to is one of those listed. */
  function Listed<T>(rows: seq<TableRow>, owner: T -> Owner): T -> bool
  {
    (item: T) => exists i :: 0 <= i < |rows| && BelongsTo(rows[i], owner)(item)
  }

  /** What the tables hold together, by some count on one table. */
  function Together(tables: seq<Table>, count: Table -> nat): (r: nat)
  {
    if tables == [] then 0 else Together(tables[..|tables| - 1], count) + count(tables[|tables| - 1])
  }

  lemma {:induction false} DisjointFiltersAdd<T>(s: seq<T>, p: T -> bool, q: T -> bool, both: T -> bool)
    requires forall x :: x in s ==> !(p(x) && q(x)) && both(x) == (p(x) || q(x))
    ensures |Filter(s, both)| == |Filter(s, p)| + |Filter(s, q)|
  {
    if s != [] {
      DisjointFiltersAdd(s[..|s| - 1], p, q, both);
    }
  }

  lemma ListedStep<T>(rows: seq<TableRow>, owner: T -> Owner, item: T)
    requires DistinctTables(rows) && rows != []
    ensures var front, last := rows[..|rows| - 1], rows[|rows| - 1];
            && !(Listed(front, owner)(item) && BelongsTo(last, owner)(item))
            && Listed(rows, owner)(item) == (Listed(front, owner)(item) || BelongsTo(last, owner)(item))
  {
    var front, last := rows[..|rows| - 1], rows[|rows| - 1];
    if i :| 0 <= i < |rows| && BelongsTo(rows[i], owner)(item) {
      if i < |front| {
        assert front[i] == rows[i];
      }
    }
    if i :| 0 <= i < |front| && BelongsTo(front[i], owner)(item) {
      assert rows[i] == front[i];
    }
    if BelongsTo(last, owner)(item) {
      assert rows[|rows| - 1] == last;
    }
  }

  ghost predicate KeysAreTheirOwn<T>(rows: seq<TableRow>, items: seq<T>, owner: T -> Owner)
  {
    forall i :: 0 <= i < |rows| ==> KeyIsItsOwn(rows[i], items, owner)
  }

  lemma {:induction false} ImpliedFilterIsShorter<T>(s: seq<T>, p: T -> bool, q: T -> bool)
    requires forall x :: x in s && p(x) ==> q(x)
    ensures |Filter(s, p)| <= |Filter(s, q)|
    ensures |Filter(s, p)| == |Filter(s, q)| ==> Filter(s, p) == Filter(s, q)
  {
    if s != [] {
      ImpliedFilterIsShorter(s[..|s| - 1], p, q);
    }
  }

  /** A table is given at least its own rows, and no more exactly when its key is its own. */
  lemma GivenCount<T>(row: TableRow, items: seq<T>, owner: T -> Owner)
    ensures |Given(row, items, owner)| >= |Filter(items, BelongsTo(row, owner))|
    ensures |Given(row, items, owner)| == |Filter(items, BelongsTo(row, owner))| <==> KeyIsItsOwn(row, items, owner)
  {
    GroupingIsFilteringExactly(row, items, owner);
    ImpliedFilterIsShorter(items, BelongsTo(row, owner), HasKey(KeyBy(owner), Key(row.schema, row.name)));
  }

  /**
   * Tables that each hold what they were given hold at least what belongs to any of them,
   * and exactly that exactly when their keys are their own.
   */
  lemma {:induction false} HeldTogether<T>(rows: seq<TableRow>, items: seq<T>, owner: T -> Owner,
                                           tables: seq<Table>, count: Table -> nat)
    requires DistinctTables(rows) && |tables| == |rows|
    requires forall i :: 0 <= i < |rows| ==> count(tables[i]) == |Given(rows[i], items, owner)|
    ensures Together(tables, count) >= |Filter(items, Listed(rows, owner))|
    ensures Together(tables, count) == |Filter(items, Listed(rows, owner))| <==> KeysAreTheirOwn(rows, items, owner)
  {
    if rows == [] {
      FilterNone(items, Listed(rows, owner));
    } else {
      var n := |rows| - 1;
      HeldTogether(rows[..n], items, owner, tables[..n], count);
      forall x | x in items
        ensures !(Listed(rows[..n], owner)(x) && BelongsTo(rows[n], owner)(x))
        ensures Listed(rows, owner)(x) == (Listed(rows[..n], owner)(x) || BelongsTo(rows[n], owner)(x))
      {
        ListedStep(rows, owner, x);
      }
      GivenCount(rows[n], items, owner);
      DisjointFiltersAdd(items, Listed(rows[..n], owner), BelongsTo(rows[n], owner), Listed(rows, owner));
      assert KeysAreTheirOwn(rows, items, owner) <==>
             KeysAreTheirOwn(rows[..n], items, owner) && KeyIsItsOwn(rows[n], items, owner) by {
        assert forall i :: 0 <= i < n ==> rows[..n][i] == rows[i];
      }
    }
  }

  lemma GivenMember<T>(row: TableRow, items: seq<T>, owner: T -> Owner, x: T)
    ensures x in Given(row, items, owner) <==> x in items && KeyBy(owner)(x) == Key(row.schema, row.name)
  {
    FilterMember(items, HasKey(KeyBy(owner), Key(row.schema, row.name)), x);
  }

  /** Nothing is given to a table it does not belong to. */
  ghost predicate GivenToOwnersOnly<T>(rows: seq<TableRow>, items: seq<T>, owner: T -> Owner)
  {
    forall i, x :: 0 <= i < |rows| && x in Given(rows[i], items, owner) ==> BelongsTo(rows[i], owner)(x)
  }

  /**
   * A row of a listed table is given to that table; and rows are given to no other table
   * exactly when keys are their own.
   */
  lemma GivenToOneTable<T>(rows: seq<TableRow>, items: seq<T>, owner: T -> Owner)
    ensures forall i, x :: 0 <= i < |rows| && x in items && BelongsTo(rows[i], owner)(x) ==> x in Given(rows[i], items, owner)
    ensures GivenToOwnersOnly(rows, items, owner) <==> KeysAreTheirOwn(rows, items, owner)
  {
    forall i, x | 0 <= i < |rows| && x in items && BelongsTo(rows[i], owner)(x) ensures x in Given(rows[i], items, owner) {
      GivenMember(rows[i], items, owner, x);
    }
    if KeysAreTheirOwn(rows, items, owner) {
      forall i, x | 0 <= i < |rows| && x in Given(rows[i], items, owner) ensures BelongsTo(rows[i], owner)(x) {
        GivenMember(rows[i], items, owner, x);
        assert KeyIsItsOwn(rows[i], items, owner);
      }
    }
    if GivenToOwnersOnly(rows, items, owner) {
      forall i, x | 0 <= i < |rows| && x in items && KeyBy(owner)(x) == Key(rows[i].schema, rows[i].name)
        ensures BelongsTo(rows[i], owner)(x)
      {
        GivenMember(rows[i], items, owner, x);
      }
    }
  }

  lemma {:induction false} FilterSwap<T>(s: seq<T>, p: T -> bool, q: T -> bool)
    ensures Filter(Filter(s, p), q) == Filter(Filter(s, q), p)
  {
    if s != [] {
      var front, last := s[..|s| - 1], s[|s| - 1];
      FilterSwap(front, p, q);
      FilterKeeps(Filter(front, p), last, p, q);
      FilterKeeps(Filter(front, q), last, q, p);
    }
  }

  lemma FilterKeeps<T>(kept: seq<T>, last: T, p: T -> bool, q: T -> bool)
    ensures Filter(kept + (if p(last) then [last] else []), q)
         == Filter(kept, q) + if p(last) && q(last) then [last] else []
  {
    if p(last) {
      FilterPush(kept, last, q);
    } else {
      assert kept + [] == kept;
    }
  }

  function ColumnCount(): Table -> nat
  {
    (t: Table) => |t.columns|
  }

  function ForeignKeyCount(): Table -> nat
  {
    (t: Table) => |t.foreignKeys|
  }

  function UniqueCount(): Table -> nat
  {
    (t: Table) => |t.uniqueConstraints|
  }

  /**
   * Over all assembled tables together there are as many columns, foreign keys and unique
   * constraints as catalog rows of listed tables call for, none lost and none given twice,
   * exactly when no other table's rows have a listed table's key; and never fewer.
   */
  lemma NoRowLostOrShared(rows: seq<TableRow>, columns: seq<ColumnRow>, constraints: seq<ConstraintRow>)
    requires DistinctTables(rows)
    ensures var tables := Map(rows, AssembledFrom(columns, constraints));
            var keys, uniques := Filter(constraints, OfKind("f")), Filter(constraints, OfKind("u"));
            && Tallies(tables, ColumnCount(), rows, columns, ColumnOwner())
            && Tallies(tables, ForeignKeyCount(), rows, keys, ConstraintOwner())
            && Tallies(tables, UniqueCount(), rows, uniques, ConstraintOwner())
  {
    var tables := Map(rows, AssembledFrom(columns, constraints));
    var keys, uniques := Filter(constraints, OfKind("f")), Filter(constraints, OfKind("u"));
    forall i | 0 <= i < |rows|
      ensures ColumnCount()(tables[i]) == |Given(rows[i], columns, ColumnOwner())|
      ensures ForeignKeyCount()(tables[i]) == |Given(rows[i], keys, ConstraintOwner())|
      ensures UniqueCount()(tables[i]) == |Given(rows[i], uniques, ConstraintOwner())|
    {
      var mine := HasKey(KeyBy(ConstraintOwner()), Key(rows[i].schema, rows[i].name));
      FilterSwap(constraints, mine, OfKind("f"));
      FilterSwap(constraints, mine, OfKind("u"));
    }
    HeldTogether(rows, columns, ColumnOwner(), tables, ColumnCount());
    HeldTogether(rows, keys, ConstraintOwner(), tables, ForeignKeyCount());
    HeldTogether(rows, uniques, ConstraintOwner(), tables, UniqueCount());
  }

  /** The tables together hold what belongs to those listed: never less, and no more exactly when keys are their own. */
  ghost predicate Tallies<T>(tables: seq<Table>, count: Table -> nat, rows: seq<TableRow>, items: seq<T>, owner: T -> Owner)
  {
    && Together(tables, count) >= |Filter(items, Listed(rows, owner))|
    && (Together(tables, count) == |Filter(items, Listed(rows, owner))| <==> KeysAreTheirOwn(rows, items, owner))
  }
}
