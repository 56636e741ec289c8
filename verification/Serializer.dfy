/** The DDL-shaped text that goes into a prompt, and what cannot influence it. */
module Serializer {
  import opened Sequences
  import opened SchemaTypes
  import opened Visibility

  datatype Options = Options(includeComments: bool, includeDefaults: bool)

  predicate Present(text: Option<string>)
  {
    text.Some? && text.value != ""
  }

  function ColumnLine(c: Column, opts: Options): (r: string)
  {
    "  " + c.name + " " + c.dataType + (if c.isNullable then "" else " NOT NULL")
    + if opts.includeDefaults && Present(c.defaultValue) then " DEFAULT " + c.defaultValue.value else ""
  }

  function ColumnLines(columns: seq<Column>, opts: Options): (r: seq<string>)
    ensures |r| == |columns|
  {
    seq(|columns|, i requires 0 <= i < |columns| => ColumnLine(columns[i], opts))
  }

  function KeyLine(k: ForeignKey, qualify: bool): (r: string)
  {
    var target := if qualify then k.referencedSchema + "." + k.referencedTable else k.referencedTable;
    "  FOREIGN KEY (" + Join(k.columns, ", ") + ")" + " REFERENCES " + target + " (" + Join(k.referencedColumns, ", ") + ")"
  }

  /** Constraints only mean something on a real table. */
  function ConstraintLines(t: Table, qualify: bool): (r: seq<string>)
  {
    if t.kind != BaseTable then []
    else
      (if t.primaryKey == [] then [] else ["  PRIMARY KEY (" + Join(t.primaryKey, ", ") + ")"])
      + seq(|t.uniqueConstraints|, i requires 0 <= i < |t.uniqueConstraints| =>
              "  UNIQUE (" + Join(t.uniqueConstraints[i].columns, ", ") + ")")
      + seq(|t.foreignKeys|, i requires 0 <= i < |t.foreignKeys| => KeyLine(t.foreignKeys[i], qualify))
  }

  /** The comment that goes on line `i`, or nothing. */
  function Shown(columns: seq<Column>, opts: Options, i: nat): (r: string)
  {
    if opts.includeComments && i < |columns| && Present(columns[i].comment) then columns[i].comment.value else ""
  }

  /** A comma after every line but the last; a column's comment rides behind it. */
  function Punctuated(columns: seq<Column>, body: seq<string>, opts: Options, i: nat): (r: string)
    requires i < |body|
  {
    var comment := Shown(columns, opts, i);
    body[i] + (if i < |body| - 1 then "," else "") + if comment == "" then "" else " -- " + comment
  }

  function AllPunctuated(columns: seq<Column>, body: seq<string>, opts: Options): (r: seq<string>)
  {
    seq(|body|, i requires 0 <= i < |body| => Punctuated(columns, body, opts, i))
  }

  function Opening(t: Table, qualify: bool): (r: string)
  {
    var name := if qualify then t.schema + "." + t.name else t.name;
    (if t.kind == BaseTable then "CREATE TABLE" else "CREATE VIEW") + " " + name + " ("
  }

  function TableLines(t: Table, qualify: bool, opts: Options): (r: seq<string>)
  {
    (if opts.includeComments && Present(t.comment) then ["-- " + t.comment.value] else [])
    + [ Opening(t, qualify),
        Join(AllPunctuated(t.columns, ColumnLines(t.columns, opts) + ConstraintLines(t, qualify), opts), "\n"),
        ");" ]
  }

  function TableText(t: Table, qualify: bool, opts: Options): (r: string)
  {
    Join(TableLines(t, qualify, opts), "\n")
  }

  method SerializeTable(t: Table, qualify: bool, opts: Options) returns (text: string)
    ensures text == TableText(t, qualify, opts)
  {
    var lines: seq<string> := [];
    var name := if qualify then t.schema + "." + t.name else t.name;
    if opts.includeComments && Present(t.comment) {
      lines := lines + ["-- " + t.comment.value];
    }
    lines := lines + [(if t.kind == BaseTable then "CREATE TABLE" else "CREATE VIEW") + " " + name + " ("];

    var body := Columns(t, opts);
    var constraints := Constraints(t, qualify);
    body := body + constraints;
    var commented := AllPunctuated(t.columns, body, opts);
    lines := lines + [Join(commented, "\n")];
    lines := lines + [");"];
    assert lines == TableLines(t, qualify, opts);
    text := Join(lines, "\n");
  }

  method Columns(t: Table, opts: Options) returns (body: seq<string>)
    ensures body == ColumnLines(t.columns, opts)
  {
    body := [];
    for i := 0 to |t.columns|
      invariant body == ColumnLines(t.columns, opts)[..i]
    {
      var c := t.columns[i];
      var definition := "  " + c.name + " " + c.dataType;
      if !c.isNullable {
        definition := definition + " NOT NULL";
      }
      if opts.includeDefaults && Present(c.defaultValue) {
        definition := definition + (" DEFAULT " + c.defaultValue.value);
      }
      assert definition == ColumnLine(c, opts);
      body := body + [definition];
    }
  }

  method Constraints(t: Table, qualify: bool) returns (body: seq<string>)
    ensures body == ConstraintLines(t, qualify)
  {
    body := [];
    if t.kind == BaseTable {
      if |t.primaryKey| > 0 {
        body := body + ["  PRIMARY KEY (" + Join(t.primaryKey, ", ") + ")"];
      }
      ghost var first := body;
      ghost var uniques := seq(|t.uniqueConstraints|, i requires 0 <= i < |t.uniqueConstraints| =>
                                 "  UNIQUE (" + Join(t.uniqueConstraints[i].columns, ", ") + ")");
      for i := 0 to |t.uniqueConstraints|
        invariant body == first + uniques[..i]
      {
        body := body + ["  UNIQUE (" + Join(t.uniqueConstraints[i].columns, ", ") + ")"];
      }
      ghost var keys := seq(|t.foreignKeys|, i requires 0 <= i < |t.foreignKeys| => KeyLine(t.foreignKeys[i], qualify));
      for i := 0 to |t.foreignKeys|
        invariant body == first + uniques + keys[..i]
      {
        body := body + [KeyLine(t.foreignKeys[i], qualify)];
      }
    }
  }

  // ---------------------------------------------------------------- what a reader of the DDL is left with

  function FromNewline(text: string): (r: string)
    ensures |r| <= |text|
  {
    if text == "" || text[0] == '\n' then text else FromNewline(text[1..])
  }

  predicate StartsComment(text: string)
  {
    |text| >= 3 && text[0] == ' ' && text[1] == '-' && text[2] == '-'
  }

  /** The text as SQL reads it: each line cut where its comment starts. */
  function WithoutComments(text: string): (r: string)
    decreases |text|
  {
    if text == "" then ""
    else if StartsComment(text) then WithoutComments(FromNewline(text))
    else [text[0]] + WithoutComments(text[1..])
  }

  /** Nothing in it reads as the start of a comment. */
  predicate Quiet(line: string)
  {
    forall i :: 0 <= i < |line| - 1 ==> !(line[i] == '-' && line[i + 1] == '-')
  }

  lemma {:induction false} QuietStays(line: string, rest: string)
    requires Quiet(line) && (rest == "" || rest[0] != '-')
    ensures WithoutComments(line + rest) == line + WithoutComments(rest)
  {
    if line == "" {
      assert line + rest == rest;
    } else {
      var text := line + rest;
      assert text[1..] == line[1..] + rest;
      assert !StartsComment(text) by {
        if |line| == 1 && |rest| >= 2 {
          assert text[1] == rest[0];
        } else if |line| == 2 && |rest| >= 1 {
          assert text[2] == rest[0];
        } else if |line| >= 3 {
          assert text[1] == line[1] && text[2] == line[2];
        }
      }
      QuietStays(line[1..], rest);
    }
  }

  lemma {:induction false} SkipsToTheBreak(comment: string, rest: string)
    requires '\n' !in comment && (rest == "" || rest[0] == '\n')
    ensures FromNewline(comment + rest) == rest
  {
    if comment == "" {
      assert comment + rest == rest;
    } else {
      assert (comment + rest)[1..] == comment[1..] + rest;
      SkipsToTheBreak(comment[1..], rest);
    }
  }

  lemma CommentGoes(comment: string, rest: string)
    requires '\n' !in comment && (rest == "" || rest[0] == '\n')
    ensures WithoutComments(" -- " + comment + rest) == WithoutComments(rest)
  {
    assert " -- " + comment + rest == (" -- " + comment) + rest;
    SkipsToTheBreak(" -- " + comment, rest);
  }

  function Comma(body: seq<string>, i: nat): (r: string)
  {
    if i < |body| - 1 then "," else ""
  }

  lemma LineLosesItsComment(columns: seq<Column>, body: seq<string>, opts: Options, i: nat, rest: string)
    requires i < |body| && Quiet(body[i]) && (rest == "" || rest[0] == '\n')
    requires '\n' !in Shown(columns, opts, i)
    ensures WithoutComments(Punctuated(columns, body, opts, i) + rest) == body[i] + Comma(body, i) + WithoutComments(rest)
  {
    var line, comment := body[i] + Comma(body, i), Shown(columns, opts, i);
    if comment == "" {
      assert Punctuated(columns, body, opts, i) + rest == line + rest;
      QuietStays(line, rest);
    } else {
      var tail := " -- " + comment + rest;
      assert Punctuated(columns, body, opts, i) + rest == line + tail;
      QuietStays(line, tail);
      CommentGoes(comment, rest);
    }
  }

  /** With every comment on one line, the body from line `i` on reads as its lines joined by commas. */
  lemma {:induction false} CommentsGo(columns: seq<Column>, body: seq<string>, opts: Options, i: nat)
    requires i < |body| && (forall line :: line in body ==> Quiet(line))
    requires forall k :: 0 <= k < |body| ==> '\n' !in Shown(columns, opts, k)
    ensures WithoutComments(Join(AllPunctuated(columns, body, opts)[i..], "\n")) == Join(body[i..], ",\n")
    decreases |body| - i
  {
    var lines := AllPunctuated(columns, body, opts);
    if i + 1 == |body| {
      LineLosesItsComment(columns, body, opts, i, "");
      assert lines[i] + "" == lines[i] && lines[i..] == [lines[i]] && body[i..] == [body[i]];
      assert body[i] + "" + "" == body[i];
    } else {
      var rest := Join(lines[i + 1..], "\n");
      CommentsGo(columns, body, opts, i + 1);
      assert lines[i..][1..] == lines[i + 1..] && body[i..][1..] == body[i + 1..];
      assert Join(lines[i..], "\n") == lines[i] + ("\n" + rest);
      LineLosesItsComment(columns, body, opts, i, "\n" + rest);
      assert WithoutComments("\n" + rest) == "\n" + WithoutComments(rest) by {
        assert ("\n" + rest)[1..] == rest;
      }
      assert body[i] + "," + ("\n" + WithoutComments(rest)) == body[i] + ",\n" + WithoutComments(rest);
    }
  }

  // Line breaks are what gives a broken comment away: cutting comments removes none.

  function Breaks(text: string): (r: nat)
  {
    if text == "" then 0 else (if text[0] == '\n' then 1 else 0) + Breaks(text[1..])
  }

  lemma {:induction false} BreaksAdd(a: string, b: string)
    ensures Breaks(a + b) == Breaks(a) + Breaks(b)
  {
    if a == "" {
      assert a + b == b;
    } else {
      assert (a + b)[1..] == a[1..] + b;
      BreaksAdd(a[1..], b);
    }
  }

  lemma {:induction false} NoBreaks(text: string)
    ensures Breaks(text) == 0 <==> '\n' !in text
  {
    if text != "" {
      NoBreaks(text[1..]);
      assert text == [text[0]] + text[1..];
    }
  }

  lemma {:induction false} SkippingKeepsBreaks(text: string)
    ensures Breaks(FromNewline(text)) == Breaks(text)
  {
    if text != "" && text[0] != '\n' {
      SkippingKeepsBreaks(text[1..]);
    }
  }

  lemma {:induction false} CuttingKeepsBreaks(text: string)
    ensures Breaks(WithoutComments(text)) == Breaks(text)
    decreases |text|
  {
    if text == "" {
    } else if StartsComment(text) {
      SkippingKeepsBreaks(text);
      CuttingKeepsBreaks(FromNewline(text));
    } else {
      CuttingKeepsBreaks(text[1..]);
      BreaksAdd([text[0]], WithoutComments(text[1..]));
    }
  }

  /** The line breaks of the comments shown from line `i` on. */
  function BreaksShown(columns: seq<Column>, body: seq<string>, opts: Options, i: nat): (r: nat)
    decreases |body| - i
  {
    if i >= |body| then 0 else Breaks(Shown(columns, opts, i)) + BreaksShown(columns, body, opts, i + 1)
  }

  lemma LineBreaks(columns: seq<Column>, body: seq<string>, opts: Options, i: nat)
    requires i < |body|
    ensures Breaks(Punctuated(columns, body, opts, i)) == Breaks(body[i]) + Breaks(Shown(columns, opts, i))
  {
    var comment := Shown(columns, opts, i);
    NoBreaks(Comma(body, i));
    NoBreaks(" -- ");
    BreaksAdd(body[i], Comma(body, i));
    BreaksAdd(" -- ", comment);
    BreaksAdd(body[i] + Comma(body, i), if comment == "" then "" else " -- " + comment);
  }

  lemma {:induction false} BodyBreaks(columns: seq<Column>, body: seq<string>, opts: Options, i: nat)
    requires i < |body|
    ensures Breaks(Join(AllPunctuated(columns, body, opts)[i..], "\n"))
         == Breaks(Join(body[i..], ",\n")) + BreaksShown(columns, body, opts, i)
    decreases |body| - i
  {
    var lines := AllPunctuated(columns, body, opts);
    LineBreaks(columns, body, opts, i);
    if i + 1 == |body| {
      assert lines[i..] == [lines[i]] && body[i..] == [body[i]];
    } else {
      BodyBreaks(columns, body, opts, i + 1);
      assert lines[i..][1..] == lines[i + 1..] && body[i..][1..] == body[i + 1..];
      var rest, plain := Join(lines[i + 1..], "\n"), Join(body[i + 1..], ",\n");
      NoBreaks(",");
      BreaksAdd(lines[i] + "\n", rest);
      BreaksAdd(lines[i], "\n");
      BreaksAdd(body[i] + ",\n", plain);
      BreaksAdd(body[i], ",\n");
      BreaksAdd(",", "\n");
    }
  }

  lemma {:induction false} NoBreaksShown(columns: seq<Column>, body: seq<string>, opts: Options, i: nat)
    ensures BreaksShown(columns, body, opts, i) == 0 <==> forall k :: i <= k < |body| ==> '\n' !in Shown(columns, opts, k)
    decreases |body| - i
  {
    if i < |body| {
      NoBreaks(Shown(columns, opts, i));
      NoBreaksShown(columns, body, opts, i + 1);
    }
  }

  /**
   * Cut at its comments, the body reads as its lines joined by commas (none trails, none
   * is missing, none is lost behind a comment) exactly when no comment that is shown has a
   * line break of its own. The lines hold nothing that reads as a comment.
   */
  lemma CommasSeparateTheBody(columns: seq<Column>, body: seq<string>, opts: Options)
    requires body != [] && forall line :: line in body ==> Quiet(line)
    ensures WithoutComments(Join(AllPunctuated(columns, body, opts), "\n")) == Join(body, ",\n") <==>
            forall k :: 0 <= k < |body| ==> '\n' !in Shown(columns, opts, k)
  {
    var text := Join(AllPunctuated(columns, body, opts), "\n");
    assert AllPunctuated(columns, body, opts)[0..] == AllPunctuated(columns, body, opts) && body[0..] == body;
    BodyBreaks(columns, body, opts, 0);
    CuttingKeepsBreaks(text);
    NoBreaksShown(columns, body, opts, 0);
    if forall k :: 0 <= k < |body| ==> '\n' !in Shown(columns, opts, k) {
      CommentsGo(columns, body, opts, 0);
    }
  }

  /** What such a comment does: its second line reads as part of the table. */
  lemma BrokenCommentsLeak(columns: seq<Column>)
    requires |columns| == 1 && columns[0].comment == Some("a\nb")
    ensures WithoutComments(Join(AllPunctuated(columns, ["x"], Options(true, true)), "\n")) == "x\nb"
  {
    var line := "x" + "" + (" -- " + "a\nb");
    assert AllPunctuated(columns, ["x"], Options(true, true)) == [line];
    assert line == "x" + (" -- " + "a" + "\nb");
    QuietStays("x", " -- " + "a" + "\nb");
    CommentGoes("a", "\nb");
    QuietStays("\nb", "");
    assert "\nb" + "" == "\nb";
  }

  function Named(names: seq<string>): Table -> bool
  {
    (t: Table) => t.name in names
  }

  function AsText(qualify: bool, opts: Options): Table -> string
  {
    (t: Table) => TableText(t, qualify, opts)
  }

  function Serialize(schema: DatabaseSchema, opts: Options, only: Option<seq<string>>): (r: string)
  {
    var tables := if only.Some? then Filter(schema.tables, Named(only.value)) else schema.tables;
    Join(Map(tables, AsText(|schema.schemas| > 1, opts)), "\n\n")
  }

  // ---------------------------------------------------------------- what the text says

  /** The column's name and type, and whether it may be null or has a default to mention. */
  predicate DeclaresColumn(line: string, c: Column, opts: Options)
  {
    var start, end := "  " + c.name + " " + c.dataType, if c.isNullable then "" else " NOT NULL";
    if opts.includeDefaults && c.defaultValue.Some? && c.defaultValue.value != ""
    then line == start + end + " DEFAULT " + c.defaultValue.value
    else line == start + end
  }

  function Qualified(schema: string, table: string, qualify: bool): (r: string)
  {
    if qualify then schema + "." + table else table
  }

  predicate DeclaresKey(line: string, k: ForeignKey, qualify: bool)
  {
    line == "  FOREIGN KEY (" + Join(k.columns, ", ") + ") REFERENCES "
            + Qualified(k.referencedSchema, k.referencedTable, qualify) + " (" + Join(k.referencedColumns, ", ") + ")"
  }

  /** One line a column, and on a table proper one each for its primary key, unique constraints and foreign keys. */
  ghost predicate Declares(body: seq<string>, t: Table, qualify: bool, opts: Options)
  {
    var n, proper := |t.columns|, t.kind.BaseTable?;
    var key := if proper && t.primaryKey != [] then 1 else 0;
    var uniques, keys := if proper then |t.uniqueConstraints| else 0, if proper then |t.foreignKeys| else 0;
    && |body| == n + key + uniques + keys
    && (forall i :: 0 <= i < n ==> DeclaresColumn(body[i], t.columns[i], opts))
    && (key == 1 ==> body[n] == "  PRIMARY KEY (" + Join(t.primaryKey, ", ") + ")")
    && (forall i :: 0 <= i < uniques ==> body[n + key + i] == "  UNIQUE (" + Join(t.uniqueConstraints[i].columns, ", ") + ")")
    && (forall i :: 0 <= i < keys ==> DeclaresKey(body[n + key + uniques + i], t.foreignKeys[i], qualify))
  }

  /** A line of the body as it is printed: a comma unless it is the last, and a comment, if there is one to show. */
  predicate PrintsAs(printed: string, line: string, last: bool, comment: Option<string>)
  {
    var separated := line + if last then "" else ",";
    printed == if comment.Some? && comment.value != "" then separated + " -- " + comment.value else separated
  }

  ghost predicate Punctuates(lines: seq<string>, body: seq<string>, columns: seq<Column>, opts: Options)
  {
    && |lines| == |body|
    && forall i :: 0 <= i < |body| ==>
         PrintsAs(lines[i], body[i], i == |body| - 1, if opts.includeComments && i < |columns| then columns[i].comment else None)
  }

  /** What opens the table: its comment, if there is one to show, what it is, and its name. */
  function Heading(t: Table, qualify: bool, opts: Options): (r: string)
  {
    (if opts.includeComments && t.comment.Some? && t.comment.value != "" then "-- " + t.comment.value + "\n" else "")
    + ("CREATE " + (if t.kind.BaseTable? then "TABLE " else "VIEW ") + Qualified(t.schema, t.name, qualify) + " (\n")
  }

  /** The table as a reader of the prompt finds it. */
  ghost predicate Describes(text: string, t: Table, qualify: bool, opts: Options)
  {
    exists body, lines ::
      && Declares(body, t, qualify, opts) && Punctuates(lines, body, t.columns, opts)
      && text == Heading(t, qualify, opts) + Join(lines, "\n") + "\n);"
  }

  lemma BodyDeclares(t: Table, qualify: bool, opts: Options)
    ensures Declares(ColumnLines(t.columns, opts) + ConstraintLines(t, qualify), t, qualify, opts)
  {
    var body := ColumnLines(t.columns, opts) + ConstraintLines(t, qualify);
    forall i | 0 <= i < |t.columns| ensures DeclaresColumn(body[i], t.columns[i], opts) {
      assert body[i] == ColumnLine(t.columns[i], opts);
    }
    if t.kind.BaseTable? {
      ConstraintsDeclare(t, qualify);
    }
  }

  lemma KeyIsDeclared(k: ForeignKey, qualify: bool)
    ensures DeclaresKey(KeyLine(k, qualify), k, qualify)
  {
    var first, last := "  FOREIGN KEY (" + Join(k.columns, ", "), Join(k.referencedColumns, ", ") + ")";
    var target := Qualified(k.referencedSchema, k.referencedTable, qualify);
    assert first + ")" + " REFERENCES " == first + ") REFERENCES ";
    assert KeyLine(k, qualify) == first + ")" + " REFERENCES " + target + " (" + last;
  }

  lemma ConstraintsDeclare(t: Table, qualify: bool)
    requires t.kind.BaseTable?
    ensures var lines, key := ConstraintLines(t, qualify), if t.primaryKey != [] then 1 else 0;
            && |lines| == key + |t.uniqueConstraints| + |t.foreignKeys|
            && (key == 1 ==> lines[0] == "  PRIMARY KEY (" + Join(t.primaryKey, ", ") + ")")
            && (forall i :: 0 <= i < |t.uniqueConstraints| ==>
                  lines[key + i] == "  UNIQUE (" + Join(t.uniqueConstraints[i].columns, ", ") + ")")
            && (forall i :: 0 <= i < |t.foreignKeys| ==>
                  DeclaresKey(lines[key + |t.uniqueConstraints| + i], t.foreignKeys[i], qualify))
  {
    var key := if t.primaryKey == [] then [] else ["  PRIMARY KEY (" + Join(t.primaryKey, ", ") + ")"];
    var uniques := seq(|t.uniqueConstraints|, i requires 0 <= i < |t.uniqueConstraints| =>
                         "  UNIQUE (" + Join(t.uniqueConstraints[i].columns, ", ") + ")");
    var keys := seq(|t.foreignKeys|, i requires 0 <= i < |t.foreignKeys| => KeyLine(t.foreignKeys[i], qualify));
    var lines := key + uniques + keys;
    assert ConstraintLines(t, qualify) == lines;
    forall i | 0 <= i < |t.foreignKeys| ensures DeclaresKey(lines[|key| + |t.uniqueConstraints| + i], t.foreignKeys[i], qualify) {
      KeyIsDeclared(t.foreignKeys[i], qualify);
      assert lines[|key| + |uniques| + i] == keys[i];
    }
  }

  lemma LineIsPunctuated(columns: seq<Column>, body: seq<string>, opts: Options, i: nat)
    requires i < |body|
    ensures PrintsAs(Punctuated(columns, body, opts, i), body[i], i == |body| - 1,
                     if opts.includeComments && i < |columns| then columns[i].comment else None)
  {
    var comment, separated := Shown(columns, opts, i), body[i] + Comma(body, i);
    if comment == "" {
      assert separated + "" == separated;
    } else {
      assert separated + (" -- " + comment) == separated + " -- " + comment;
    }
  }

  lemma LinesArePunctuated(columns: seq<Column>, body: seq<string>, opts: Options)
    ensures Punctuates(AllPunctuated(columns, body, opts), body, columns, opts)
  {
    forall i | 0 <= i < |body|
      ensures PrintsAs(AllPunctuated(columns, body, opts)[i], body[i], i == |body| - 1,
                       if opts.includeComments && i < |columns| then columns[i].comment else None)
    {
      LineIsPunctuated(columns, body, opts, i);
    }
  }

  lemma JoinFirst(first: string, rest: seq<string>, separator: string)
    requires rest != []
    ensures Join([first] + rest, separator) == first + separator + Join(rest, separator)
  {
    assert ([first] + rest)[1..] == rest;
  }

  lemma JoinThree(a: string, b: string, c: string, separator: string)
    ensures Join([a, b, c], separator) == a + separator + (b + separator + c)
  {
    JoinFirst(b, [c], separator);
    JoinFirst(a, [b, c], separator);
    assert [a] + [b, c] == [a, b, c] && [b] + [c] == [b, c];
  }

  lemma OpeningIsTheHeading(t: Table, qualify: bool, opts: Options)
    ensures Heading(t, qualify, opts)
         == (if opts.includeComments && Present(t.comment) then "-- " + t.comment.value + "\n" else "") + (Opening(t, qualify) + "\n")
  {
    assert Opening(t, qualify) + "\n"
        == "CREATE " + (if t.kind.BaseTable? then "TABLE " else "VIEW ") + Qualified(t.schema, t.name, qualify) + " (\n";
  }

  /** The lines around the body, joined, are what opens the table, the body, and its end. */
  lemma LinesAround(t: Table, qualify: bool, opts: Options, body: string)
    ensures var comment := if opts.includeComments && Present(t.comment) then ["-- " + t.comment.value] else [];
            Join(comment + [Opening(t, qualify), body, ");"], "\n") == Heading(t, qualify, opts) + body + "\n);"
  {
    var comment := if opts.includeComments && Present(t.comment) then ["-- " + t.comment.value] else [];
    var opening := Opening(t, qualify);
    var table := [opening, body, ");"];
    OpeningIsTheHeading(t, qualify, opts);
    JoinThree(opening, body, ");", "\n");
    if comment == [] {
      assert comment + table == table;
    } else {
      JoinFirst(comment[0], table, "\n");
    }
  }

  lemma TableTextDescribes(t: Table, qualify: bool, opts: Options)
    ensures Describes(TableText(t, qualify, opts), t, qualify, opts)
  {
    var body := ColumnLines(t.columns, opts) + ConstraintLines(t, qualify);
    var lines := AllPunctuated(t.columns, body, opts);
    BodyDeclares(t, qualify, opts);
    LinesArePunctuated(t.columns, body, opts);
    LinesAround(t, qualify, opts, Join(lines, "\n"));
    assert TableText(t, qualify, opts) == Heading(t, qualify, opts) + Join(lines, "\n") + "\n);";
  }

  /** The tables asked for are each found where they stand in the snapshot. */
  lemma AskedForStandsWhere(tables: seq<Table>, only: Option<seq<string>>) returns (positions: seq<nat>)
    ensures At(tables, if only.Some? then Filter(tables, Named(only.value)) else tables, positions)
    ensures forall i :: 0 <= i < |tables| ==> (i in positions <==> only.None? || tables[i].name in only.value)
  {
    if only.Some? {
      positions := FilterPositions(tables, Named(only.value));
      assert forall i :: 0 <= i < |tables| ==> (i in positions <==> Named(only.value)(tables[i]));
    } else {
      positions := seq(|tables|, i => i);
      forall i | 0 <= i < |tables| ensures i in positions {
        assert positions[i] == i;
      }
    }
  }

  /**
   * The prompt's schema says all there is to say: every table asked for, in order and a
   * blank line apart, names prefixed exactly when several schemas are in play, each with
   * every column and, unless it is a view, every constraint.
   */
  lemma PromptDescribesEveryTable(schema: DatabaseSchema, opts: Options, only: Option<seq<string>>)
    returns (positions: seq<nat>, texts: seq<string>)
    ensures Serialize(schema, opts, only) == Join(texts, "\n\n") && |texts| == |positions|
    ensures forall i, j :: 0 <= i < j < |positions| ==> positions[i] < positions[j]
    ensures forall i :: 0 <= i < |schema.tables| ==>
              (i in positions <==> only.None? || schema.tables[i].name in only.value)
    ensures forall k :: 0 <= k < |texts| ==>
              positions[k] < |schema.tables| && Describes(texts[k], schema.tables[positions[k]], |schema.schemas| > 1, opts)
  {
    var qualify := |schema.schemas| > 1;
    var tables := if only.Some? then Filter(schema.tables, Named(only.value)) else schema.tables;
    positions := AskedForStandsWhere(schema.tables, only);
    texts := Map(tables, AsText(qualify, opts));
    forall k | 0 <= k < |texts| ensures Describes(texts[k], tables[k], qualify, opts) {
      TableTextDescribes(tables[k], qualify, opts);
    }
  }

  // ---------------------------------------------------------------- edits nobody may notice

  /** A change to the database's metadata. */
  datatype Edit =
    | InsertTable(at: nat, table: Table)
    | RemoveTable(at: nat)
    | ReplaceTable(at: nat, table: Table)
    | InsertKey(at: nat, position: nat, key: ForeignKey)
    | RemoveKey(at: nat, position: nat)

  /** It touches only hidden tables, or only foreign keys pointing at one. */
  predicate TouchesOnlyHidden(tables: seq<Table>, e: Edit, rules: Rules)
  {
    match e
    case InsertTable(at, t) => at <= |tables| && !Visible(t.name, rules)
    case RemoveTable(at) => at < |tables| && !Visible(tables[at].name, rules)
    case ReplaceTable(at, t) => at < |tables| && !Visible(tables[at].name, rules) && !Visible(t.name, rules)
    case InsertKey(at, position, k) =>
      at < |tables| && position <= |tables[at].foreignKeys| && !Visible(k.referencedTable, rules)
    case RemoveKey(at, position) =>
      at < |tables| && position < |tables[at].foreignKeys| && !Visible(tables[at].foreignKeys[position].referencedTable, rules)
  }

  function Edited(tables: seq<Table>, e: Edit, rules: Rules): (r: seq<Table>)
    requires TouchesOnlyHidden(tables, e, rules)
  {
    match e
    case InsertTable(at, t) => tables[..at] + [t] + tables[at..]
    case RemoveTable(at) => tables[..at] + tables[at + 1..]
    case ReplaceTable(at, t) => tables[..at] + [t] + tables[at + 1..]
    case InsertKey(at, position, k) =>
      var keys := tables[at].foreignKeys;
      tables[..at] + [tables[at].(foreignKeys := keys[..position] + [k] + keys[position..])] + tables[at + 1..]
    case RemoveKey(at, position) =>
      var keys := tables[at].foreignKeys;
      tables[..at] + [tables[at].(foreignKeys := keys[..position] + keys[position + 1..])] + tables[at + 1..]
  }

  lemma NarrowConcat(a: seq<Table>, b: seq<Table>, rules: Rules)
    ensures Narrow(a + b, rules) == Narrow(a, rules) + Narrow(b, rules)
  {
    FilterConcat(a, b, TableVisible(rules));
  }

  lemma NarrowOne(t: Table, rules: Rules)
    ensures Narrow([t], rules) == if Visible(t.name, rules) then [WithoutDanglingKeys(t, rules)] else []
  {
    assert [t][..0] == [];
  }

  /** Replacing a stretch of tables by one that narrows to the same changes nothing that is visible. */
  lemma MiddleIsInvisible(a: seq<Table>, middle: seq<Table>, other: seq<Table>, b: seq<Table>, rules: Rules)
    requires Narrow(middle, rules) == Narrow(other, rules)
    ensures Narrow(a + middle + b, rules) == Narrow(a + other + b, rules)
  {
    NarrowConcat(a + middle, b, rules);
    NarrowConcat(a, middle, rules);
    NarrowConcat(a + other, b, rules);
    NarrowConcat(a, other, rules);
  }

  lemma HiddenKeysDoNotCount(t: Table, a: seq<ForeignKey>, k: ForeignKey, b: seq<ForeignKey>, rules: Rules)
    requires !Visible(k.referencedTable, rules)
    ensures WithoutDanglingKeys(t.(foreignKeys := a + [k] + b), rules) == WithoutDanglingKeys(t.(foreignKeys := a + b), rules)
  {
    var keep := TargetVisible(rules);
    TrimmedKeys(t.(foreignKeys := a + [k] + b), rules);
    TrimmedKeys(t.(foreignKeys := a + b), rules);
    FilterConcat(a + [k], b, keep);
    FilterPush(a, k, keep);
    FilterConcat(a, b, keep);
    assert Filter(a, keep) + [] == Filter(a, keep);
  }

  lemma KeyEditKeepsTheTable(t: Table, e: Edit, rules: Rules)
    requires (e.InsertKey? || e.RemoveKey?) && TouchesOnlyHidden([t], e, rules)
    ensures var u := Edited([t], e, rules)[0];
            u.name == t.name && WithoutDanglingKeys(u, rules) == WithoutDanglingKeys(t, rules)
  {
    var keys, p := t.foreignKeys, e.position;
    if e.InsertKey? {
      HiddenKeysDoNotCount(t, keys[..p], e.key, keys[p..], rules);
      assert keys[..p] + keys[p..] == keys;
    } else {
      HiddenKeysDoNotCount(t, keys[..p], keys[p], keys[p + 1..], rules);
      assert keys[..p] + [keys[p]] + keys[p + 1..] == keys;
    }
  }

  lemma HiddenTableIsInvisible(a: seq<Table>, t: Table, b: seq<Table>, rules: Rules)
    requires !Visible(t.name, rules)
    ensures Narrow(a + [t] + b, rules) == Narrow(a + b, rules)
  {
    NarrowOne(t, rules);
    MiddleIsInvisible(a, [t], [], b, rules);
    assert a + [] + b == a + b;
  }

  lemma ReplacementIsInvisible(tables: seq<Table>, at: nat, u: Table, rules: Rules)
    requires at < |tables| && Visible(u.name, rules) == Visible(tables[at].name, rules)
    requires Visible(u.name, rules) ==> WithoutDanglingKeys(u, rules) == WithoutDanglingKeys(tables[at], rules)
    ensures Narrow(tables[..at] + [u] + tables[at + 1..], rules) == Narrow(tables, rules)
  {
    assert Narrow([u], rules) == Narrow([tables[at]], rules) by {
      NarrowOne(u, rules);
      NarrowOne(tables[at], rules);
    }
    MiddleIsInvisible(tables[..at], [tables[at]], [u], tables[at + 1..], rules);
    assert tables[..at] + [tables[at]] + tables[at + 1..] == tables;
  }

  /** `own` is the edit `e` seen from the table it touches. */
  lemma KeyEditIsInvisible(tables: seq<Table>, e: Edit, own: Edit, rules: Rules)
    requires (e.InsertKey? || e.RemoveKey?) && TouchesOnlyHidden(tables, e, rules)
    requires own == e.(at := 0)
    ensures Narrow(Edited(tables, e, rules), rules) == Narrow(tables, rules)
  {
    var t := tables[e.at];
    var u := Edited([t], own, rules)[0];
    KeyEditKeepsTheTable(t, own, rules);
    ReplacementIsInvisible(tables, e.at, u, rules);
  }

  lemma EditIsInvisible(tables: seq<Table>, e: Edit, rules: Rules)
    requires TouchesOnlyHidden(tables, e, rules)
    ensures Narrow(Edited(tables, e, rules), rules) == Narrow(tables, rules)
  {
    match e {
      case InsertTable(at, t) =>
        HiddenTableIsInvisible(tables[..at], t, tables[at..], rules);
        assert tables[..at] + tables[at..] == tables;
      case RemoveTable(at) =>
        HiddenTableIsInvisible(tables[..at], tables[at], tables[at + 1..], rules);
        assert tables[..at] + [tables[at]] + tables[at + 1..] == tables;
      case ReplaceTable(at, t) =>
        ReplacementIsInvisible(tables, at, t, rules);
      case InsertKey(at, position, k) =>
        KeyEditIsInvisible(tables, e, InsertKey(0, position, k), rules);
      case RemoveKey(at, position) =>
        KeyEditIsInvisible(tables, e, RemoveKey(0, position), rules);
    }
  }

  ghost predicate AllHidden(tables: seq<Table>, edits: seq<Edit>, rules: Rules)
    decreases edits
  {
    edits == [] || (TouchesOnlyHidden(tables, edits[0], rules) && AllHidden(Edited(tables, edits[0], rules), edits[1..], rules))
  }

  ghost function AllEdited(tables: seq<Table>, edits: seq<Edit>, rules: Rules): (r: seq<Table>)
    requires AllHidden(tables, edits, rules)
    decreases edits
  {
    if edits == [] then tables else AllEdited(Edited(tables, edits[0], rules), edits[1..], rules)
  }

  lemma {:induction false} EditsAreInvisible(tables: seq<Table>, edits: seq<Edit>, rules: Rules)
    requires AllHidden(tables, edits, rules)
    ensures Narrow(AllEdited(tables, edits, rules), rules) == Narrow(tables, rules)
    decreases edits
  {
    if edits != [] {
      EditIsInvisible(tables, edits[0], rules);
      EditsAreInvisible(Edited(tables, edits[0], rules), edits[1..], rules);
    }
  }

  /**
   * No sequence of insertions, removals and changes of hidden tables, and of foreign keys
   * pointing at one, changes a character of the DDL.
   */
  lemma HiddenTablesDoNotReachThePrompt(schema: DatabaseSchema, edits: seq<Edit>, rules: Rules, opts: Options, only: Option<seq<string>>)
    requires AllHidden(schema.tables, edits, rules)
    ensures Serialize(ApplyVisibility(schema.(tables := AllEdited(schema.tables, edits, rules)), rules), opts, only)
         == Serialize(ApplyVisibility(schema, rules), opts, only)
  {
    EditsAreInvisible(schema.tables, edits, rules);
    AlwaysNarrowed(schema, rules);
    AlwaysNarrowed(schema.(tables := AllEdited(schema.tables, edits, rules)), rules);
  }
}
