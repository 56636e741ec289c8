/** A result set as a fixed-width table. */
module ResultTable {
  import opened Sequences
  import opened ResultTypes

  const MAX_CELL_WIDTH: nat := 40
  const ELLIPSIS := "\U{2026}"
  const GAP := "  "

  function Render(value: Value): (r: string)
    ensures !value.DateValue? ==> |r| <= MAX_CELL_WIDTH
  {
    match value
    case NullValue => "NULL"
    case DateValue(iso) => iso
    case TextValue(text) => if |text| > MAX_CELL_WIDTH then text[..MAX_CELL_WIDTH - 1] + ELLIPSIS else text
  }

  function RenderRow(row: DbRow, columns: seq<string>): (r: seq<string>)
    ensures |r| == |columns|
  {
    seq(|columns|, k requires 0 <= k < |columns| => Render(CellAt(row, columns[k])))
  }

  function Cells(result: QueryResult): (r: seq<seq<string>>)
    ensures |r| == |result.rows|
    ensures forall i :: 0 <= i < |r| ==> |r[i]| == |result.columns|
  {
    seq(|result.rows|, i requires 0 <= i < |result.rows| => RenderRow(result.rows[i], result.columns))
  }

  function Longest(cells: seq<seq<string>>, k: nat, header: nat): (r: nat)
    requires forall i :: 0 <= i < |cells| ==> k < |cells[i]|
  {
    if cells == [] then header
    else
      var rest := Longest(cells[..|cells| - 1], k, header);
      if |cells[|cells| - 1][k]| > rest then |cells[|cells| - 1][k]| else rest
  }

  function Widths(result: QueryResult): (r: seq<nat>)
    ensures |r| == |result.columns|
  {
    seq(|result.columns|, k requires 0 <= k < |result.columns| => Longest(Cells(result), k, |result.columns[k]|))
  }

  function Repeat(c: char, n: nat): (r: string)
    ensures |r| == n
  {
    seq(n, _ => c)
  }

  function PadEnd(text: string, width: nat): (r: string)
  {
    if |text| >= width then text else text + Repeat(' ', width - |text|)
  }

  function Padded(values: seq<string>, widths: seq<nat>): (r: seq<string>)
    requires |values| == |widths|
    ensures |r| == |values|
  {
    seq(|values|, k requires 0 <= k < |values| => PadEnd(values[k], widths[k]))
  }

  function Line(values: seq<string>, widths: seq<nat>): (r: string)
    requires |values| == |widths|
  {
    Join(Padded(values, widths), GAP)
  }

  function Dashes(widths: seq<nat>): (r: seq<string>)
    ensures |r| == |widths|
  {
    seq(|widths|, k requires 0 <= k < |widths| => Repeat('-', widths[k]))
  }

  function RowLines(cells: seq<seq<string>>, widths: seq<nat>): (r: seq<string>)
    requires forall i :: 0 <= i < |cells| ==> |cells[i]| == |widths|
    ensures |r| == |cells|
  {
    seq(|cells|, i requires 0 <= i < |cells| => Line(cells[i], widths))
  }

  /** Header, rule, one line a row; and a remark when there are none. */
  function TableLines(result: QueryResult): (r: seq<string>)
  {
    if result.columns == [] then ["(no columns)"]
    else
      var widths := Widths(result);
      [Line(result.columns, widths), Join(Dashes(widths), GAP)]
      + RowLines(Cells(result), widths)
      + if result.rows == [] then ["(no rows)"] else []
  }

  function ToTable(result: QueryResult): (r: string)
    ensures result.columns == [] ==> r == "(no columns)"
  {
    Join(TableLines(result), "\n")
  }

  // ---------------------------------------------------------------- widths

  lemma {:induction false} LongestIsLeast(cells: seq<seq<string>>, k: nat, header: nat)
    requires forall i :: 0 <= i < |cells| ==> k < |cells[i]|
    ensures header <= Longest(cells, k, header)
    ensures forall i :: 0 <= i < |cells| ==> |cells[i][k]| <= Longest(cells, k, header)
    ensures Longest(cells, k, header) == header || exists i :: 0 <= i < |cells| && |cells[i][k]| == Longest(cells, k, header)
  {
    if cells != [] {
      var front := cells[..|cells| - 1];
      LongestIsLeast(front, k, header);
      assert forall i :: 0 <= i < |front| ==> front[i] == cells[i];
      if i :| 0 <= i < |front| && |front[i][k]| == Longest(front, k, header) {
        assert |cells[i][k]| == Longest(front, k, header);
      }
    }
  }

  /** Each width fits its header and every cell below it, and is that of one of them. */
  lemma WidthsAreLeast(result: QueryResult, k: nat)
    requires k < |result.columns|
    ensures var w := Widths(result)[k];
            && |result.columns[k]| <= w
            && (forall i :: 0 <= i < |result.rows| ==> |Cells(result)[i][k]| <= w)
            && (w == |result.columns[k]| || exists i :: 0 <= i < |result.rows| && |Cells(result)[i][k]| == w)
  {
    LongestIsLeast(Cells(result), k, |result.columns[k]|);
  }

  // ---------------------------------------------------------------- layout

  /** Where column `k` starts: the widths before it and a two-character gap after each. */
  function Offset(widths: seq<nat>, k: nat): (r: nat)
    requires k <= |widths|
  {
    if k == 0 then 0 else widths[0] + 2 + Offset(widths[1..], k - 1)
  }

  /** The widths together, plus two characters per gap. */
  function LineLength(widths: seq<nat>): (r: nat)
  {
    if widths == [] then 0
    else if |widths| == 1 then widths[0]
    else widths[0] + 2 + LineLength(widths[1..])
  }

  /** A line on which piece `k` sits alone at column `k`'s offset, and nothing follows the last. */
  ghost predicate LaidOut(line: string, pieces: seq<string>, widths: seq<nat>)
  {
    && |pieces| == |widths| && |line| == LineLength(widths)
    && forall k :: 0 <= k < |widths| ==>
         && Offset(widths, k) + widths[k] <= |line|
         && line[Offset(widths, k)..Offset(widths, k) + widths[k]] == pieces[k]
  }

  lemma {:induction false} JoinLaysOut(pieces: seq<string>, widths: seq<nat>)
    requires |pieces| == |widths| && forall k :: 0 <= k < |pieces| ==> |pieces[k]| == widths[k]
    ensures LaidOut(Join(pieces, GAP), pieces, widths)
  {
    if |pieces| > 1 {
      JoinLaysOut(pieces[1..], widths[1..]);
      var rest, line := Join(pieces[1..], GAP), Join(pieces, GAP);
      assert line == pieces[0] + GAP + rest;
      forall k | 0 <= k < |widths|
        ensures Offset(widths, k) + widths[k] <= |line|
        ensures line[Offset(widths, k)..Offset(widths, k) + widths[k]] == pieces[k]
      {
        if k > 0 {
          var o := Offset(widths[1..], k - 1);
          assert Offset(widths, k) == widths[0] + 2 + o;
          assert rest[o..o + widths[k]] == pieces[1..][k - 1];
          assert line[widths[0] + 2..] == rest;
          assert line[widths[0] + 2..][o..o + widths[k]] == line[widths[0] + 2 + o..widths[0] + 2 + o + widths[k]];
        }
      }
    }
  }

  lemma PaddedFits(values: seq<string>, widths: seq<nat>)
    requires |values| == |widths| && forall k :: 0 <= k < |values| ==> |values[k]| <= widths[k]
    ensures LaidOut(Line(values, widths), Padded(values, widths), widths)
  {
    JoinLaysOut(Padded(values, widths), widths);
  }

  /** The value stands whole at its column's offset, with blanks up to the next column's. */
  ghost predicate FilledAt(line: string, value: string, widths: seq<nat>, k: nat)
    requires k < |widths|
  {
    var at, end := Offset(widths, k), Offset(widths, k) + widths[k];
    && at + |value| <= end <= |line| && line[at..at + |value|] == value
    && (forall j :: at + |value| <= j < end ==> line[j] == ' ')
    && GapAfter(line, widths, k)
  }

  ghost predicate GapAfter(line: string, widths: seq<nat>, k: nat)
    requires k < |widths|
  {
    var end := Offset(widths, k) + widths[k];
    k + 1 < |widths| ==> end + 2 <= |line| && line[end] == ' ' && line[end + 1] == ' '
  }

  ghost predicate Filled(line: string, values: seq<string>, widths: seq<nat>)
  {
    && |values| == |widths| && |line| == LineLength(widths)
    && forall k :: 0 <= k < |widths| ==> FilledAt(line, values[k], widths, k)
  }

  /** Dashes under each column, and blanks between them. */
  ghost predicate Ruled(line: string, widths: seq<nat>)
  {
    && |line| == LineLength(widths)
    && forall k :: 0 <= k < |widths| ==>
         var at, end := Offset(widths, k), Offset(widths, k) + widths[k];
         end <= |line| && (forall j :: at <= j < end ==> line[j] == '-') && GapAfter(line, widths, k)
  }

  lemma {:induction false} GapsAreBlank(pieces: seq<string>, widths: seq<nat>, k: nat)
    requires |pieces| == |widths| && k < |pieces| && forall i :: 0 <= i < |pieces| ==> |pieces[i]| == widths[i]
    ensures GapAfter(Join(pieces, GAP), widths, k)
  {
    if k + 1 < |pieces| {
      var rest := Join(pieces[1..], GAP);
      assert Join(pieces, GAP) == pieces[0] + GAP + rest;
      if k > 0 {
        GapsAreBlank(pieces[1..], widths[1..], k - 1);
      }
    }
  }

  lemma PaddedIsFilled(line: string, value: string, at: nat, end: nat)
    requires at + |value| <= end <= |line| && line[at..end] == PadEnd(value, end - at)
    ensures line[at..at + |value|] == value && forall j :: at + |value| <= j < end ==> line[j] == ' '
  {
    var piece := line[at..end];
    assert line[at..at + |value|] == piece[..|value|];
    forall j | at + |value| <= j < end ensures line[j] == ' ' {
      assert line[j] == piece[j - at];
    }
  }

  lemma LineIsFilled(values: seq<string>, widths: seq<nat>)
    requires |values| == |widths| && forall k :: 0 <= k < |values| ==> |values[k]| <= widths[k]
    ensures Filled(Line(values, widths), values, widths)
  {
    var line, pieces := Line(values, widths), Padded(values, widths);
    PaddedFits(values, widths);
    forall k | 0 <= k < |widths| ensures FilledAt(line, values[k], widths, k) {
      GapsAreBlank(pieces, widths, k);
      assert line[Offset(widths, k)..Offset(widths, k) + widths[k]] == pieces[k];
      PaddedIsFilled(line, values[k], Offset(widths, k), Offset(widths, k) + widths[k]);
    }
  }

  lemma RuleIsRuled(widths: seq<nat>)
    ensures Ruled(Join(Dashes(widths), GAP), widths)
  {
    var line := Join(Dashes(widths), GAP);
    JoinLaysOut(Dashes(widths), widths);
    forall k | 0 <= k < |widths|
      ensures var at, end := Offset(widths, k), Offset(widths, k) + widths[k];
              end <= |line| && (forall j :: at <= j < end ==> line[j] == '-') && GapAfter(line, widths, k)
    {
      var at, end := Offset(widths, k), Offset(widths, k) + widths[k];
      assert forall j :: at <= j < end ==> line[j] == line[at..end][j - at];
      GapsAreBlank(Dashes(widths), widths, k);
    }
  }

  /** What stands on line `i`: the header, the rule, or a row. */
  ghost predicate Prints(line: string, result: QueryResult, i: nat)
    requires i < 2 + |result.rows|
  {
    if i == 0 then Filled(line, result.columns, Widths(result))
    else if i == 1 then Ruled(line, Widths(result))
    else Filled(line, Cells(result)[i - 2], Widths(result))
  }

  lemma LineIsPrinted(result: QueryResult, i: nat)
    requires result.columns != [] && i < 2 + |result.rows|
    ensures i < |TableLines(result)| && |TableLines(result)[i]| == LineLength(Widths(result))
    ensures Prints(TableLines(result)[i], result, i)
  {
    var widths := Widths(result);
    forall k | 0 <= k < |result.columns|
      ensures |result.columns[k]| <= widths[k]
      ensures i >= 2 ==> |Cells(result)[i - 2][k]| <= widths[k]
    {
      WidthsAreLeast(result, k);
    }
    if i == 0 {
      LineIsFilled(result.columns, widths);
    } else if i == 1 {
      RuleIsRuled(widths);
    } else {
      LineIsFilled(Cells(result)[i - 2], widths);
      assert TableLines(result)[i] == RowLines(Cells(result), widths)[i - 2];
    }
  }

  /**
   * The table is rectangular: header, rule and every row have the same length, and column
   * `k` occupies the same stretch of each, filled with the whole header, dashes or the whole
   * cell. A result without rows says so on a line of its own.
   */
  lemma TableIsRectangular(result: QueryResult)
    requires result.columns != []
    ensures var lines := TableLines(result);
            && |lines| == 2 + |result.rows| + (if result.rows == [] then 1 else 0)
            && (forall i :: 0 <= i < 2 + |result.rows| ==>
                  |lines[i]| == LineLength(Widths(result)) && Prints(lines[i], result, i))
            && (result.rows == [] ==> lines[2] == "(no rows)")
  {
    forall i | 0 <= i < 2 + |result.rows|
      ensures |TableLines(result)[i]| == LineLength(Widths(result)) && Prints(TableLines(result)[i], result, i)
    {
      LineIsPrinted(result, i);
    }
  }

  // ---------------------------------------------------------------- cells

  /** How a reader recognises the value: nothing is left out but the end of a long text, and that is marked. */
  predicate Shows(cell: string, value: Value)
  {
    match value
    case NullValue => cell == "NULL"
    case DateValue(iso) => cell == iso
    case TextValue(text) =>
      if |text| <= 40 then cell == text
      else |cell| == 40 && cell[39] == '\U{2026}' && forall i :: 0 <= i < 39 ==> cell[i] == text[i]
  }

  /** The row's value for the column, and null where it has none. */
  ghost predicate IsAt(value: Value, row: DbRow, column: string)
  {
    && ((forall j :: 0 <= j < |row| ==> row[j].column != column) ==> value == NullValue)
    && forall j :: 0 <= j < |row| && row[j].column == column && (forall i :: 0 <= i < j ==> row[i].column != column) ==>
         value == row[j].value
  }

  lemma {:induction false} CellAtFinds(row: DbRow, column: string)
    ensures IsAt(CellAt(row, column), row, column)
  {
    if row != [] && row[0].column != column {
      var rest := row[1..];
      CellAtFinds(rest, column);
      assert forall j :: 1 <= j < |row| ==> row[j] == rest[j - 1];
      forall j | 0 <= j < |row| && row[j].column == column && (forall i :: 0 <= i < j ==> row[i].column != column)
        ensures CellAt(row, column) == row[j].value
      {
        assert rest[j - 1].column == column && forall i :: 0 <= i < j - 1 ==> rest[i].column != column;
      }
    }
  }

  /** Each cell of the table shows its row's value for its column. */
  lemma CellsShowTheValues(result: QueryResult, i: nat, k: nat) returns (value: Value)
    requires i < |result.rows| && k < |result.columns|
    ensures IsAt(value, result.rows[i], result.columns[k]) && Shows(Cells(result)[i][k], value)
  {
    value := CellAt(result.rows[i], result.columns[k]);
    CellAtFinds(result.rows[i], result.columns[k]);
    assert Cells(result)[i] == RenderRow(result.rows[i], result.columns);
  }

  // ---------------------------------------------------------------- the printed text

  /** Where line `i` of the text starts, when each line before it is `length` long and ends in a break. */
  function LineStart(length: nat, i: nat): (r: nat)
  {
    if i == 0 then 0 else length + 1 + LineStart(length, i - 1)
  }

  lemma {:induction false} JoinedLineAt(lines: seq<string>, length: nat, i: nat)
    requires i < |lines| && forall k :: 0 <= k <= i ==> |lines[k]| == length
    ensures var text, at := Join(lines, "\n"), LineStart(length, i);
            at + length <= |text| && text[at..at + length] == lines[i] && (i > 0 ==> text[at - 1] == '\n')
  {
    if |lines| > 1 && i > 0 {
      JoinedLineAt(lines[1..], length, i - 1);
      var text, rest, at := Join(lines, "\n"), Join(lines[1..], "\n"), LineStart(length, i - 1);
      assert text == lines[0] + "\n" + rest;
      assert text[length + 1..] == rest && text[length] == '\n';
      assert rest[at..at + length] == text[length + 1 + at..length + 1 + at + length];
      assert at > 0 ==> rest[at - 1] == text[length + 1 + at - 1];
    } else if |lines| > 1 {
      assert Join(lines, "\n")[..length] == lines[0];
    }
  }

  /**
   * In the printed text, too, the columns stand above each other: header, rule and row `i`
   * start at even distances, and column `k` occupies the same stretch of each.
   */
  lemma PrintedColumnsAlign(result: QueryResult, i: nat)
    requires result.columns != [] && i < 2 + |result.rows|
    ensures var text, length := ToTable(result), LineLength(Widths(result));
            var at := LineStart(length, i);
            && at + length <= |text| && (i > 0 ==> text[at - 1] == '\n')
            && Prints(text[at..at + length], result, i)
  {
    var lines, length := TableLines(result), LineLength(Widths(result));
    forall k | 0 <= k <= i ensures |lines[k]| == length {
      LineIsPrinted(result, k);
    }
    LineIsPrinted(result, i);
    JoinedLineAt(lines, length, i);
  }
}
