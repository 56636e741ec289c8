/** Rows as the driver returns them, and the result shape handed to callers. */
module ResultTypes {
  /** A cell: null, a date with its ISO text, or anything else with the text it renders to. */
  datatype Value = NullValue | DateValue(iso: string) | TextValue(text: string)

  datatype Cell = Cell(column: string, value: Value)

  /** A record with its properties in order. */
  type DbRow = seq<Cell>

  datatype QueryResult = QueryResult(
    columns: seq<string>, rows: seq<DbRow>, rowCount: nat, truncated: bool, durationMs: nat)

  function ColumnNames(row: DbRow): (r: seq<string>)
    ensures |r| == |row|
    ensures forall i :: 0 <= i < |row| ==> r[i] == row[i].column
  {
    seq(|row|, i requires 0 <= i < |row| => row[i].column)
  }

  function CellAt(row: DbRow, column: string): (r: Value)
  {
    if row == [] then NullValue
    else if row[0].column == column then row[0].value
    else CellAt(row[1..], column)
  }
}
