/**
 * The relevant-numbers spreadsheet as the stages see it: the rows of the first
 * worksheet's range, header row first. A row gives, per column, the text of the
 * cell's value (`cell.v.toString()`), or None when the cell is missing or its
 * value is falsy.
 */
module Sheet {
  import opened Wrappers

  type Row = seq<Option<string>>
  type Sheet = seq<Row>

  const ColA: nat := 0   // trader system invoice number
  const ColB: nat := 1   // relevant number
  const ColC: nat := 2   // device number
  const ColF: nat := 5   // buyer PIN
  const ColG: nat := 6   // buyer name

  /** `cell && cell.v ? cell.v.toString() : undefined`. */
  function Cell(row: Row, col: nat): (c: Option<string>)
    ensures c.Some? ==> c.value != ""
  {
    if col < |row| && row[col].Some? && row[col].value != "" then row[col] else None
  }

  /** The rows `range.s.r + 1 .. range.e.r`: everything after the header row. */
  function DataRows(sheet: Sheet): seq<Row> {
    if sheet == [] then [] else sheet[1..]
  }

  /** The texts of the cells in column `col` that are present and truthy, in row order. */
  function NonEmptyCells(rows: seq<Row>, col: nat): (texts: seq<string>)
    ensures |texts| <= |rows|
    ensures forall x :: x in texts <==> exists i :: 0 <= i < |rows| && Cell(rows[i], col) == Some(x)
    // when every row has the cell, one text per row, in row order
    ensures (forall i :: 0 <= i < |rows| ==> Cell(rows[i], col).Some?) ==>
              |texts| == |rows| && forall i :: 0 <= i < |rows| ==> Some(texts[i]) == Cell(rows[i], col)
    decreases |rows|
  {
    if rows == [] then []
    else
      var last := rows[|rows| - 1];
      NonEmptyCells(rows[..|rows| - 1], col) + (if Cell(last, col).Some? then [Cell(last, col).value] else [])
  }

  /** The texts keep the row order: collecting distributes over concatenation of rows. */
  lemma {:induction false} NonEmptyCellsConcat(a: seq<Row>, b: seq<Row>, col: nat)
    ensures NonEmptyCells(a + b, col) == NonEmptyCells(a, col) + NonEmptyCells(b, col)
    decreases |b|
  {
    if b != [] {
      var n := |b| - 1;
      NonEmptyCellsConcat(a, b[..n], col);
      assert (a + b)[..|a + b| - 1] == a + b[..n];
    } else {
      assert a + b == a;
    }
  }
}
