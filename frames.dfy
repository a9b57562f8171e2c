/**
 * A pandas DataFrame as read from a CSV file: an ordered list of column names and
 * one record per row. A cell is either missing (NaN) or the text that was read;
 * a row that does not mention a column has a missing cell there.
 */
module Frames {

  datatype Cell = Null | Text(text: string)

  type Row = map<string, Cell>

  datatype Frame = Frame(columns: seq<string>, rows: seq<Row>)

  /** `row[column]`, with a missing cell for a column the row does not mention. */
  function CellAt(row: Row, column: string): Cell {
    if column in row then row[column] else Null
  }
}
