/** In-memory tables: named columns and rows whose cells are tagged values. */
module Tables {

  /** A cell as the loading library infers it; `Missing` is pandas' NaN. */
  datatype Cell = Missing | Integer(i: int) | Float(x: real) | Text(s: string) | Boolean(b: bool)

  /** A row maps each column name of its table to a cell. */
  type Row = map<string, Cell>

  datatype Table = Table(columns: seq<string>, rows: seq<Row>)

  function ColumnSet(columns: seq<string>): set<string>
  {
    set c | c in columns
  }

  predicate Distinct(columns: seq<string>)
  {
    forall i, j :: 0 <= i < j < |columns| ==> columns[i] != columns[j]
  }

  /** Column names are unique and every row has exactly the table's columns. */
  predicate WellFormed(t: Table)
  {
    Distinct(t.columns) && forall k :: 0 <= k < |t.rows| ==> t.rows[k].Keys == ColumnSet(t.columns)
  }
}
