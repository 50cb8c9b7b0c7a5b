/** Values that cross the boundary between the database reader and SQLite.
    SQLite itself is not modelled: a query result is an input value. */
module Common {

  /** A C `double` read from a result column. Its IEEE-754 bit pattern is
      carried unchanged and never interpreted; the pattern 0 is 0.0. */
  type Double = bv64

  const Zero: Double := 0

  datatype Option<+T> = None | Some(value: T)

  /** One column value as `sqlite3_exec` hands it to a row callback
      (`argv[i]`): either NULL or text. */
  datatype Cell = Null | Text(s: string)

  /** The whole outcome of `sqlite3_exec` on a SELECT before any callback
      runs: the statement fails (no such table, ...) or it yields rows. */
  datatype Query = QueryFailed | QueryRows(rows: seq<seq<Cell>>)

  /** How a stream read with `sqlite3_step` ends after its last row. */
  datatype StepEnd = StepDone | StepOk | StepError

  /** The C `int` return codes of the reader functions. */
  const ReaderOk: int := 0
  const ReaderNoDb: int := 1
  const ReaderSqlError: int := 2
}
