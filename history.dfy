/**
 * The calculation history: an ordered table of rows `(operation, a, b, result)`,
 * with snapshots for undo/redo and a CSV form for saving and loading.
 * The DataFrame becomes a sequence of rows; the CSV text itself is not modelled:
 * a file is what the CSV reader hands over, a header and the text of each cell.
 */
module History {
  import opened Wrappers
  import opened Errors
  import opened Arithmetic
  import opened Models
  import opened Numbers
  import Text

  /** One history row; `result` is the value stored, never recomputed. */
  datatype Row = Row(operation: string, a: real, b: real, result: real)

  /** `HistorySnapshot`: a frozen copy of the rows (a value, so later changes cannot reach it). */
  datatype HistorySnapshot = HistorySnapshot(rows: seq<Row>)

  /** A CSV file as the reader returns it: the header names and the text of every cell, record by record. */
  datatype Table = Table(columns: seq<string>, records: seq<seq<string>>)
  {
    /** Every record has one cell per column, as a DataFrame does. */
    predicate Rectangular()
    {
      forall i :: 0 <= i < |records| ==> |records[i]| == |columns|
    }
  }

  /** What lies at the history path: nothing, a file the CSV reader rejects, or a table. */
  datatype StoredFile = Missing | Unreadable | Present(table: Table)

  /** `REQUIRED_COLUMNS`, in canonical order. */
  const RequiredColumns: seq<string> := ["operation", "a", "b", "result"]

  /** The single line listed for an empty history. */
  const NoHistory: string := "(no history)"

  /** The row `add` records for a calculation whose result is `result`. */
  function RowOf(calculation: Calculation, result: real): Row
  {
    Row(calculation.operation.Name(), calculation.a, calculation.b, result)
  }

  /** The listing line of one row. */
  function FormatRow(row: Row, show: Renderer): string
  {
    FormatLine(row.operation, show(row.a), show(row.b), show(row.result))
  }

  /** The lines for the rows, built as the listing loop builds them: one per row, appended in order. */
  function RenderedRows(rows: seq<Row>, show: Renderer): (lines: seq<string>)
    ensures |lines| == |rows|
    ensures forall i :: 0 <= i < |rows| ==> lines[i] == FormatRow(rows[i], show)
  {
    if rows == [] then []
    else RenderedRows(rows[..|rows| - 1], show) + [FormatRow(rows[|rows| - 1], show)]
  }

  /** Every row's line contains " = ", which the empty-history sentinel does not. */
  lemma RowLineIsNotSentinel(row: Row, show: Renderer)
    ensures FormatRow(row, show) != NoHistory
  {
    var line := FormatRow(row, show);
    var k := |row.operation| + |show(row.a)| + |show(row.b)| + 3;
    assert line[k] == '=';
    assert forall j :: 0 <= j < |NoHistory| ==> NoHistory[j] != '=';
  }

  /**
   * `format_lines()` as a value: never empty; exactly the sentinel when there
   * are no rows; otherwise one line per row, in row order.
   */
  function Listing(rows: seq<Row>, show: Renderer): (lines: seq<string>)
    ensures lines != []
    ensures lines == [NoHistory] <==> rows == []
    ensures rows != [] ==> |lines| == |rows|
    ensures rows != [] ==> forall i :: 0 <= i < |rows| ==> lines[i] == FormatRow(rows[i], show)
  {
    if rows == [] then [NoHistory]
    else
      RowLineIsNotSentinel(rows[0], show);
      RenderedRows(rows, show)
  }

  /** The required columns absent from a header, in canonical order (the `missing` list). */
  function MissingFrom(required: seq<string>, columns: seq<string>): (m: seq<string>)
    ensures forall c :: c in m <==> c in required && c !in columns
  {
    if required == [] then []
    else (if required[0] in columns then [] else [required[0]]) + MissingFrom(required[1..], columns)
  }

  /** The position of the first column with this name: the one a column label selects. */
  function ColumnIndex(columns: seq<string>, name: string): (j: nat)
    requires name in columns
    ensures j < |columns| && columns[j] == name && name !in columns[..j]
  {
    if columns[0] == name then 0 else 1 + ColumnIndex(columns[1..], name)
  }

  /** The text of cell `j` of a record; a short record reads as an empty cell. */
  function Cell(record: seq<string>, j: nat): string
  {
    if j < |record| then record[j] else ""
  }

  /** Numeric coercion of one column: all cells parse, or the whole column is rejected. */
  function ParseColumn(records: seq<seq<string>>, j: nat, parse: Parser): (r: Option<seq<real>>)
    ensures r.Some? <==> forall i :: 0 <= i < |records| ==> parse(Cell(records[i], j)).Some?
    ensures r.Some? ==> |r.value| == |records|
    ensures r.Some? ==> forall i :: 0 <= i < |records| ==> parse(Cell(records[i], j)) == Some(r.value[i])
  {
    if records == [] then Some([])
    else
      match parse(Cell(records[0], j))
      case None => None
      case Some(x) =>
        match ParseColumn(records[1..], j, parse)
        case None => None
        case Some(xs) => Some([x] + xs)
  }

  /** The header names every required column. */
  predicate HasRequiredColumns(columns: seq<string>)
  {
    "operation" in columns && "a" in columns && "b" in columns && "result" in columns
  }

  /** Every cell of column `j` is a number. */
  predicate NumericColumn(records: seq<seq<string>>, j: nat, parse: Parser)
  {
    forall i :: 0 <= i < |records| ==> parse(Cell(records[i], j)).Some?
  }

  /** Coercion of the three numeric columns, in the order `a`, `b`, `result`, and assembly of the rows. */
  function DecodeColumns(records: seq<seq<string>>, op: nat, ia: nat, ib: nat, ir: nat, parse: Parser): (r: Result<seq<Row>, Error>)
    ensures r.Ok? <==> NumericColumn(records, ia, parse) && NumericColumn(records, ib, parse) && NumericColumn(records, ir, parse)
    ensures !NumericColumn(records, ia, parse) ==> r == Err(NonNumericColumn("a"))
    ensures NumericColumn(records, ia, parse) && !NumericColumn(records, ib, parse) ==> r == Err(NonNumericColumn("b"))
    ensures NumericColumn(records, ia, parse) && NumericColumn(records, ib, parse) && !NumericColumn(records, ir, parse) ==>
      r == Err(NonNumericColumn("result"))
    ensures r.Ok? ==> |r.value| == |records|
    ensures r.Ok? ==> forall i :: 0 <= i < |records| ==>
      && r.value[i].operation == Cell(records[i], op)
      && parse(Cell(records[i], ia)) == Some(r.value[i].a)
      && parse(Cell(records[i], ib)) == Some(r.value[i].b)
      && parse(Cell(records[i], ir)) == Some(r.value[i].result)
  {
    match ParseColumn(records, ia, parse)
    case None => Err(NonNumericColumn("a"))
    case Some(xs) =>
      match ParseColumn(records, ib, parse)
      case None => Err(NonNumericColumn("b"))
      case Some(ys) =>
        match ParseColumn(records, ir, parse)
        case None => Err(NonNumericColumn("result"))
        case Some(zs) =>
          Ok(seq(|records|, i requires 0 <= i < |records| => Row(Cell(records[i], op), xs[i], ys[i], zs[i])))
  }

  /**
   * `load` once the file is read: every required column must be present; the
   * four are taken in canonical order and the others dropped; `a`, `b` and
   * `result` are coerced to numbers, column by column; the stored result is
   * kept as it is, and the operation name is not checked.
   */
  function DecodeTable(t: Table, parse: Parser): (r: Result<seq<Row>, Error>)
    ensures !HasRequiredColumns(t.columns) ==> r == Err(MissingColumns(MissingFrom(RequiredColumns, t.columns)))
    ensures HasRequiredColumns(t.columns) ==>
      var a := NumericColumn(t.records, ColumnIndex(t.columns, "a"), parse);
      var b := NumericColumn(t.records, ColumnIndex(t.columns, "b"), parse);
      var result := NumericColumn(t.records, ColumnIndex(t.columns, "result"), parse);
      && (r.Ok? <==> a && b && result)
      && (!a ==> r == Err(NonNumericColumn("a")))
      && (a && !b ==> r == Err(NonNumericColumn("b")))
      && (a && b && !result ==> r == Err(NonNumericColumn("result")))
    ensures r.Ok? ==> HasRequiredColumns(t.columns) && |r.value| == |t.records|
    ensures r.Ok? ==> forall i :: 0 <= i < |t.records| ==>
      && r.value[i].operation == Cell(t.records[i], ColumnIndex(t.columns, "operation"))
      && parse(Cell(t.records[i], ColumnIndex(t.columns, "a"))) == Some(r.value[i].a)
      && parse(Cell(t.records[i], ColumnIndex(t.columns, "b"))) == Some(r.value[i].b)
      && parse(Cell(t.records[i], ColumnIndex(t.columns, "result"))) == Some(r.value[i].result)
  {
    if !HasRequiredColumns(t.columns) then
      Err(MissingColumns(MissingFrom(RequiredColumns, t.columns)))
    else
      DecodeColumns(t.records, ColumnIndex(t.columns, "operation"), ColumnIndex(t.columns, "a"),
                    ColumnIndex(t.columns, "b"), ColumnIndex(t.columns, "result"), parse)
  }

  /** A required column that is absent makes the load fail, and the error names it. */
  lemma DecodeNamesMissingColumn(t: Table, parse: Parser, c: string)
    requires c in RequiredColumns && c !in t.columns
    ensures DecodeTable(t, parse).Err?
    ensures DecodeTable(t, parse).error == MissingColumns(MissingFrom(RequiredColumns, t.columns))
    ensures c in DecodeTable(t, parse).error.columns
  {
  }

  /** With the schema in place, one cell of `a`, `b` or `result` that is not a number makes the load fail. */
  lemma DecodeRejectsNonNumeric(t: Table, parse: Parser, i: nat, column: string)
    requires HasRequiredColumns(t.columns)
    requires column == "a" || column == "b" || column == "result"
    requires i < |t.records| && parse(Cell(t.records[i], ColumnIndex(t.columns, column))).None?
    ensures DecodeTable(t, parse).Err?
    ensures DecodeTable(t, parse).error.NonNumericColumn?
    ensures column == "a" ==> DecodeTable(t, parse).error == NonNumericColumn("a")
  {
  }

  /** What `save` writes: the canonical header, then per row its name and three numbers as text. */
  function EncodeTable(rows: seq<Row>, show: Renderer): (t: Table)
    ensures t.columns == RequiredColumns && |t.records| == |rows| && t.Rectangular()
  {
    Table(RequiredColumns, seq(|rows|, i requires 0 <= i < |rows| =>
      [rows[i].operation, show(rows[i].a), show(rows[i].b), show(rows[i].result)]))
  }

  /** The parser reads back every number the rows hold, as the renderer writes it. */
  predicate NumbersReadBack(rows: seq<Row>, show: Renderer, parse: Parser)
  {
    forall i :: 0 <= i < |rows| ==>
      ReadsBack(show, parse, rows[i].a) && ReadsBack(show, parse, rows[i].b) && ReadsBack(show, parse, rows[i].result)
  }

  /** Saving and loading back gives the same rows in the same order, when each saved number reads back as written. */
  lemma DecodeEncode(rows: seq<Row>, show: Renderer, parse: Parser)
    requires NumbersReadBack(rows, show, parse)
    ensures DecodeTable(EncodeTable(rows, show), parse) == Ok(rows)
  {
    var t := EncodeTable(rows, show);
    CanonicalHeader();
    var r := DecodeTable(t, parse);
    forall i | 0 <= i < |rows|
      ensures parse(Cell(t.records[i], 1)) == Some(rows[i].a)
      ensures parse(Cell(t.records[i], 2)) == Some(rows[i].b)
      ensures parse(Cell(t.records[i], 3)) == Some(rows[i].result)
    {
      assert Cell(t.records[i], 1) == show(rows[i].a);
      assert Cell(t.records[i], 2) == show(rows[i].b);
      assert Cell(t.records[i], 3) == show(rows[i].result);
    }
    assert r.Ok?;
    assert r.value == rows;
  }

  /** The canonical header holds every required column, each at its own position. */
  lemma CanonicalHeader()
    ensures HasRequiredColumns(RequiredColumns)
    ensures ColumnIndex(RequiredColumns, "operation") == 0 && ColumnIndex(RequiredColumns, "a") == 1
    ensures ColumnIndex(RequiredColumns, "b") == 2 && ColumnIndex(RequiredColumns, "result") == 3
  {
    var c := RequiredColumns;
    assert c[0] == "operation" && c[1] == "a" && c[2] == "b" && c[3] == "result";
    assert ColumnIndex(c, "operation") == 0;
    assert ColumnIndex(c, "a") == 1;
    assert ColumnIndex(c, "b") == 2;
  }

  /** The required columns present in two headers agree, so the `missing` lists agree. */
  lemma {:induction false} MissingFromAgrees(required: seq<string>, c1: seq<string>, c2: seq<string>)
    requires forall c :: c in required ==> (c in c1 <==> c in c2)
    ensures MissingFrom(required, c1) == MissingFrom(required, c2)
  {
    if required != [] {
      MissingFromAgrees(required[1..], c1, c2);
    }
  }

  /** A column appended to the header does not move the first position of a name already there. */
  lemma {:induction false} ColumnIndexAppend(columns: seq<string>, extra: string, name: string)
    requires name in columns
    ensures ColumnIndex(columns + [extra], name) == ColumnIndex(columns, name)
  {
    if columns[0] != name {
      assert (columns + [extra])[1..] == columns[1..] + [extra];
      ColumnIndexAppend(columns[1..], extra, name);
    }
  }

  /** Numeric coercion sees only the cells, so two columns with the same cells coerce alike. */
  lemma {:induction false} ParseColumnSameCells(r1: seq<seq<string>>, r2: seq<seq<string>>, j: nat, parse: Parser)
    requires |r1| == |r2|
    requires forall i :: 0 <= i < |r1| ==> Cell(r1[i], j) == Cell(r2[i], j)
    ensures ParseColumn(r1, j, parse) == ParseColumn(r2, j, parse)
  {
    if r1 != [] {
      ParseColumnSameCells(r1[1..], r2[1..], j, parse);
    }
  }

  /** Records widened by one cell at the end keep their earlier cells. */
  function Widen(records: seq<seq<string>>, cells: seq<string>): (r: seq<seq<string>>)
    requires |cells| == |records|
    ensures |r| == |records|
  {
    seq(|records|, i requires 0 <= i < |records| => records[i] + [cells[i]])
  }

  /**
   * Appending to the header any column that is not required, with one cell per
   * record, changes nothing: columns outside the schema are dropped.
   */
  lemma DecodeIgnoresExtraColumn(t: Table, name: string, cells: seq<string>, parse: Parser)
    requires t.Rectangular() && |cells| == |t.records|
    requires name !in RequiredColumns
    ensures DecodeTable(Table(t.columns + [name], Widen(t.records, cells)), parse) == DecodeTable(t, parse)
  {
    var records := Widen(t.records, cells);
    var u := Table(t.columns + [name], records);
    assert forall c :: c in RequiredColumns ==> (c in t.columns <==> c in u.columns);
    MissingFromAgrees(RequiredColumns, t.columns, u.columns);
    assert HasRequiredColumns(u.columns) == HasRequiredColumns(t.columns);
    if HasRequiredColumns(t.columns) {
      ColumnIndexAppend(t.columns, name, "operation");
      ColumnIndexAppend(t.columns, name, "a");
      ColumnIndexAppend(t.columns, name, "b");
      ColumnIndexAppend(t.columns, name, "result");
      var op, ia, ib, ir := ColumnIndex(t.columns, "operation"), ColumnIndex(t.columns, "a"),
                            ColumnIndex(t.columns, "b"), ColumnIndex(t.columns, "result");
      WidenKeepsCells(t, cells);
      DecodeColumnsSameCells(records, t.records, op, ia, ib, ir, parse);
    }
  }

  /** Row assembly sees only the four selected cells of each record. */
  lemma DecodeColumnsSameCells(r1: seq<seq<string>>, r2: seq<seq<string>>, op: nat, ia: nat, ib: nat, ir: nat, parse: Parser)
    requires |r1| == |r2|
    requires forall i :: 0 <= i < |r1| ==> Cell(r1[i], op) == Cell(r2[i], op) && Cell(r1[i], ia) == Cell(r2[i], ia)
    requires forall i :: 0 <= i < |r1| ==> Cell(r1[i], ib) == Cell(r2[i], ib) && Cell(r1[i], ir) == Cell(r2[i], ir)
    ensures DecodeColumns(r1, op, ia, ib, ir, parse) == DecodeColumns(r2, op, ia, ib, ir, parse)
  {
    ParseColumnSameCells(r1, r2, ia, parse);
    ParseColumnSameCells(r1, r2, ib, parse);
    ParseColumnSameCells(r1, r2, ir, parse);
    var d1, d2 := DecodeColumns(r1, op, ia, ib, ir, parse), DecodeColumns(r2, op, ia, ib, ir, parse);
    if d1.Ok? {
      assert d2.Ok?;
      forall i | 0 <= i < |r1| ensures d1.value[i] == d2.value[i] {
      }
      assert d1.value == d2.value;
    }
  }

  lemma WidenKeepsCells(t: Table, cells: seq<string>)
    requires t.Rectangular() && |cells| == |t.records|
    ensures forall i, j: nat :: 0 <= i < |t.records| && j < |t.columns| ==> Cell(Widen(t.records, cells)[i], j) == Cell(t.records[i], j)
  {
  }

  /** What `load(path)` does once it has looked at the path. */
  function LoadFile(path: string, file: StoredFile, parse: Parser): (r: Result<seq<Row>, Error>)
    ensures file.Missing? ==> r == Err(HistoryFileNotFound(path))
    ensures file.Unreadable? ==> r == Err(MalformedFile)
    ensures file.Present? ==> r == DecodeTable(file.table, parse)
    ensures r.Ok? ==> file.Present? && HasRequiredColumns(file.table.columns) && |r.value| == |file.table.records|
  {
    match file
    case Missing => Err(HistoryFileNotFound(path))
    case Unreadable => Err(MalformedFile)
    case Present(t) => DecodeTable(t, parse)
  }

  /** `CalculationHistory`: the rows replace the DataFrame held in `_df`. */
  class CalculationHistory {
    var rows: seq<Row>

    /** A new history has no rows. */
    constructor ()
      ensures rows == []
    {
      rows := [];
    }

    /** `add(calculation)`: evaluates the calculation first, so one that fails adds nothing; otherwise exactly one row at the end. */
    method Add(calculation: Calculation) returns (outcome: Outcome<Error>)
      modifies this
      ensures calculation.Result().Ok? ==> outcome == Pass && rows == old(rows) + [RowOf(calculation, calculation.Result().value)]
      ensures calculation.Result().Err? ==> outcome == Fail(calculation.Result().error) && rows == old(rows)
    {
      match calculation.Result() {
        case Err(e) =>
          outcome := Fail(e);
        case Ok(v) =>
          rows := rows + [RowOf(calculation, v)];
          outcome := Pass;
      }
    }

    /** `all()`: a copy of the rows (a sequence is a value, so it is independent of later changes). */
    function All(): seq<Row>
      reads this
    {
      rows
    }

    /** `clear()`: no rows remain, whatever was there. */
    method Clear()
      modifies this
      ensures rows == []
    {
      rows := [];
    }

    /** `format_lines()`: the sentinel for an empty history, else one line per row, built by a loop. */
    method FormatLines(show: Renderer) returns (lines: seq<string>)
      ensures lines == Listing(rows, show)
    {
      if rows == [] {
        return [NoHistory];
      }
      lines := [];
      var i := 0;
      while i < |rows|
        invariant 0 <= i <= |rows|
        invariant lines == RenderedRows(rows[..i], show)
      {
        assert rows[..i + 1][..i] == rows[..i];
        lines := lines + [FormatRow(rows[i], show)];
        i := i + 1;
      }
      assert rows[..|rows|] == rows;
    }

    /** `snapshot()`: a copy of the current rows. */
    method Snapshot() returns (snap: HistorySnapshot)
      ensures snap.rows == rows
    {
      snap := HistorySnapshot(rows);
    }

    /** `restore(snap)`: the rows become the snapshot's rows. */
    method Restore(snap: HistorySnapshot)
      modifies this
      ensures rows == snap.rows
    {
      rows := snap.rows;
    }

    /** `save(path)`: the table the CSV writer is given. */
    method Save(show: Renderer) returns (t: Table)
      ensures t == EncodeTable(rows, show)
    {
      t := EncodeTable(rows, show);
    }

    /**
     * `load(path)`, with `file` what lies at the path: all or nothing; any
     * failure (absent file, unreadable file, missing column, non-numeric cell)
     * leaves the rows as they were.
     */
    method Load(path: string, file: StoredFile, parse: Parser) returns (outcome: Outcome<Error>)
      modifies this
      ensures LoadFile(path, file, parse).Ok? ==> outcome == Pass && rows == LoadFile(path, file, parse).value
      ensures LoadFile(path, file, parse).Err? ==> outcome == Fail(LoadFile(path, file, parse).error) && rows == old(rows)
    {
      match LoadFile(path, file, parse) {
        case Err(e) =>
          outcome := Fail(e);
        case Ok(loaded) =>
          rows := loaded;
          outcome := Pass;
      }
    }
  }
}
