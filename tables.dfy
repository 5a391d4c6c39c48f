/** CSV files as `csv.DictReader` sees them. A file is given as the rows `csv.reader` yields
    (a blank line is the empty row); the first row is the header. */
module Tables {
  import opened Wrappers
  import opened Text
  import opened Folds

  /** One row as `csv.reader` yields it. */
  type Row = seq<string>

  /** One row as `csv.DictReader` yields it: header name to cell, `None` (the `restval`) for a
      cell the row is too short to have; and the cells past the header's end, which DictReader
      keeps as a list under the key `None` (the `restkey`) when the row is longer than the
      header. */
  datatype Record = Record(cells: map<string, Option<string>>, rest: Option<seq<string>>)

  /** A path that is a file holding these rows, or a path that is not a file. */
  datatype CsvFile = Missing | Present(rows: seq<Row>)

  /** `reader.fieldnames`: the first row, or `None` for an empty file. */
  function FieldNames(rows: seq<Row>): (r: Option<seq<string>>)
    ensures r.None? <==> rows == []
    ensures r.Some? ==> r.value == rows[0]
  {
    if rows == [] then None else Some(rows[0])
  }

  /** `reader.fieldnames or []`. */
  function FieldsOrEmpty(rows: seq<Row>): (r: seq<string>)
    ensures rows == [] ==> r == []
    ensures rows != [] ==> r == rows[0]
  {
    match FieldNames(rows)
    case None => []
    case Some(f) => f
  }

  /** The cell at column `i`, or `None` (DictReader's `restval`) past the end of the row. */
  function Cell(row: Row, i: nat): Option<string> {
    if i < |row| then Some(row[i]) else None
  }

  /** The last column named `k`, or -1. */
  function LastColumn(fields: seq<string>, k: string): (r: int)
    ensures -1 <= r < |fields|
    ensures r >= 0 <==> k in fields
    ensures r >= 0 ==> fields[r] == k && forall j :: r < j < |fields| ==> fields[j] != k
    decreases |fields|
  {
    if fields == [] then -1
    else if fields[|fields| - 1] == k then |fields| - 1
    else
      assert fields == fields[..|fields| - 1] + [fields[|fields| - 1]];
      LastColumn(fields[..|fields| - 1], k)
  }

  /** `dict(zip(fields, row))` followed by `restval` for the header names past the row's end:
      the keys are the header names, and a name that occurs twice takes the cell under its last
      occurrence, or `None` when the row stops before that column. */
  function CellsOf(fields: seq<string>, row: Row): (r: map<string, Option<string>>)
    ensures forall k :: k in r <==> k in fields
    decreases |fields|
  {
    if fields == [] then map[]
    else
      var n := |fields| - 1;
      assert fields == fields[..n] + [fields[n]];
      CellsOf(fields[..n], row)[fields[n] := Cell(row, n)]
  }

  /** The record DictReader makes of a data row: the header's cells, and under `restkey` the
      cells past the header's end exactly when there are any. */
  function RecordOf(fields: seq<string>, row: Row): (r: Record)
    ensures forall k :: k in r.cells <==> k in fields
    ensures r.rest.Some? <==> |row| > |fields|
    ensures r.rest.Some? ==> r.rest.value == row[|fields|..]
  {
    Record(CellsOf(fields, row), if |row| > |fields| then Some(row[|fields|..]) else None)
  }

  lemma {:induction false} CellsOfCell(fields: seq<string>, row: Row, k: string)
    requires k in fields
    ensures CellsOf(fields, row)[k] == Cell(row, LastColumn(fields, k))
    decreases |fields|
  {
    var n := |fields| - 1;
    assert fields == fields[..n] + [fields[n]];
    if fields[n] != k {
      CellsOfCell(fields[..n], row, k);
    }
  }

  lemma RecordOfCell(fields: seq<string>, row: Row, k: string)
    requires k in fields
    ensures RecordOf(fields, row).cells[k] == Cell(row, LastColumn(fields, k))
  {
    CellsOfCell(fields, row, k);
  }

  /** The data rows under header `fields`: blank rows are skipped, the others become records. */
  function Records(fields: seq<string>, rows: seq<Row>): (r: seq<Record>)
    ensures |r| <= |rows|
    decreases |rows|
  {
    if rows == [] then []
    else (if rows[0] == [] then [] else [RecordOf(fields, rows[0])]) + Records(fields, rows[1..])
  }

  /** Each record comes from a non-blank row, read under the header. */
  lemma {:induction false} RecordsMember(fields: seq<string>, rows: seq<Row>, rec: Record)
    requires rec in Records(fields, rows)
    ensures exists j :: 0 <= j < |rows| && rows[j] != [] && rec == RecordOf(fields, rows[j])
    decreases |rows|
  {
    if rows[0] == [] || rec != RecordOf(fields, rows[0]) {
      RecordsMember(fields, rows[1..], rec);
      var j :| 0 <= j < |rows[1..]| && rows[1..][j] != [] && rec == RecordOf(fields, rows[1..][j]);
      assert rows[j + 1] == rows[1..][j];
    }
  }

  /** Every record of a file, in file order, as `for row in reader` visits them. */
  function DictRows(rows: seq<Row>): seq<Record> {
    if rows == [] then [] else Records(rows[0], rows[1..])
  }

  /** `row.get(k, '')`. */
  function Get(rec: Record, k: string): (r: Option<string>)
    ensures k !in rec.cells ==> r == Some("")
    ensures k in rec.cells ==> r == rec.cells[k]
  {
    if k in rec.cells then rec.cells[k] else Some("")
  }

  // ---------------------------------------------------------------- writing records

  /** `csv.DictWriter(f, fieldnames)`, whose `extrasaction` is `'raise'`, accepts a record
      exactly when all its keys are field names; the `None` key DictReader adds for cells past
      the header is never one. */
  predicate Writable(fieldnames: seq<string>, rec: Record) {
    rec.rest.None? && forall k :: k in rec.cells ==> k in fieldnames
  }

  /** What the writer puts in a cell: `None` and a missing key (the writer's `restval`) are
      both written as the empty string. */
  function CellText(rec: Record, k: string): string {
    if k in rec.cells && rec.cells[k].Some? then rec.cells[k].value else ""
  }

  const WriterError := "ValueError: dict contains fields not in fieldnames"

  /** `writer.writerow(rec)`: one cell per field name, or `ValueError` for a record with a key
      that is not a field name. */
  function WriteRow(fieldnames: seq<string>, rec: Record): (r: Result<Row>)
    ensures r.Ok? <==> Writable(fieldnames, rec)
    ensures r.Err? ==> r.msg == WriterError
    ensures r.Ok? ==> |r.value| == |fieldnames| && forall i :: 0 <= i < |fieldnames| ==> r.value[i] == CellText(rec, fieldnames[i])
  {
    if Writable(fieldnames, rec) then Ok(seq(|fieldnames|, i requires 0 <= i < |fieldnames| => CellText(rec, fieldnames[i])))
    else Err(WriterError)
  }

  /** `for r in recs: writer.writerow(r)`: the rows that reach the file, in order, and whether
      all of them did; the first record the writer refuses raises and ends the loop. */
  function WriteRows(fieldnames: seq<string>, recs: seq<Record>): (r: (seq<Row>, bool))
    ensures r.1 <==> forall i :: 0 <= i < |recs| ==> Writable(fieldnames, recs[i])
    ensures |r.0| <= |recs| && (r.1 ==> |r.0| == |recs|) && (!r.1 ==> |r.0| < |recs|)
    ensures forall i :: 0 <= i < |r.0| ==> WriteRow(fieldnames, recs[i]) == Ok(r.0[i])
    ensures !r.1 ==> !Writable(fieldnames, recs[|r.0|])
    decreases |recs|
  {
    if recs == [] then ([], true)
    else
      var n := |recs| - 1;
      var before := WriteRows(fieldnames, recs[..n]);
      if !before.1 || !Writable(fieldnames, recs[n]) then (before.0, false)
      else (before.0 + [WriteRow(fieldnames, recs[n]).value], true)
  }

  /** Once a record is refused, later records change nothing: the loop has already ended. */
  lemma {:induction false} WriteRowsAfterErr(fieldnames: seq<string>, recs: seq<Record>, k: nat)
    requires k <= |recs| && !WriteRows(fieldnames, recs[..k]).1
    ensures WriteRows(fieldnames, recs) == WriteRows(fieldnames, recs[..k])
    decreases |recs| - k
  {
    if k < |recs| {
      var n := |recs| - 1;
      assert recs[..n][..k] == recs[..k];
      WriteRowsAfterErr(fieldnames, recs[..n], k);
    } else {
      assert recs[..k] == recs;
    }
  }

  /** `writer.writeheader()` and then `writer.writerow(r)` for each record: the lines that reach
      the file, the header first, and whether every record was written. */
  method WriteCsv(fieldnames: seq<string>, recs: seq<Record>) returns (lines: seq<Row>, ok: bool)
    ensures lines == [fieldnames] + WriteRows(fieldnames, recs).0
    ensures ok == WriteRows(fieldnames, recs).1
  {
    lines := [fieldnames];
    for i := 0 to |recs|
      invariant WriteRows(fieldnames, recs[..i]).1
      invariant lines == [fieldnames] + WriteRows(fieldnames, recs[..i]).0
    {
      assert recs[..i + 1][..i] == recs[..i];
      var row := WriteRow(fieldnames, recs[i]);
      if row.Err? {
        WriteRowsAfterErr(fieldnames, recs, i + 1);
        return lines, false;
      }
      lines := lines + [row.value];
    }
    assert recs[..|recs|] == recs;
    ok := true;
  }

  /** A record read under a header can be written back under it exactly when its row is no
      longer than the header. */
  lemma RecordOfWritable(fields: seq<string>, row: Row)
    ensures Writable(fields, RecordOf(fields, row)) <==> |row| <= |fields|
  {
  }

  /** Under a header without repeated names, a data row of the header's width is written back
      as it was read. */
  lemma WriteRowOfRecord(fields: seq<string>, row: Row)
    requires |row| == |fields|
    requires forall i, j :: 0 <= i < j < |fields| ==> fields[i] != fields[j]
    ensures WriteRow(fields, RecordOf(fields, row)) == Ok(row)
  {
    var rec := RecordOf(fields, row);
    forall i | 0 <= i < |fields|
      ensures CellText(rec, fields[i]) == row[i]
    {
      RecordOfCell(fields, row, fields[i]);
      assert LastColumn(fields, fields[i]) == i;
    }
    assert Writable(fields, rec);
    assert WriteRow(fields, rec).value == row;
  }

  // ---------------------------------------------------------------- site tables

  /** A site table row holds the site in column 0 and one entry per later column. This is
      `for s in row[1:]` with `cell(row[0].strip(), s)` deciding what each cell contributes. */
  function CellOf<U>(site: string, cell: (string, string) -> Option<U>): string -> Option<U> {
    (s: string) => cell(site, s)
  }

  /** What one row contributes, in column order. */
  function RowCells<U>(row: Row, cell: (string, string) -> Option<U>): seq<U> {
    if row == [] then [] else FilterMap(row[1..], CellOf(Strip(row[0]), cell))
  }

  function RowCellsOf<U>(cell: (string, string) -> Option<U>): Row -> seq<U> {
    (row: Row) => RowCells(row, cell)
  }

  /** The data rows of a site table, in row order; a blank row has no column 0 and raises
      `IndexError`. */
  function SiteCells<U>(rows: seq<Row>, cell: (string, string) -> Option<U>): (r: Result<seq<U>>)
    ensures r.Ok? <==> forall i :: 0 <= i < |rows| ==> rows[i] != []
    ensures r.Err? ==> r.msg == "IndexError: list index out of range"
    decreases |rows|
  {
    if rows == [] then Ok([])
    else
      var n := |rows| - 1;
      assert forall i :: 0 <= i < n ==> rows[i] == rows[..n][i];
      match SiteCells(rows[..n], cell)
      case Err(m) => Err(m)
      case Ok(us) => if rows[n] == [] then Err("IndexError: list index out of range") else Ok(us + RowCells(rows[n], cell))
  }

  /** Without blank rows the entries are those of the rows, concatenated in order. */
  lemma {:induction false} SiteCellsValue<U>(rows: seq<Row>, cell: (string, string) -> Option<U>)
    requires SiteCells(rows, cell).Ok?
    ensures SiteCells(rows, cell).value == FlatMap(rows, RowCellsOf(cell))
    decreases |rows|
  {
    if rows != [] {
      SiteCellsValue(rows[..|rows| - 1], cell);
    }
  }

  lemma RowCellsMember<U>(row: Row, cell: (string, string) -> Option<U>, u: U)
    requires row != []
    ensures u in RowCells(row, cell) <==> exists j :: 1 <= j < |row| && cell(Strip(row[0]), row[j]) == Some(u)
  {
    var f := CellOf(Strip(row[0]), cell);
    FilterMapMember(row[1..], f, u);
    assert forall j :: 1 <= j < |row| ==> row[j] == row[1..][j - 1];
    if u in RowCells(row, cell) {
      var k :| 0 <= k < |row[1..]| && f(row[1..][k]) == Some(u);
      assert row[k + 1] == row[1..][k];
    }
  }

  /** Cell `j` of row `i` contributes `u`. */
  ghost predicate EntryAt<U>(rows: seq<Row>, cell: (string, string) -> Option<U>, i: int, j: int, u: U) {
    0 <= i < |rows| && 1 <= j < |rows[i]| && cell(Strip(rows[i][0]), rows[i][j]) == Some(u)
  }

  /** An entry is produced exactly when some cell after the site column yields it. */
  lemma SiteCellsMember<U>(rows: seq<Row>, cell: (string, string) -> Option<U>, u: U)
    requires SiteCells(rows, cell).Ok?
    ensures u in SiteCells(rows, cell).value <==> exists i, j :: EntryAt(rows, cell, i, j, u)
  {
    SiteCellsValue(rows, cell);
    FlatMapMember(rows, RowCellsOf(cell), u);
    if u in SiteCells(rows, cell).value {
      var i :| 0 <= i < |rows| && u in RowCellsOf(cell)(rows[i]);
      RowCellsMember(rows[i], cell, u);
      var j :| 1 <= j < |rows[i]| && cell(Strip(rows[i][0]), rows[i][j]) == Some(u);
      assert EntryAt(rows, cell, i, j, u);
    }
    if exists i, j :: EntryAt(rows, cell, i, j, u) {
      var i, j :| EntryAt(rows, cell, i, j, u);
      RowCellsMember(rows[i], cell, u);
      assert u in RowCellsOf(cell)(rows[i]);
    }
  }

  lemma SiteCellsPrefixErr<U>(rows: seq<Row>, cell: (string, string) -> Option<U>, k: nat)
    requires k <= |rows| && SiteCells(rows[..k], cell).Err?
    ensures SiteCells(rows, cell).Err?
  {
    var i :| 0 <= i < k && rows[..k][i] == [];
    assert rows[i] == [];
  }

  /** One more non-blank row appends its entries. */
  lemma SiteCellsStep<U>(rows: seq<Row>, i: int, cell: (string, string) -> Option<U>)
    requires 0 <= i < |rows| && rows[i] != [] && SiteCells(rows[..i], cell).Ok?
    ensures SiteCells(rows[..i + 1], cell)
      == Ok(SiteCells(rows[..i], cell).value + FilterMap(rows[i][1..], CellOf(Strip(rows[i][0]), cell)))
  {
    assert rows[..i + 1][..i] == rows[..i];
    assert rows[..i + 1][i] == rows[i];
  }

  /** The inner loop over the cells after the site column. */
  method ScanRow<U>(site: string, cells: seq<string>, cell: (string, string) -> Option<U>) returns (us: seq<U>)
    ensures us == FilterMap(cells, CellOf(site, cell))
  {
    us := [];
    for j := 0 to |cells|
      invariant us == FilterMap(cells[..j], CellOf(site, cell))
    {
      assert cells[..j + 1][..j] == cells[..j];
      match cell(site, cells[j]) {
        case None =>
        case Some(u) => us := us + [u];
      }
    }
    assert cells[..|cells|] == cells;
  }

  /** The outer loop over the data rows. */
  method ScanSiteRows<U>(rows: seq<Row>, cell: (string, string) -> Option<U>) returns (r: Result<seq<U>>)
    ensures r == SiteCells(rows, cell)
  {
    var acc: seq<U> := [];
    for i := 0 to |rows|
      invariant SiteCells(rows[..i], cell) == Ok(acc)
    {
      assert rows[..i + 1][..i] == rows[..i];
      var row := rows[i];
      assert rows[..i + 1][i] == row;
      if row == [] {
        SiteCellsPrefixErr(rows, cell, i + 1);
        return Err("IndexError: list index out of range");
      }
      var more := ScanRow(Strip(row[0]), row[1..], cell);
      acc := acc + more;
    }
    assert rows[..|rows|] == rows;
    r := Ok(acc);
  }
}
