/**
  migrations/builder.py: turn the rows of a benefits CSV into an SQL script that drops and
  recreates the `benefits` table and then inserts one row per CSV row.
*/
module MigrationBuilder {
  import opened Wrappers
  import opened Text
  import opened Seqs
  import opened SqlText

  /** A CSV row as `csv.DictReader` gives it: column name to cell text. */
  type Row = map<string, string>

  /** `row.get(column, '')`: a missing column reads as the empty string. */
  function Cell(row: Row, column: string): string {
    if column in row then row[column] else ""
  }

  /** The columns written, in the order of the INSERT. */
  const Columns: seq<string> := ["name", "description", "category", "provider", "location", "image_url"]

  /** The six values of a row, in column order. */
  function Fields(row: Row): (r: seq<string>)
    ensures |r| == |Columns|
    ensures forall i :: 0 <= i < |Columns| ==> r[i] == Cell(row, Columns[i])
  {
    seq(|Columns|, i requires 0 <= i < |Columns| => Cell(row, Columns[i]))
  }

  const DropTable := "DROP TABLE IF EXISTS benefits;\n\n"

  const CreateTable :=
    "CREATE TABLE benefits (\n    id SERIAL PRIMARY KEY,\n    name TEXT,\n    description TEXT,\n"
    + "    category TEXT,\n    provider TEXT,\n    location TEXT,\n    image_url TEXT\n);\n\n"

  const InsertHead := "INSERT INTO benefits (name, description, category, provider, location, image_url) VALUES "

  /** The INSERT statement of one row, each value escaped and single-quoted. */
  function InsertLine(row: Row): string {
    InsertHead + Tuple(Fields(row)) + ";\n"
  }

  /** One statement per row, in row order. */
  function Statements(rows: seq<Row>, statement: Row -> string): (r: seq<string>)
    ensures |r| == |rows|
    ensures forall i :: 0 <= i < |rows| ==> r[i] == statement(rows[i])
  {
    seq(|rows|, i requires 0 <= i < |rows| => statement(rows[i]))
  }

  /** The INSERT statements of the rows. */
  function Inserts(rows: seq<Row>): seq<string> {
    Statements(rows, InsertLine)
  }

  /** The whole script `generar_sql_desde_csv` writes. */
  function Script(rows: seq<Row>): string {
    DropTable + CreateTable + Concat(Inserts(rows))
  }

  /** The loop over the rows: one statement written per row, after what is already written. */
  method WriteStatements(out0: string, rows: seq<Row>, statement: Row -> string) returns (out: string)
    ensures out == out0 + Concat(Statements(rows, statement))
  {
    ghost var lines := Statements(rows, statement);
    out := out0;
    for i := 0 to |rows|
      invariant out == out0 + Concat(lines[..i])
    {
      var line := statement(rows[i]);
      assert lines[..i + 1] == lines[..i] + [line];
      ConcatAppend(lines[..i], [line]);
      assert Concat([line]) == line + Concat([]);
      out := out + line;
    }
    assert lines[..|rows|] == lines;
  }

  /** The writes of `generar_sql_desde_csv`: DROP, CREATE, then one INSERT per row as the reader yields it. */
  method GenerateSql(rows: seq<Row>) returns (out: string)
    ensures out == Script(rows)
  {
    out := DropTable;
    out := out + CreateTable;
    out := WriteStatements(out, rows, InsertLine);
  }

  /** How a database reads one INSERT of this script back: the values of its row, if it is well formed. */
  function ParseInsert(line: string): Option<seq<string>> {
    if StartsWith(line, InsertHead) then
      var q := ReadTuple(line[|InsertHead|..]);
      if q.Some? && q.value.1 == ";\n" then Some(q.value.0) else None
    else None
  }

  /**
    Every INSERT reads back as the six values of its row in column order, whatever quotes they
    hold, and a column the row lacks reads back as the empty string.
  */
  lemma InsertRoundTrip(row: Row)
    ensures ParseInsert(InsertLine(row)) == Some(Fields(row))
    ensures forall i :: 0 <= i < |Columns| && Columns[i] !in row ==> Fields(row)[i] == ""
  {
    TupleRoundTrip(Fields(row), ";\n");
    assert InsertLine(row)[|InsertHead|..] == Tuple(Fields(row)) + ";\n";
  }

  /**
    The script starts with the DROP, then the CREATE, and after them holds exactly one INSERT per
    row, in row order, each reading back as that row's values.
  */
  lemma ScriptShape(rows: seq<Row>)
    ensures StartsWith(Script(rows), DropTable + CreateTable)
    ensures Script(rows) == DropTable + CreateTable + Concat(Inserts(rows))
    ensures forall i :: 0 <= i < |rows| ==> ParseInsert(Inserts(rows)[i]) == Some(Fields(rows[i]))
  {
    forall i | 0 <= i < |rows| ensures ParseInsert(Inserts(rows)[i]) == Some(Fields(rows[i])) {
      InsertRoundTrip(rows[i]);
    }
    assert Script(rows)[..|DropTable + CreateTable|] == DropTable + CreateTable;
  }
}
