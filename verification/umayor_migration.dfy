/**
  umayor/migration_umayor.py: turn the rows of the UMayor CSV into one multi-row INSERT.
  A row lacking one of the four columns read stops the script with KeyError.
*/
module UMayorMigration {
  import opened Wrappers
  import opened Text
  import opened SqlText
  import UMayorInterpreter

  /** A CSV row as `csv.DictReader` gives it: column name to cell text. */
  type Row = map<string, string>

  const Header := "INSERT INTO benefits (name, description, category, image_url) VALUES\n"

  predicate HasColumns(row: Row) {
    "title" in row && "details" in row && "category" in row && "image_url" in row
  }

  /** The values of a complete row in INSERT order: name, description, category, image_url. */
  function Values(row: Row): seq<string>
    requires HasColumns(row)
  {
    [row["title"], row["details"], row["category"], row["image_url"]]
  }

  /** `('{name}', '{description}', '{category}', '{image_url}')`, or the KeyError of the first column missing. */
  function RowTuple(row: Row): Result<string> {
    if "title" !in row then Err("KeyError: 'title'")
    else if "details" !in row then Err("KeyError: 'details'")
    else if "category" !in row then Err("KeyError: 'category'")
    else if "image_url" !in row then Err("KeyError: 'image_url'")
    else
      var name := Escape(row["title"]);
      var description := Escape(row["details"]);
      var category := Escape(row["category"]);
      var image := if row["image_url"] != "" then Escape(row["image_url"]) else "";
      Ok("('" + name + "', '" + description + "', '" + category + "', '" + image + "')")
  }

  /** The tuples of the rows in row order, or the error of the first row that fails. */
  function TuplesOf(rows: seq<Row>): Result<seq<string>> {
    if rows == [] then Ok([])
    else
      match RowTuple(rows[0])
      case Err(e) => Err(e)
      case Ok(t) =>
        match TuplesOf(rows[1..])
        case Err(e) => Err(e)
        case Ok(ts) => Ok([t] + ts)
  }

  /** The text written: the header, the tuples joined by `,\n`, and `;\n`. */
  function MigrationSql(rows: seq<Row>): Result<string> {
    match TuplesOf(rows)
    case Err(e) => Err(e)
    case Ok(ts) => Ok(Header + Join(",\n", ts) + ";\n")
  }

  /** Tuples gathered so far, in front of what the remaining rows give. */
  function Prepend(ts: seq<string>, r: Result<seq<string>>): Result<seq<string>> {
    match r
    case Err(e) => Err(e)
    case Ok(more) => Ok(ts + more)
  }

  /** The script's loop: one tuple appended to `rows` per CSV row, then one join. */
  method GenerateUMayorSql(rows: seq<Row>) returns (r: Result<string>)
    ensures r == MigrationSql(rows)
  {
    var tuples: seq<string> := [];
    assert rows[0..] == rows;
    if TuplesOf(rows).Ok? {
      assert [] + TuplesOf(rows).value == TuplesOf(rows).value;
    }
    var i := 0;
    while i < |rows|
      invariant 0 <= i <= |rows|
      invariant Prepend(tuples, TuplesOf(rows[i..])) == TuplesOf(rows)
      decreases |rows| - i
    {
      assert rows[i..][0] == rows[i] && rows[i..][1..] == rows[i + 1..];
      var t := RowTuple(rows[i]);
      if t.Err? {
        return Err(t.error);
      }
      if TuplesOf(rows[i + 1..]).Ok? {
        var more := TuplesOf(rows[i + 1..]).value;
        assert (tuples + [t.value]) + more == tuples + ([t.value] + more);
      }
      tuples := tuples + [t.value];
      i := i + 1;
    }
    assert rows[|rows|..] == [];
    assert tuples + [] == tuples;
    r := Ok(Header + Join(",\n", tuples) + ";\n");
  }

  /** The tuple of a complete row is the row of its four values, each quoted. */
  lemma RowTupleIsTuple(row: Row)
    requires HasColumns(row)
    ensures RowTuple(row) == Ok(Tuple(Values(row)))
  {
    var v := Values(row);
    if row["image_url"] == "" {
      assert Escape("") == "";
    }
    var q := QuoteAll(v);
    assert Join(", ", q[1..][1..][1..]) == q[3];
    assert Join(", ", q[1..][1..]) == q[2] + ", " + q[3];
    assert Join(", ", q[1..]) == q[1] + ", " + (q[2] + ", " + q[3]);
    assert Join(", ", q) == q[0] + ", " + (q[1] + ", " + (q[2] + ", " + q[3]));
    FourLiterals(Escape(v[0]), Escape(v[1]), Escape(v[2]), Escape(v[3]));
  }

  /** So the tuple of a complete row reads back as its four values. */
  lemma RowTupleReadsBack(row: Row)
    requires HasColumns(row)
    ensures RowTuple(row) == Ok(Tuple(Values(row)))
    ensures ReadTuple(RowTuple(row).value) == Some((Values(row), ""))
  {
    RowTupleIsTuple(row);
    TupleRoundTrip(Values(row), "");
    assert Tuple(Values(row)) + "" == Tuple(Values(row));
  }

  /** The f-string of four escaped values is the parenthesised list of their four literals. */
  lemma FourLiterals(a: string, b: string, c: string, d: string)
    ensures "('" + a + "', '" + b + "', '" + c + "', '" + d + "')" ==
      "(" + (("'" + a + "'") + ", " + (("'" + b + "'") + ", " + (("'" + c + "'") + ", " + ("'" + d + "'")))) + ")"
  {
    var sep := "', '";
    assert sep == "'" + ", " + "'";
    var lhs := "('" + a + sep + b + sep + c + sep + d + "')";
    var rhs := "(" + (("'" + a + "'") + ", " + (("'" + b + "'") + ", " + (("'" + c + "'") + ", " + ("'" + d + "'")))) + ")";
    assert |lhs| == |rhs|;
    forall i | 0 <= i < |lhs| ensures lhs[i] == rhs[i] {
    }
  }

  /** The rows convert exactly when each has the four columns; then there is one tuple per row, in row order. */
  lemma {:induction false} TuplesOfRows(rows: seq<Row>)
    ensures TuplesOf(rows).Ok? <==> forall i :: 0 <= i < |rows| ==> HasColumns(rows[i])
    ensures TuplesOf(rows).Ok? ==>
      |TuplesOf(rows).value| == |rows| &&
      forall i :: 0 <= i < |rows| ==> TuplesOf(rows).value[i] == Tuple(Values(rows[i]))
  {
    if rows != [] {
      TuplesOfRows(rows[1..]);
      if HasColumns(rows[0]) {
        RowTupleIsTuple(rows[0]);
      }
      forall i | 1 <= i < |rows| ensures rows[i] == rows[1..][i - 1] {
      }
    }
  }

  /** ... and each tuple reads back as its row's four values. */
  lemma TuplesMeaning(rows: seq<Row>)
    ensures TuplesOf(rows).Ok? <==> forall i :: 0 <= i < |rows| ==> HasColumns(rows[i])
    ensures TuplesOf(rows).Ok? ==>
      |TuplesOf(rows).value| == |rows| &&
      forall i :: 0 <= i < |rows| ==> ReadTuple(TuplesOf(rows).value[i]) == Some((Values(rows[i]), ""))
  {
    TuplesOfRows(rows);
    if TuplesOf(rows).Ok? {
      forall i | 0 <= i < |rows| ensures ReadTuple(TuplesOf(rows).value[i]) == Some((Values(rows[i]), "")) {
        RowTupleReadsBack(rows[i]);
      }
    }
  }

  /**
    The output is the header, then one tuple per row joined by `,\n`, then `;\n`; each tuple
    reads back as its row's title, details, category and image URL. With no row it is the
    header followed directly by `;\n`.
  */
  lemma MigrationShape(rows: seq<Row>)
    ensures MigrationSql([]) == Ok(Header + ";\n")
    ensures MigrationSql(rows).Ok? <==> forall i :: 0 <= i < |rows| ==> HasColumns(rows[i])
    ensures MigrationSql(rows).Ok? ==>
      exists ts: seq<string> ::
        && MigrationSql(rows).value == Header + Join(",\n", ts) + ";\n"
        && |ts| == |rows|
        && forall i :: 0 <= i < |rows| ==> ReadTuple(ts[i]) == Some((Values(rows[i]), ""))
  {
    TuplesMeaning(rows);
    assert Header + Join(",\n", []) + ";\n" == Header + ";\n";
    if MigrationSql(rows).Ok? {
      var ts := TuplesOf(rows).value;
      assert MigrationSql(rows).value == Header + Join(",\n", ts) + ";\n";
    }
  }

  /** The CSV the interpreter writes always converts: each of its lines has the four columns read here. */
  lemma InterpreterCsvConverts(benefits: seq<UMayorInterpreter.UBenefit>)
    ensures MigrationSql(UMayorInterpreter.CsvRows(benefits)).Ok?
  {
    var rows := UMayorInterpreter.CsvRows(benefits);
    UMayorInterpreter.CsvRoundTrip(benefits);
    forall i | 0 <= i < |rows| ensures HasColumns(rows[i]) {
      var row := UMayorInterpreter.CsvRow(benefits[i]);
      assert "title" in row.Keys && "details" in row.Keys;
      assert "category" in row.Keys && "image_url" in row.Keys;
    }
    TuplesMeaning(rows);
  }
}
