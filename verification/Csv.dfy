/**
 * The CSV export of the dashboard: `csvField` and `toCsv` in
 * apps/dashboard/src/lib/export.ts. The reference is a reader of section 2 of
 * RFC 4180, in which the last record may or may not end with a line break.
 */
module Csv {
  import opened Options

  /** A row object: its keys in order, and the text of its values. */
  datatype Row = Row(keys: seq<string>, cells: map<string, string>)

  // -------------------------------- The writer --------------------------------

  /** The characters that make a field quoted: [",\r\n] */
  predicate Special(c: char) {
    c == '"' || c == ',' || c == '\r' || c == '\n'
  }

  predicate Plain(text: string) {
    forall i :: 0 <= i < |text| ==> !Special(text[i])
  }

  function Doubled(text: string): string {
    if text == "" then ""
    else (if text[0] == '"' then "\"\"" else [text[0]]) + Doubled(text[1..])
  }

  function Field(text: string): string {
    if Plain(text) then text else "\"" + Doubled(text) + "\""
  }

  function Fields(texts: seq<string>): seq<string> {
    seq(|texts|, i requires 0 <= i < |texts| => Field(texts[i]))
  }

  function Join(parts: seq<string>, sep: string): string {
    if parts == [] then ""
    else if |parts| == 1 then parts[0]
    else parts[0] + (sep + Join(parts[1..], sep))
  }

  /** The cells of a row under the given headers; a missing one is empty. */
  function Cells(row: Row, headers: seq<string>): seq<string> {
    seq(|headers|, i requires 0 <= i < |headers| => if headers[i] in row.cells then row.cells[headers[i]] else "")
  }

  function Line(fields: seq<string>): string {
    Join(Fields(fields), ",")
  }

  function ToCsv(rows: seq<Row>): string {
    if rows == [] then ""
    else
      var headers := rows[0].keys;
      var lines := seq(|rows|, i requires 0 <= i < |rows| => Line(Cells(rows[i], headers)));
      Join([Join(headers, ",")] + lines, "\r\n")
  }

  // -------------------------------- The reader --------------------------------

  /** An unquoted field ends at the first special character. */
  function Bare(s: string): (r: (string, string))
    ensures |r.1| <= |s|
  {
    if s == "" || Special(s[0]) then ("", s)
    else
      var (field, rest) := Bare(s[1..]);
      ([s[0]] + field, rest)
  }

  /** A quoted field, after its opening quote: two quotes stand for one. */
  function Quoted(s: string): (r: Option<(string, string)>)
    ensures r.Some? ==> |r.value.1| < |s|
    decreases |s|
  {
    if s == "" then None
    else if s[0] != '"' then
      match Quoted(s[1..])
      case None => None
      case Some((field, rest)) => Some(([s[0]] + field, rest))
    else if |s| > 1 && s[1] == '"' then
      match Quoted(s[2..])
      case None => None
      case Some((field, rest)) => Some((['"'] + field, rest))
    else Some(("", s[1..]))
  }

  function ReadField(s: string): (r: Option<(string, string)>)
    ensures r.Some? ==> |r.value.1| <= |s|
  {
    if s != "" && s[0] == '"' then Quoted(s[1..]) else Some(Bare(s))
  }

  function ReadRecord(s: string): (r: Option<(seq<string>, string)>)
    ensures r.Some? ==> |r.value.1| <= |s|
    decreases |s|
  {
    match ReadField(s)
    case None => None
    case Some((field, rest)) =>
      if rest != "" && rest[0] == ',' then
        match ReadRecord(rest[1..])
        case None => None
        case Some((fields, rest')) => Some(([field] + fields, rest'))
      else Some(([field], rest))
  }

  function ReadFile(s: string): Option<seq<seq<string>>>
    decreases |s|
  {
    match ReadRecord(s)
    case None => None
    case Some((record, rest)) =>
      if rest == "" || rest == "\r\n" then Some([record])
      else if |rest| > 2 && rest[..2] == "\r\n" then
        match ReadFile(rest[2..])
        case None => None
        case Some(records) => Some([record] + records)
      else None
  }

  // -------------------------------- Round trip --------------------------------

  lemma {:induction false} BareStops(text: string, rest: string)
    requires Plain(text) && (rest != "" ==> Special(rest[0]))
    ensures Bare(text + rest) == (text, rest)
  {
    if text == "" {
      assert text + rest == rest;
    } else {
      assert (text + rest)[1..] == text[1..] + rest;
      BareStops(text[1..], rest);
      assert text == [text[0]] + text[1..];
    }
  }

  lemma {:induction false} QuotedUndoesDoubled(text: string, rest: string)
    requires rest != "" ==> rest[0] != '"'
    ensures Quoted(Doubled(text) + ("\"" + rest)) == Some((text, rest))
  {
    var s := Doubled(text) + ("\"" + rest);
    if text == "" {
      assert s == "\"" + rest;
      assert s[1..] == rest;
    } else {
      QuotedUndoesDoubled(text[1..], rest);
      var tail := Doubled(text[1..]) + ("\"" + rest);
      assert text == [text[0]] + text[1..];
      if text[0] == '"' {
        assert s == "\"\"" + tail;
        assert s[2..] == tail;
      } else {
        assert s == [text[0]] + tail;
        assert s[1..] == tail;
      }
    }
  }

  /** A written field is read back, whatever its characters. */
  lemma ReadUndoesField(text: string, rest: string)
    requires rest != "" ==> rest[0] == ',' || rest[0] == '\r'
    ensures ReadField(Field(text) + rest) == Some((text, rest))
  {
    hide Doubled, Quoted, Bare;
    if Plain(text) {
      BareStops(text, rest);
      assert text + rest != "" ==> (text + rest)[0] == if text == "" then rest[0] else text[0];
    } else {
      QuotedUndoesDoubled(text, rest);
      var (s, inner) := (Field(text) + rest, Doubled(text) + ("\"" + rest));
      assert s == ['"'] + inner && s[1..] == inner;
    }
  }

  lemma {:induction false} ReadUndoesLine(fields: seq<string>, rest: string)
    requires fields != [] && (rest != "" ==> rest[0] == '\r')
    ensures ReadRecord(Line(fields) + rest) == Some((fields, rest))
  {
    hide Field;
    var tail := fields[1..];
    if |fields| == 1 {
      ReadUndoesField(fields[0], rest);
      assert fields == [fields[0]];
    } else {
      var after := "," + (Line(tail) + rest);
      assert Fields(fields)[1..] == Fields(tail);
      assert Line(fields) + rest == Field(fields[0]) + after;
      ReadUndoesField(fields[0], after);
      assert after[1..] == Line(tail) + rest;
      ReadUndoesLine(tail, rest);
      assert fields == [fields[0]] + tail;
    }
  }

  function Lines(records: seq<seq<string>>): seq<string> {
    seq(|records|, i requires 0 <= i < |records| => Line(records[i]))
  }

  /** The only record written as an empty line. */
  lemma EmptyLine(fields: seq<string>)
    requires fields != []
    ensures Line(fields) == "" <==> fields == [""]
  {
    if |fields| > 1 {
      assert Line(fields) == Fields(fields)[0] + ("," + Join(Fields(fields)[1..], ","));
    }
  }

  /** Records are read back, except that a last empty line is taken for a final line break. */
  lemma {:induction false} ReadUndoesLines(records: seq<seq<string>>)
    requires records != [] && forall i :: 0 <= i < |records| ==> records[i] != []
    ensures ReadFile(Join(Lines(records), "\r\n")) ==
      Some(if |records| > 1 && records[|records| - 1] == [""] then records[..|records| - 1] else records)
  {
    hide Line, ReadRecord;
    var (first, tail) := (records[0], records[1..]);
    EmptyLine(first);
    if |records| == 1 {
      ReadUndoesLine(first, "");
      assert Join(Lines(records), "\r\n") == Line(first) + "";
      assert records == [first];
    } else {
      var s := Join(Lines(tail), "\r\n");
      assert Lines(records)[1..] == Lines(tail);
      ReadUndoesLine(first, "\r\n" + s);
      var rest := "\r\n" + s;
      assert rest[..2] == "\r\n" && rest[2..] == s;
      ReadUndoesLines(tail);
      EmptyLine(tail[0]);
      if s == "" {
        EmptyFile(tail);
        assert rest == "\r\n" && records[..1] == [first];
      } else {
        assert |rest| > 2;
        if |tail| > 1 {
          assert records[..|records| - 1] == [first] + tail[..|tail| - 1];
        } else {
          assert Lines(tail) == [Line(tail[0])] && s == Line(tail[0]);
        }
        assert records == [first] + tail;
      }
    }
  }

  lemma EmptyFile(records: seq<seq<string>>)
    requires records != [] && Join(Lines(records), "\r\n") == ""
    ensures |records| == 1 && Line(records[0]) == ""
  {
    hide Line;
    assert |records| > 1 ==> |Join(Lines(records), "\r\n")| >= 2;
  }

  // --------------------------------- The export ---------------------------------

  /** The table that an export of `rows` stands for. */
  function Table(rows: seq<Row>): seq<seq<string>>
    requires rows != []
  {
    [rows[0].keys] + seq(|rows|, i requires 0 <= i < |rows| => Cells(rows[i], rows[0].keys))
  }

  /** Header names as the exports use them: no comma, quote or line break. */
  predicate CleanHeaders(rows: seq<Row>)
    requires rows != []
  {
    forall i :: 0 <= i < |rows[0].keys| ==> Plain(rows[0].keys[i])
  }

  lemma CleanLine(headers: seq<string>)
    requires forall i :: 0 <= i < |headers| ==> Plain(headers[i])
    ensures Join(headers, ",") == Line(headers)
  {
    assert Fields(headers) == headers;
  }

  lemma CsvIsLinesOfTable(rows: seq<Row>)
    requires rows != [] && CleanHeaders(rows)
    ensures ToCsv(rows) == Join(Lines(Table(rows)), "\r\n")
  {
    hide Line;
    var headers := rows[0].keys;
    CleanLine(headers);
    var lines := seq(|rows|, i requires 0 <= i < |rows| => Line(Cells(rows[i], headers)));
    assert Lines(Table(rows)) == [Line(headers)] + lines;
  }

  /** A column-less table is written as bare line breaks. */
  lemma NoColumns(rows: seq<Row>)
    requires rows != [] && rows[0].keys == []
    ensures ReadFile(ToCsv(rows)) != Some(Table(rows))
  {
    var blank := seq(|rows| + 1, i => [""]);
    assert CleanHeaders(rows);
    CsvIsLinesOfTable(rows);
    assert Fields([]) == [] && Line([]) == "";
    assert Fields([""]) == [""] && Line([""]) == "";
    assert Lines(Table(rows)) == Lines(blank);
    ReadUndoesLines(blank);
    assert |blank[..|rows|]| == |rows| && |Table(rows)| == |rows| + 1;
  }

  lemma TableShape(rows: seq<Row>)
    requires rows != []
    ensures
      var (n, table) := (|rows|, Table(rows));
      && |table| == n + 1
      && (forall i :: 0 <= i <= n ==> |table[i]| == |rows[0].keys|)
      && table[n] == Cells(rows[n - 1], rows[0].keys)
  {
  }

  /** With columns, all is read back unless the last record is one empty field. */
  lemma ReadUndoesColumns(rows: seq<Row>)
    requires rows != [] && CleanHeaders(rows) && rows[0].keys != []
    ensures ReadFile(ToCsv(rows)) == Some(Table(rows)) <==> Table(rows)[|Table(rows)| - 1] != [""]
  {
    CsvIsLinesOfTable(rows);
    TableShape(rows);
    hide Cells, Table, Join, Lines, ToCsv, ReadFile, CleanHeaders;
    ReadUndoesLines(Table(rows));
  }

  /**
   * `file` holds the rows cell by cell: first the header, then for each row, under each
   * header, the value it has for it, or nothing.
   */
  predicate HoldsRows(file: seq<seq<string>>, rows: seq<Row>)
    requires rows != []
  {
    var headers := rows[0].keys;
    && |file| == |rows| + 1
    && file[0] == headers
    && forall i :: 1 <= i < |file| ==>
         && |file[i]| == |headers|
         && forall j :: 0 <= j < |headers| ==>
              var row := rows[i - 1];
              file[i][j] == if headers[j] in row.cells then row.cells[headers[j]] else ""
  }

  lemma CellOfRow(row: Row, headers: seq<string>, j: nat)
    requires j < |headers|
    ensures |Cells(row, headers)| == |headers|
    ensures Cells(row, headers)[j] == if headers[j] in row.cells then row.cells[headers[j]] else ""
  {
  }

  lemma TableHoldsRows(rows: seq<Row>)
    requires rows != []
    ensures HoldsRows(Table(rows), rows)
  {
    var (headers, table) := (rows[0].keys, Table(rows));
    TableShape(rows);
    forall i, j | 1 <= i < |table| && 0 <= j < |headers|
      ensures table[i][j] == if headers[j] in rows[i - 1].cells then rows[i - 1].cells[headers[j]] else ""
    {
      CellOfRow(rows[i - 1], headers, j);
      assert table[i] == Cells(rows[i - 1], headers);
    }
    hide Cells, Table;
  }

  lemma SameRowsSameFile(a: seq<seq<string>>, b: seq<seq<string>>, rows: seq<Row>)
    requires rows != [] && HoldsRows(a, rows) && HoldsRows(b, rows)
    ensures a == b
  {
    forall i | 0 <= i < |a|
      ensures a[i] == b[i]
    {
      assert i > 0 ==> |a[i]| == |b[i]| && forall j :: 0 <= j < |a[i]| ==> a[i][j] == b[i][j];
    }
  }

  lemma LastRecordIsBlankIff(rows: seq<Row>)
    requires rows != []
    ensures
      var (row, headers) := (rows[|rows| - 1], rows[0].keys);
      Table(rows)[|rows|] == [""] <==>
        |headers| == 1 && (headers[0] in row.cells ==> row.cells[headers[0]] == "")
  {
    var (row, headers) := (rows[|rows| - 1], rows[0].keys);
    TableShape(rows);
    if |headers| == 1 {
      CellOfRow(row, headers, 0);
    }
    hide Table, Cells;
    var last := Cells(row, headers);
    assert last == [""] <==> |last| == 1 && last[0] == "";
  }

  /**
   * An export is read back cell by cell, whatever characters the fields hold, with two
   * exceptions: a table without columns, and a table of one column whose last row is
   * empty, because its line is indistinguishable from a final line break.
   */
  lemma ReadUndoesExportIff(rows: seq<Row>)
    requires rows != [] && CleanHeaders(rows)
    ensures
      var (file, headers, row) := (ReadFile(ToCsv(rows)), rows[0].keys, rows[|rows| - 1]);
      file.Some? && HoldsRows(file.value, rows) <==>
        && headers != []
        && (|headers| > 1 || (headers[0] in row.cells && row.cells[headers[0]] != ""))
  {
    hide ToCsv, ReadFile, CleanHeaders, Table, HoldsRows;
    TableHoldsRows(rows);
    TableShape(rows);
    if rows[0].keys == [] {
      NoColumns(rows);
    } else {
      ReadUndoesColumns(rows);
      LastRecordIsBlankIff(rows);
    }
    var file := ReadFile(ToCsv(rows));
    if file.Some? && HoldsRows(file.value, rows) {
      SameRowsSameFile(file.value, Table(rows), rows);
    }
  }

  /** The smallest table that loses its row. */
  lemma EmptyLastRowIsLost()
    ensures
      var rows := [Row(["pm25"], map["pm25" := ""])];
      ToCsv(rows) == "pm25\r\n" && ReadFile(ToCsv(rows)) == Some([["pm25"]]) && Table(rows) == [["pm25"], [""]]
  {
    var rows := [Row(["pm25"], map["pm25" := ""])];
    assert Cells(rows[0], ["pm25"]) == [""];
    assert Table(rows) == [["pm25"], [""]];
    assert Fields(["pm25"]) == ["pm25"] && Fields([""]) == [""];
    assert Line(["pm25"]) == "pm25" && Line([""]) == "";
    CsvIsLinesOfTable(rows);
    assert Lines(Table(rows)) == ["pm25", ""];
    assert Join(["pm25", ""], "\r\n") == "pm25" + ("\r\n" + "");
    ReadUndoesLines(Table(rows));
  }
}
