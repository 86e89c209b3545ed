/** The CSV export of the admin console, and a reader for section 2 of RFC 4180 that takes it back. */
module Csv {
  import opened Results
  import opened Text

  /** What a column extracts from a row: nothing (null or undefined), or a value printed as text. */
  datatype Cell = Empty | Printed(text: string)

  function CellText(cell: Cell): string {
    match cell
    case Empty => ""
    case Printed(text) => text
  }

  /** Every quote doubled. */
  function Escape(s: string): string {
    if s == "" then ""
    else (if s[0] == '"' then "\"\"" else [s[0]]) + Escape(s[1..])
  }

  predicate NeedsQuotes(s: string) {
    exists i :: 0 <= i < |s| && s[i] in {'"', ',', '\r', '\n'}
  }

  function CsvField(cell: Cell): string {
    var s := CellText(cell);
    if NeedsQuotes(s) then "\"" + Escape(s) + "\"" else s
  }

  function Fields(cells: seq<Cell>): seq<string> {
    seq(|cells|, i requires 0 <= i < |cells| => CsvField(cells[i]))
  }

  function Line(cells: seq<Cell>): string {
    Join(Fields(cells), ",")
  }

  function Lines(rows: seq<seq<Cell>>): seq<string> {
    seq(|rows|, i requires 0 <= i < |rows| => Line(rows[i]))
  }

  datatype Column<!Row> = Column(header: string, value: Row -> Cell)

  function HeaderCells<Row>(columns: seq<Column<Row>>): seq<Cell> {
    seq(|columns|, i requires 0 <= i < |columns| => Printed(columns[i].header))
  }

  function RowCells<Row>(columns: seq<Column<Row>>, row: Row): seq<Cell> {
    seq(|columns|, i requires 0 <= i < |columns| => columns[i].value(row))
  }

  function Table<Row>(rows: seq<Row>, columns: seq<Column<Row>>): seq<seq<Cell>> {
    [HeaderCells(columns)] + seq(|rows|, i requires 0 <= i < |rows| => RowCells(columns, rows[i]))
  }

  function ToCsv<Row>(rows: seq<Row>, columns: seq<Column<Row>>): string {
    Join(Lines(Table(rows, columns)), "\r\n")
  }

  // ---- reading ------------------------------------------------------------------------------------

  type Record = seq<string>

  /** Reads the text of a quoted field after its opening quote, up to its closing quote. */
  function ReadQuoted(s: string): (r: Option<(string, string)>)
    ensures r.Some? ==> |r.value.1| < |s|
  {
    if s == "" then None
    else if s[0] == '"' then
      if |s| > 1 && s[1] == '"' then
        var (text, rest) :- ReadQuoted(s[2..]);
        Some(("\"" + text, rest))
      else Some(("", s[1..]))
    else
      var (text, rest) :- ReadQuoted(s[1..]);
      Some(([s[0]] + text, rest))
  }

  /** Reads a field without quotes: up to a comma, a quote or a line break character. */
  function ReadBare(s: string): (r: (string, string))
    ensures |r.1| <= |s|
  {
    if s == "" || s[0] in {'"', ',', '\r', '\n'} then ("", s)
    else
      var (text, rest) := ReadBare(s[1..]);
      ([s[0]] + text, rest)
  }

  function ReadField(s: string): (r: Option<(string, string)>)
    ensures r.Some? ==> |r.value.1| <= |s|
  {
    if s != "" && s[0] == '"' then ReadQuoted(s[1..]) else Some(ReadBare(s))
  }

  /** Reads records: fields separated by commas, records separated by CR LF. What follows a field
      must be one of the two separators or the end. */
  function ReadRecords(s: string, fields: Record): Option<seq<Record>>
    decreases |s|
  {
    var (text, rest) :- ReadField(s);
    var record := fields + [text];
    if rest == "" then Some([record])
    else if rest[0] == ',' then ReadRecords(rest[1..], record)
    else if |rest| > 1 && rest[..2] == "\r\n" then
      var records :- ReadRecords(rest[2..], []);
      Some([record] + records)
    else None
  }

  function ReadCsv(s: string): Option<seq<Record>> {
    ReadRecords(s, [])
  }

  // ---- the round trip -------------------------------------------------------------------------------

  /** A field ends where a separator or the end of the text follows. */
  predicate AtSeparator(rest: string) {
    rest == "" || rest[0] in {',', '\r'}
  }

  lemma {:induction false} ReadQuotedEscaped(s: string, rest: string)
    requires AtSeparator(rest)
    ensures ReadQuoted(Escape(s) + "\"" + rest) == Some((s, rest))
  {
    var written := Escape(s) + "\"" + rest;
    if s == "" {
      assert written == "\"" + rest && written[1..] == rest;
    } else {
      ReadQuotedEscaped(s[1..], rest);
      var tail := Escape(s[1..]) + "\"" + rest;
      if s[0] == '"' {
        assert written == "\"\"" + tail && written[2..] == tail;
      } else {
        assert written == [s[0]] + tail && written[1..] == tail;
      }
      assert [s[0]] + s[1..] == s;
    }
  }

  lemma {:induction false} ReadBareText(s: string, rest: string)
    requires !NeedsQuotes(s) && AtSeparator(rest)
    ensures ReadBare(s + rest) == (s, rest)
  {
    if s == "" {
      assert s + rest == rest;
    } else {
      assert s[0] !in {'"', ',', '\r', '\n'};
      forall i | 0 <= i < |s[1..]| ensures s[1..][i] !in {'"', ',', '\r', '\n'} {
        assert s[1..][i] == s[i + 1];
      }
      ReadBareText(s[1..], rest);
      assert (s + rest)[1..] == s[1..] + rest && [s[0]] + s[1..] == s;
    }
  }

  lemma ReadQuotedField(s: string, rest: string)
    requires AtSeparator(rest)
    ensures ReadField("\"" + Escape(s) + "\"" + rest) == Some((s, rest))
  {
    ReadQuotedEscaped(s, rest);
    var inner := Escape(s) + "\"" + rest;
    assert "\"" + Escape(s) + "\"" + rest == "\"" + inner && ("\"" + inner)[1..] == inner;
  }

  lemma ReadBareField(s: string, rest: string)
    requires !NeedsQuotes(s) && AtSeparator(rest)
    ensures ReadField(s + rest) == Some((s, rest))
  {
    ReadBareText(s, rest);
    StartsWithoutQuote(s, rest);
  }

  /** A printed field reads back as the text of its cell, whatever the text holds. */
  lemma ReadPrintedField(cell: Cell, rest: string)
    requires AtSeparator(rest)
    ensures ReadField(CsvField(cell) + rest) == Some((CellText(cell), rest))
  {
    if NeedsQuotes(CellText(cell)) {
      ReadQuotedField(CellText(cell), rest);
    } else {
      ReadBareField(CellText(cell), rest);
    }
  }

  lemma StartsWithoutQuote(s: string, rest: string)
    requires !NeedsQuotes(s) && AtSeparator(rest)
    ensures s + rest != "" ==> (s + rest)[0] != '"'
  {
  }

  function Texts(cells: seq<Cell>): Record {
    seq(|cells|, i requires 0 <= i < |cells| => CellText(cells[i]))
  }

  ghost function AllTexts(rows: seq<seq<Cell>>): seq<Record> {
    seq(|rows|, i requires 0 <= i < |rows| => Texts(rows[i]))
  }

  /** What reading goes on with after `record` is complete and `rest` follows. */
  ghost function Continue(record: Record, rest: string): Option<seq<Record>> {
    if rest == "" then Some([record])
    else if |rest| > 1 && rest[..2] == "\r\n" then
      var records :- ReadRecords(rest[2..], []);
      Some([record] + records)
    else None
  }

  /** The last field of a line. */
  lemma ReadLastField(cell: Cell, rest: string, fields: Record)
    requires rest == "" || (|rest| > 1 && rest[..2] == "\r\n")
    ensures ReadRecords(CsvField(cell) + rest, fields) == Continue(fields + [CellText(cell)], rest)
  {
    assert rest != "" ==> rest[0] == rest[..2][0];
    ReadPrintedField(cell, rest);
  }

  /** A field with another after it. */
  lemma ReadFirstField(cell: Cell, tail: string, fields: Record)
    ensures ReadRecords(CsvField(cell) + ("," + tail), fields) == ReadRecords(tail, fields + [CellText(cell)])
  {
    ReadPrintedField(cell, "," + tail);
    assert ("," + tail)[1..] == tail;
  }

  lemma LineCons(cells: seq<Cell>, rest: string)
    requires |cells| > 1
    ensures Line(cells) + rest == CsvField(cells[0]) + ("," + (Line(cells[1..]) + rest))
  {
    assert Fields(cells)[1..] == Fields(cells[1..]);
    assert Line(cells) == CsvField(cells[0]) + "," + Line(cells[1..]);
  }

  /** A line is read field by field and ends where the next line begins. */
  lemma {:induction false} ReadLine(cells: seq<Cell>, rest: string, fields: Record)
    requires cells != [] && (rest == "" || (|rest| > 1 && rest[..2] == "\r\n"))
    ensures ReadRecords(Line(cells) + rest, fields) == Continue(fields + Texts(cells), rest)
    decreases |cells|
  {
    if |cells| == 1 {
      assert Line(cells) == CsvField(cells[0]);
      ReadLastField(cells[0], rest, fields);
      assert fields + [CellText(cells[0])] == fields + Texts(cells);
    } else {
      var first := fields + [CellText(cells[0])];
      LineCons(cells, rest);
      ReadFirstField(cells[0], Line(cells[1..]) + rest, fields);
      ReadLine(cells[1..], rest, first);
      assert first + Texts(cells[1..]) == fields + Texts(cells);
    }
  }

  lemma LinesCons(rows: seq<seq<Cell>>)
    requires |rows| > 1
    ensures Join(Lines(rows), "\r\n") == Line(rows[0]) + ("\r\n" + Join(Lines(rows[1..]), "\r\n"))
    ensures AllTexts(rows) == [Texts(rows[0])] + AllTexts(rows[1..])
  {
    assert Lines(rows)[1..] == Lines(rows[1..]);
  }

  /** The first line is read as the record of its cells, and reading goes on behind its break. */
  lemma ReadFirstLine(cells: seq<Cell>, tail: string)
    requires cells != []
    ensures ReadRecords(Line(cells), []) == Some([Texts(cells)])
    ensures ReadRecords(Line(cells) + ("\r\n" + tail), []) ==
      match ReadRecords(tail, []) case Some(records) => Some([Texts(cells)] + records) case None => None
  {
    ReadLine(cells, "", []);
    assert Line(cells) + "" == Line(cells) && [] + Texts(cells) == Texts(cells);
    ReadLine(cells, "\r\n" + tail, []);
    assert ("\r\n" + tail)[2..] == tail;
  }

  lemma {:induction false} ReadLines(rows: seq<seq<Cell>>)
    requires rows != [] && forall i :: 0 <= i < |rows| ==> rows[i] != []
    ensures ReadRecords(Join(Lines(rows), "\r\n"), []) == Some(AllTexts(rows))
  {
    if |rows| == 1 {
      ReadFirstLine(rows[0], "");
      assert AllTexts(rows) == [Texts(rows[0])];
    } else {
      LinesCons(rows);
      ReadLines(rows[1..]);
      ReadFirstLine(rows[0], Join(Lines(rows[1..]), "\r\n"));
    }
  }

  lemma TableIsRead<Row>(rows: seq<Row>, columns: seq<Column<Row>>)
    requires columns != []
    ensures ReadCsv(ToCsv(rows, columns)) == Some(AllTexts(Table(rows, columns)))
  {
    ReadLines(Table(rows, columns));
  }

  /** The round trip: with at least one column, reading what ToCsv wrote gives a record for the
      header and one for each row, each with one field for each column: the column's header, or what
      the column takes from the row, whatever quotes, commas and line breaks that holds. */
  lemma ReadCsvInvertsToCsv<Row>(rows: seq<Row>, columns: seq<Column<Row>>)
    requires columns != []
    ensures ReadCsv(ToCsv(rows, columns)).Some?
    ensures var records := ReadCsv(ToCsv(rows, columns)).value;
      && |records| == |rows| + 1
      && (forall i :: 0 <= i < |records| ==> |records[i]| == |columns|)
      && (forall j :: 0 <= j < |columns| ==> records[0][j] == columns[j].header)
      && (forall i, j :: 0 <= i < |rows| && 0 <= j < |columns| ==>
            records[i + 1][j] == match columns[j].value(rows[i]) case Empty => "" case Printed(text) => text)
  {
    TableIsRead(rows, columns);
    var table := Table(rows, columns);
    forall i | 0 <= i < |rows| ensures AllTexts(table)[i + 1] == Texts(RowCells(columns, rows[i])) {
      assert table[i + 1] == RowCells(columns, rows[i]);
    }
  }

  /** Hence the text determines the table: equal exports have the same number of rows, and each
      column takes the same text from both. */
  lemma ToCsvIsInjective<Row>(rows: seq<Row>, rows': seq<Row>, columns: seq<Column<Row>>)
    requires columns != [] && ToCsv(rows, columns) == ToCsv(rows', columns)
    ensures |rows| == |rows'|
    ensures forall i, j :: 0 <= i < |rows| && 0 <= j < |columns| ==>
      CellText(columns[j].value(rows[i])) == CellText(columns[j].value(rows'[i]))
  {
    ReadCsvInvertsToCsv(rows, columns);
    ReadCsvInvertsToCsv(rows', columns);
    var records := ReadCsv(ToCsv(rows, columns)).value;
    forall i, j | 0 <= i < |rows| && 0 <= j < |columns|
      ensures CellText(columns[j].value(rows[i])) == CellText(columns[j].value(rows'[i]))
    {
      assert records[i + 1][j] == CellText(columns[j].value(rows[i]));
      assert records[i + 1][j] == CellText(columns[j].value(rows'[i]));
    }
  }

  /** A field is printed as its bare text exactly if that holds no quote, comma or line break
      character; otherwise it stands between quotes. Nothing is printed for no value. */
  lemma FieldIsBareExactly(text: string)
    ensures CsvField(Empty) == ""
    ensures CsvField(Printed(text)) == text
      <==> '"' !in text && ',' !in text && '\r' !in text && '\n' !in text
    ensures CsvField(Printed(text)) != text ==>
      var field := CsvField(Printed(text));
      |field| >= 2 && field[0] == '"' && field[|field| - 1] == '"'
  {
    EscapeLengthens(text);
    if NeedsQuotes(text) {
      var i :| 0 <= i < |text| && text[i] in {'"', ',', '\r', '\n'};
      assert text[i] in text;
    }
  }

  /** Escaping doubles every quote: it joins by two quotes what one separates. */
  lemma {:induction false} EscapeDoublesQuotes(text: string)
    ensures Escape(text) == Join(Split(text, '"'), "\"\"")
  {
    if text != "" {
      var parts := Split(text[1..], '"');
      EscapeDoublesQuotes(text[1..]);
      if text[0] == '"' {
        assert ([""] + parts)[1..] == parts;
      } else {
        var longer := [[text[0]] + parts[0]] + parts[1..];
        assert longer[1..] == parts[1..];
        assert Join(longer, "\"\"") == [text[0]] + Join(parts, "\"\"");
      }
    }
  }

  lemma {:induction false} EscapeLengthens(text: string)
    ensures |Escape(text)| >= |text|
  {
    if text != "" {
      EscapeLengthens(text[1..]);
    }
  }

  // ---- a final line break -----------------------------------------------------------------------------

  /** Section 2 lets the last record end in a line break. A reader that takes a final CR LF that way
      drops an empty last record. */
  function ReadCsvWithFinalBreak(s: string): Option<seq<Record>> {
    if |s| >= 2 && s[|s| - 2..] == "\r\n" then ReadCsv(s[..|s| - 2]) else ReadCsv(s)
  }

  lemma LastLineApart(rows: seq<seq<Cell>>)
    requires |rows| > 1
    ensures var n := |rows| - 1;
      Join(Lines(rows), "\r\n") == Join(Lines(rows[..n]), "\r\n") + "\r\n" + Line(rows[n])
  {
    JoinLast(Lines(rows), "\r\n");
    assert Lines(rows)[..|rows| - 1] == Lines(rows[..|rows| - 1]);
  }

  /** Each further row is a further line behind CR LF. */
  lemma ToCsvAppends<Row>(rows: seq<Row>, row: Row, columns: seq<Column<Row>>)
    ensures ToCsv(rows + [row], columns) == ToCsv(rows, columns) + "\r\n" + Line(RowCells(columns, row))
  {
    var table := Table(rows + [row], columns);
    LastLineApart(table);
    assert table[..|table| - 1] == Table(rows, columns);
  }

  /** A line of bare fields splits at its commas into the texts of its cells. */
  lemma BareLineSplits(cells: seq<Cell>)
    requires cells != [] && forall i :: 0 <= i < |cells| ==> !NeedsQuotes(CellText(cells[i]))
    ensures Split(Line(cells), ',') == Texts(cells)
  {
    forall i | 0 <= i < |cells| ensures ',' !in Fields(cells)[i] {
      FieldIsBareExactly(CellText(cells[i]));
    }
    SplitJoin(Fields(cells), ',');
    assert Fields(cells) == Texts(cells);
  }

  /** A line never ends in a line feed, and is empty only where it is one empty cell. */
  lemma LineEnds(cells: seq<Cell>)
    requires cells != []
    ensures Line(cells) == "" <==> |cells| == 1 && CellText(cells[0]) == ""
    ensures Line(cells) != "" ==> Line(cells)[|Line(cells)| - 1] != '\n'
  {
    var n := |cells| - 1;
    var last := CsvField(cells[n]);
    if NeedsQuotes(CellText(cells[n])) {
      assert last[|last| - 1] == '"';
    } else if last != "" {
      assert last[|last| - 1] !in {'"', ',', '\r', '\n'};
    }
    if n > 0 {
      JoinLast(Fields(cells), ",");
      assert Line(cells) == Join(Fields(cells)[..n], ",") + "," + last;
    }
  }

  lemma EndsInBreak(text: string, line: string, before: string)
    requires text == before + "\r\n" + line
    requires line != "" ==> line[|line| - 1] != '\n'
    ensures text[|text| - 2..] == "\r\n" <==> line == ""
  {
    if line == "" {
      assert text == before + "\r\n";
    } else {
      assert text[|text| - 2..][1] == line[|line| - 1];
    }
  }

  lemma FinalBreakLines(rows: seq<seq<Cell>>)
    requires rows != [] && forall i :: 0 <= i < |rows| ==> rows[i] != []
    ensures var text := Join(Lines(rows), "\r\n");
      ReadCsvWithFinalBreak(text) == ReadCsv(text) <==> !(|rows| > 1 && Line(rows[|rows| - 1]) == "")
  {
    var text := Join(Lines(rows), "\r\n");
    var n := |rows| - 1;
    LineEnds(rows[n]);
    if n == 0 {
      assert text == Line(rows[0]);
      assert |text| >= 2 ==> text[|text| - 2..][1] == text[|text| - 1];
    } else {
      var before := Join(Lines(rows[..n]), "\r\n");
      LastLineApart(rows);
      EndsInBreak(text, Line(rows[n]), before);
      if Line(rows[n]) == "" {
        assert text[..|text| - 2] == before;
        ReadLines(rows);
        ReadLines(rows[..n]);
        assert |AllTexts(rows[..n])| != |AllTexts(rows)|;
      }
    }
  }

  /** Such a reader also gets the table back exactly, unless there is a row below the header, only
      one column, and the last cell of that column is empty. */
  lemma FinalBreakReaderAgrees<Row>(rows: seq<Row>, columns: seq<Column<Row>>)
    requires columns != []
    ensures ReadCsvWithFinalBreak(ToCsv(rows, columns)) == ReadCsv(ToCsv(rows, columns)) <==>
      !(|columns| == 1 && rows != [] && CellText(columns[0].value(rows[|rows| - 1])) == "")
  {
    var table := Table(rows, columns);
    FinalBreakLines(table);
    LineEnds(table[|table| - 1]);
  }
}
