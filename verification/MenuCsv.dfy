/**
 The menu CSV parser, a character automaton, against a printer that follows section 2 of RFC 4180,
 and against the smaller automaton that reads one line of an order import.
 */
module MenuCsv {
  import opened Prelude
  import opened Trimming

  type Row = seq<string>

  const QUOTE := '"'
  const COMMA := ','
  const CR := '\r'
  const LF := '\n'

  // ---------------------------------------------------------------- text

  /** The text of a cell: a leading byte order mark is dropped before trimming. */
  function Text(s: string): string {
    Trim(if s != "" && s[0] == '\U{FEFF}' then s[1..] else s)
  }

  function Lower(c: char): char {
    if 'A' <= c <= 'Z' then (c as int - 'A' as int + 'a' as int) as char else c
  }

  function LowerAll(s: string): string {
    seq(|s|, i requires 0 <= i < |s| => Lower(s[i]))
  }

  predicate NonBlank(row: Row) {
    exists cell | cell in row :: Text(cell) != ""
  }

  // ---------------------------------------------------------------- the automaton

  datatype Scan = Scan(rows: seq<Row>, row: Row, value: string, quoted: bool)

  function Start(): Scan {
    Scan([], [], "", false)
  }

  function WithRow(rows: seq<Row>, row: Row): seq<Row> {
    if NonBlank(row) then rows + [row] else rows
  }

  function Parse(source: string, s: Scan): Scan
    decreases |source|
  {
    if source == "" then s
    else
      var c := source[0];
      if c == QUOTE then
        if s.quoted && |source| > 1 && source[1] == QUOTE then Parse(source[2..], s.(value := s.value + [QUOTE]))
        else Parse(source[1..], s.(quoted := !s.quoted))
      else if c == COMMA && !s.quoted then Parse(source[1..], s.(row := s.row + [s.value], value := ""))
      else if (c == LF || c == CR) && !s.quoted then
        Parse(if c == CR && |source| > 1 && source[1] == LF then source[2..] else source[1..],
              Scan(WithRow(s.rows, s.row + [s.value]), [], "", false))
      else Parse(source[1..], s.(value := s.value + [c]))
  }

  function Finish(s: Scan): seq<Row> {
    if s.value != "" || s.row != [] then WithRow(s.rows, s.row + [s.value]) else s.rows
  }

  datatype Table = Table(headers: Row, rows: seq<Row>)

  predicate IsSchemaCell(cell: string) {
    LowerAll(Text(cell)) == "name" || LowerAll(Text(cell)) == "addon_group_name"
  }

  predicate IsSchemaRow(row: Row) {
    exists cell | cell in row :: IsSchemaCell(cell)
  }

  function SchemaIndex(rows: seq<Row>): (i: nat)
    ensures i <= |rows|
    ensures i < |rows| ==> IsSchemaRow(rows[i])
    ensures forall j | 0 <= j < i :: !IsSchemaRow(rows[j])
  {
    if rows == [] || IsSchemaRow(rows[0]) then 0 else SchemaIndex(rows[1..]) + 1
  }

  function Texts(row: Row): Row {
    seq(|row|, i requires 0 <= i < |row| => Text(row[i]))
  }

  function ToTable(rows: seq<Row>): Table {
    if rows == [] then Table([], [])
    else
      var schema := SchemaIndex(rows);
      var header := if schema < |rows| then schema else 0;
      Table(Texts(rows[header]), rows[header + 1..])
  }

  method ParseMenuCsv(source: string) returns (table: Table)
    ensures table == ToTable(Finish(Parse(source, Start())))
  {
    var rows: seq<Row> := [];
    var row: Row := [];
    var value := "";
    var quoted := false;
    var index := 0;
    while index < |source|
      invariant 0 <= index <= |source|
      invariant Parse(source[index..], Scan(rows, row, value, quoted)) == Parse(source, Start())
    {
      var character := source[index];
      var hasNext := index + 1 < |source|;
      assert source[index..][1..] == source[index + 1..];
      assert hasNext ==> source[index..][2..] == source[index + 2..];
      if character == QUOTE {
        if quoted && hasNext && source[index + 1] == QUOTE {
          value := value + [QUOTE];
          index := index + 1;
        } else {
          quoted := !quoted;
        }
      } else if character == COMMA && !quoted {
        row := row + [value];
        value := "";
      } else if (character == LF || character == CR) && !quoted {
        if character == CR && hasNext && source[index + 1] == LF {
          index := index + 1;
        }
        row := row + [value];
        value := "";
        rows := WithRow(rows, row);
        row := [];
      } else {
        value := value + [character];
      }
      index := index + 1;
    }
    assert source[|source|..] == "";
    if value != "" || |row| > 0 {
      rows := WithRow(rows, row + [value]);
    }
    table := ToTable(rows);
  }

  // ---------------------------------------------------------------- the printer of RFC 4180, section 2

  /** A field and whether it is enclosed in quotes although it need not be. */
  datatype Field = Field(text: string, enclosed: bool)

  datatype LineBreak = BreakLf | BreakCr | BreakCrLf

  function BreakText(b: LineBreak): string {
    match b
    case BreakLf => [LF]
    case BreakCr => [CR]
    case BreakCrLf => [CR, LF]
  }

  predicate Special(c: char) {
    c == QUOTE || c == COMMA || c == CR || c == LF
  }

  predicate MustEnclose(text: string) {
    exists c | c in text :: Special(c)
  }

  function Escaped(text: string): string {
    if text == "" then ""
    else (if text[0] == QUOTE then [QUOTE, QUOTE] else [text[0]]) + Escaped(text[1..])
  }

  function PrintField(f: Field): string {
    if f.enclosed || MustEnclose(f.text) then [QUOTE] + Escaped(f.text) + [QUOTE] else f.text
  }

  function PrintRow(fields: seq<Field>): string {
    if fields == [] then ""
    else if |fields| == 1 then PrintField(fields[0])
    else PrintField(fields[0]) + [COMMA] + PrintRow(fields[1..])
  }

  /** A record and the line break after it. */
  datatype Record = Record(fields: seq<Field>, ending: LineBreak)

  /** All records; the break after the last one is optional. */
  function Print(records: seq<Record>, closed: bool): string {
    if records == [] then ""
    else if |records| == 1 && !closed then PrintRow(records[0].fields)
    else PrintRow(records[0].fields) + BreakText(records[0].ending) + Print(records[1..], closed)
  }

  function FieldTexts(fields: seq<Field>): Row {
    seq(|fields|, i requires 0 <= i < |fields| => fields[i].text)
  }

  function RowsOf(records: seq<Record>): seq<Row> {
    seq(|records|, i requires 0 <= i < |records| => FieldTexts(records[i].fields))
  }

  // ---------------------------------------------------------------- the round trip

  lemma {:induction false} ParsePlain(text: string, rest: string, s: Scan)
    requires !MustEnclose(text) && !s.quoted
    ensures Parse(text + rest, s) == Parse(rest, s.(value := s.value + text))
  {
    if text == "" {
      assert text + rest == rest && s.value + text == s.value;
    } else {
      assert text[0] in text;
      assert (text + rest)[1..] == text[1..] + rest;
      ParsePlain(text[1..], rest, s.(value := s.value + [text[0]]));
      assert s.value + [text[0]] + text[1..] == s.value + text;
    }
  }

  lemma {:induction false} ParseEscaped(text: string, rest: string, s: Scan)
    requires s.quoted && (rest == "" || rest[0] != QUOTE)
    ensures Parse(Escaped(text) + [QUOTE] + rest, s) == Parse(rest, s.(value := s.value + text, quoted := false))
  {
    var source := Escaped(text) + [QUOTE] + rest;
    if text == "" {
      assert source == [QUOTE] + rest && s.value + text == s.value;
      assert source[1..] == rest;
    } else {
      var tail := Escaped(text[1..]) + [QUOTE] + rest;
      ParseEscaped(text[1..], rest, s.(value := s.value + [text[0]]));
      assert s.value + [text[0]] + text[1..] == s.value + text;
      if text[0] == QUOTE {
        assert source == [QUOTE, QUOTE] + tail;
        assert source[2..] == tail;
      } else {
        assert source == [text[0]] + tail;
        assert source[1..] == tail;
      }
    }
  }

  /** What may follow a field: the end, a comma or a line break. */
  predicate Ends(rest: string) {
    rest == "" || rest[0] == COMMA || rest[0] == CR || rest[0] == LF
  }

  lemma ParseField(f: Field, rest: string, rows: seq<Row>, row: Row)
    requires Ends(rest)
    ensures Parse(PrintField(f) + rest, Scan(rows, row, "", false)) == Parse(rest, Scan(rows, row, f.text, false))
  {
    var s := Scan(rows, row, "", false);
    assert "" + f.text == f.text;
    if f.enclosed || MustEnclose(f.text) {
      var body := Escaped(f.text) + [QUOTE] + rest;
      assert PrintField(f) + rest == [QUOTE] + body;
      assert ([QUOTE] + body)[1..] == body;
      ParseEscaped(f.text, rest, s.(quoted := true));
    } else {
      ParsePlain(f.text, rest, s);
    }
  }

  lemma ParseComma(tail: string, s: Scan)
    requires !s.quoted
    ensures Parse([COMMA] + tail, s) == Parse(tail, s.(row := s.row + [s.value], value := ""))
  {
  }

  /** Where the automaton stands after the fields of a row. */
  function AfterFields(fields: seq<Field>, rows: seq<Row>, row: Row): Scan
    requires fields != []
  {
    if |fields| == 1 then Scan(rows, row, fields[0].text, false)
    else AfterFields(fields[1..], rows, row + [fields[0].text])
  }

  lemma {:induction false} AfterFieldsIs(fields: seq<Field>, rows: seq<Row>, row: Row)
    requires fields != []
    ensures var s := AfterFields(fields, rows, row);
            s.rows == rows && s.row + [s.value] == row + FieldTexts(fields) && !s.quoted
            && |s.row| == |row| + |fields| - 1
  {
    if |fields| > 1 {
      AfterFieldsIs(fields[1..], rows, row + [fields[0].text]);
      assert row + [fields[0].text] + FieldTexts(fields[1..]) == row + FieldTexts(fields);
    } else {
      assert FieldTexts(fields) == [fields[0].text];
    }
  }

  lemma {:induction false} ParseRow(fields: seq<Field>, rest: string, rows: seq<Row>, row: Row)
    requires fields != [] && (rest == "" || rest[0] == CR || rest[0] == LF)
    ensures Parse(PrintRow(fields) + rest, Scan(rows, row, "", false)) == Parse(rest, AfterFields(fields, rows, row))
  {
    hide Parse, PrintField;
    var first := fields[0];
    if |fields| == 1 {
      ParseField(first, rest, rows, row);
    } else {
      var tail := PrintRow(fields[1..]) + rest;
      assert PrintRow(fields) + rest == PrintField(first) + ([COMMA] + tail);
      ParseField(first, [COMMA] + tail, rows, row);
      ParseComma(tail, Scan(rows, row, first.text, false));
      ParseRow(fields[1..], rest, rows, row + [first.text]);
    }
  }

  /** A record with a field that shows on paper; a single empty field without quotes is an empty line. */
  predicate Visible(fields: seq<Field>) {
    fields != [] && (|fields| == 1 ==> fields[0].enclosed || fields[0].text != "")
  }

  predicate Printable(records: seq<Record>) {
    forall r | r in records :: Visible(r.fields)
  }

  lemma FirstIsNotLf(records: seq<Record>, closed: bool)
    requires Printable(records)
    ensures Print(records, closed) == "" || Print(records, closed)[0] != LF
  {
    if records != [] {
      var fields := records[0].fields;
      assert records[0] in records;
      RowStartsWell(fields);
      assert Print(records, closed)[0] == PrintRow(fields)[0];
    }
  }

  lemma RowStartsWell(fields: seq<Field>)
    requires Visible(fields)
    ensures PrintRow(fields) != "" && PrintRow(fields)[0] != LF
  {
    var first := fields[0];
    if first.text != "" {
      assert first.text[0] in first.text;
    }
  }

  lemma LastRowKept(texts: Row)
    requires |texts| == 1 && texts[0] == ""
    ensures !NonBlank(texts)
  {
    EmptyTextIsEmpty();
  }

  lemma EmptyTextIsEmpty()
    ensures Text("") == ""
  {
  }

  lemma ParseBreak(b: LineBreak, rest: string, s: Scan)
    requires !s.quoted && (rest == "" || rest[0] != LF)
    ensures Parse(BreakText(b) + rest, s) == Parse(rest, Scan(WithRow(s.rows, s.row + [s.value]), [], "", false))
  {
    hide WithRow;
    var source := BreakText(b) + rest;
    match b
    case BreakLf => assert source[0] == LF && source[1..] == rest;
    case BreakCr => assert source[0] == CR && source[1..] == rest;
    case BreakCrLf => assert source[0] == CR && source[1] == LF && source[2..] == rest;
  }

  /** A record followed by a break is one more row, if it is not blank. */
  lemma ParseClosed(r: Record, rest: string, rows: seq<Row>)
    requires Visible(r.fields) && (rest == "" || rest[0] != LF)
    ensures Parse(PrintRow(r.fields) + BreakText(r.ending) + rest, Scan(rows, [], "", false))
            == Parse(rest, Scan(WithRow(rows, FieldTexts(r.fields)), [], "", false))
  {
    hide NonBlank, Parse, PrintRow, FieldTexts, WithRow, Visible;
    VisibleHasField(r.fields);
    var texts := FieldTexts(r.fields);
    assert [] + texts == texts;
    assert PrintRow(r.fields) + (BreakText(r.ending) + rest) == PrintRow(r.fields) + BreakText(r.ending) + rest;
    ParseRow(r.fields, BreakText(r.ending) + rest, rows, []);
    AfterFieldsIs(r.fields, rows, []);
    ParseBreak(r.ending, rest, AfterFields(r.fields, rows, []));
  }

  lemma VisibleHasField(fields: seq<Field>)
    requires Visible(fields)
    ensures fields != []
  {
  }

  /** So is a last record without one. */
  lemma ParseOpen(fields: seq<Field>, rows: seq<Row>)
    requires Visible(fields)
    ensures Finish(Parse(PrintRow(fields), Scan(rows, [], "", false))) == WithRow(rows, FieldTexts(fields))
  {
    var texts := FieldTexts(fields);
    assert [] + texts == texts;
    assert PrintRow(fields) + "" == PrintRow(fields);
    ParseRow(fields, "", rows, []);
    AfterFieldsIs(fields, rows, []);
    if |texts| == 1 && texts[0] == "" {
      LastRowKept(texts);
    }
  }

  /** The records that show something in some cell. */
  function ShownRows(records: seq<Record>): seq<Row> {
    Filter(NonBlank, RowsOf(records))
  }

  lemma ShownNext(records: seq<Record>, rows: seq<Row>)
    requires records != []
    ensures WithRow(rows, FieldTexts(records[0].fields)) + ShownRows(records[1..]) == rows + ShownRows(records)
  {
    hide NonBlank;
    assert RowsOf(records)[1..] == RowsOf(records[1..]) && RowsOf(records)[0] == FieldTexts(records[0].fields);
  }

  lemma {:induction false} ParseRecords(records: seq<Record>, closed: bool, rows: seq<Row>)
    requires Printable(records)
    ensures Finish(Parse(Print(records, closed), Scan(rows, [], "", false))) == rows + ShownRows(records)
  {
    if records == [] {
      assert rows + ShownRows(records) == rows;
    } else {
      hide NonBlank, Parse, Visible, WithRow, ShownRows;
      var r := records[0];
      assert r in records;
      var more := WithRow(rows, FieldTexts(r.fields));
      ShownNext(records, rows);
      if |records| == 1 && !closed {
        ParseOpen(r.fields, rows);
        NoneShown(records[1..]);
        assert more + [] == more;
      } else {
        FirstIsNotLf(records[1..], closed);
        ParseClosed(r, Print(records[1..], closed), rows);
        ParseRecords(records[1..], closed, more);
      }
    }
  }

  lemma NoneShown(records: seq<Record>)
    requires records == []
    ensures ShownRows(records) == []
  {
  }

  /** The text in letters of either case. */
  predicate Spells(text: string, lower: string, upper: string)
    requires |lower| == |upper|
  {
    |text| == |lower| && forall i | 0 <= i < |text| :: text[i] == lower[i] || text[i] == upper[i]
  }

  /** A byte order mark is white space, so dropping it first makes no difference. */
  lemma TextIsTrimmed(s: string)
    ensures Text(s) == Trim(s)
  {
  }

  lemma LowerSpells(text: string, lower: string, upper: string)
    requires |lower| == |upper|
    requires forall i | 0 <= i < |lower| ::
               if 'a' <= lower[i] <= 'z' then upper[i] as int == lower[i] as int - 32
               else upper[i] == lower[i] && !('A' <= lower[i] <= 'Z')
    ensures LowerAll(text) == lower <==> Spells(text, lower, upper)
  {
    if |text| == |lower| {
      forall i | 0 <= i < |text|
        ensures LowerAll(text)[i] == lower[i] <==> text[i] == lower[i] || text[i] == upper[i]
      {
      }
    }
  }

  /** The cell, trimmed, is one of the two names a header must have, in letters of either case. */
  predicate NamesColumn(cell: string) {
    Spells(Trim(cell), "name", "NAME") || Spells(Trim(cell), "addon_group_name", "ADDON_GROUP_NAME")
  }

  ghost predicate NamesColumns(row: Row) {
    exists cell | cell in row :: NamesColumn(cell)
  }

  lemma SchemaCellNames(cell: string)
    ensures IsSchemaCell(cell) <==> NamesColumn(cell)
  {
    hide Spells, LowerAll, Text, Trim;
    TextIsTrimmed(cell);
    LowerSpells(Trim(cell), "name", "NAME");
    LowerSpells(Trim(cell), "addon_group_name", "ADDON_GROUP_NAME");
  }

  lemma SchemaRowNames(row: Row)
    ensures IsSchemaRow(row) <==> NamesColumns(row)
  {
    hide IsSchemaCell, NamesColumn;
    forall cell | cell in row
      ensures IsSchemaCell(cell) <==> NamesColumn(cell)
    {
      SchemaCellNames(cell);
    }
  }

  /** The place of the header: the first row that names columns, and the first of all where there is none. */
  ghost predicate HeaderAt(rows: seq<Row>, h: nat) {
    && h < |rows|
    && if exists row | row in rows :: NamesColumns(row)
       then NamesColumns(rows[h]) && forall k | 0 <= k < h :: !NamesColumns(rows[k])
       else h == 0
  }

  lemma HeaderFound(rows: seq<Row>, h: nat)
    requires HeaderAt(rows, h)
    ensures ToTable(rows) == Table(Texts(rows[h]), rows[h + 1..])
  {
    hide IsSchemaRow, NamesColumns;
    forall row | row in rows
      ensures IsSchemaRow(row) <==> NamesColumns(row)
    {
      SchemaRowNames(row);
    }
    var i := SchemaIndex(rows);
    if i < |rows| {
      assert rows[i] in rows && i <= h;
    } else {
      forall row | row in rows
        ensures !NamesColumns(row)
      {
        var k :| 0 <= k < |rows| && rows[k] == row;
      }
    }
  }

  /** Each cell trimmed. */
  ghost predicate TrimmedCells(row: Row, cells: Row) {
    |cells| == |row| && forall k | 0 <= k < |row| :: cells[k] == Trim(row[k])
  }

  lemma TextsAreTrimmed(row: Row)
    ensures TrimmedCells(row, Texts(row))
  {
    forall k | 0 <= k < |row|
      ensures Texts(row)[k] == Trim(row[k])
    {
      TextIsTrimmed(row[k]);
    }
  }

  /**
   The parser undoes the printer: whatever is enclosed in quotes, whichever breaks separate the records,
   and whether or not the last one is closed by a break, the rows that show something come back as they
   were, those in front of the header left out, and the headers trimmed.
   */
  lemma RoundTrip(records: seq<Record>, closed: bool, h: nat)
    requires Printable(records) && HeaderAt(ShownRows(records), h)
    ensures var table := ToTable(Finish(Parse(Print(records, closed), Start())));
            TrimmedCells(ShownRows(records)[h], table.headers) && table.rows == ShownRows(records)[h + 1..]
  {
    ParseRecords(records, closed, []);
    var rows := ShownRows(records);
    assert [] + rows == rows;
    HeaderFound(rows, h);
    TextsAreTrimmed(rows[h]);
  }

  /** And a file without a row that shows something is an empty table. */
  lemma NothingShown(records: seq<Record>, closed: bool)
    requires Printable(records) && forall r | r in records :: !NonBlank(FieldTexts(r.fields))
    ensures ToTable(Finish(Parse(Print(records, closed), Start()))) == Table([], [])
  {
    ParseRecords(records, closed, []);
    FilterNone(NonBlank, RowsOf(records));
  }

  // ---------------------------------------------------------------- the order import's automaton

  datatype Line = Line(values: Row, value: string, quoted: bool)

  function ReadLine(line: string, l: Line): Line
    decreases |line|
  {
    if line == "" then l
    else
      var c := line[0];
      if c == QUOTE then
        if l.quoted && |line| > 1 && line[1] == QUOTE then ReadLine(line[2..], l.(value := l.value + [QUOTE]))
        else ReadLine(line[1..], l.(quoted := !l.quoted))
      else if c == COMMA && !l.quoted then ReadLine(line[1..], l.(values := l.values + [Trim(l.value)], value := ""))
      else ReadLine(line[1..], l.(value := l.value + [c]))
  }

  datatype CsvError = UnclosedQuotedValue

  function LineValues(line: string): Result<Row, CsvError> {
    var end := ReadLine(line, Line([], "", false));
    if end.quoted then Err(UnclosedQuotedValue) else Ok(end.values + [Trim(end.value)])
  }

  method ParseLine(line: string) returns (r: Result<Row, CsvError>)
    ensures r == LineValues(line)
  {
    var values: Row := [];
    var value := "";
    var quoted := false;
    var index := 0;
    while index < |line|
      invariant 0 <= index <= |line|
      invariant ReadLine(line[index..], Line(values, value, quoted)) == ReadLine(line, Line([], "", false))
    {
      var c := line[index];
      var hasNext := index + 1 < |line|;
      assert line[index..][1..] == line[index + 1..];
      assert hasNext ==> line[index..][2..] == line[index + 2..];
      if c == QUOTE {
        if quoted && hasNext && line[index + 1] == QUOTE {
          value := value + [QUOTE];
          index := index + 1;
        } else {
          quoted := !quoted;
        }
      } else if c == COMMA && !quoted {
        values := values + [Trim(value)];
        value := "";
      } else {
        value := value + [c];
      }
      index := index + 1;
    }
    assert line[|line|..] == "";
    if quoted {
      return Err(UnclosedQuotedValue);
    }
    r := Ok(values + [Trim(value)]);
  }

  function Trimmed(row: Row): Row {
    seq(|row|, i requires 0 <= i < |row| => Trim(row[i]))
  }

  predicate OneLine(line: string) {
    forall c | c in line :: c != CR && c != LF
  }

  lemma {:induction false} SameScan(line: string, s: Scan, l: Line)
    requires OneLine(line)
    requires s.rows == [] && l.values == Trimmed(s.row) && l.value == s.value && l.quoted == s.quoted
    ensures var s', l' := Parse(line, s), ReadLine(line, l);
            s'.rows == [] && l'.values == Trimmed(s'.row) && l'.value == s'.value && l'.quoted == s'.quoted
    decreases |line|
  {
    if line != "" {
      var c := line[0];
      assert c in line;
      assert forall x | x in line[1..] :: x in line;
      if c == QUOTE && s.quoted && |line| > 1 && line[1] == QUOTE {
        assert forall x | x in line[2..] :: x in line;
        SameScan(line[2..], s.(value := s.value + [QUOTE]), l.(value := l.value + [QUOTE]));
      } else if c == QUOTE {
        SameScan(line[1..], s.(quoted := !s.quoted), l.(quoted := !l.quoted));
      } else if c == COMMA && !s.quoted {
        assert Trimmed(s.row + [s.value]) == Trimmed(s.row) + [Trim(s.value)];
        SameScan(line[1..], s.(row := s.row + [s.value], value := ""),
            l.(values := l.values + [Trim(l.value)], value := ""));
      } else {
        SameScan(line[1..], s.(value := s.value + [c]), l.(value := l.value + [c]));
      }
    }
  }

  /** The raw row of a line, before any trimming. */
  function RawRow(line: string): Row {
    var s := Parse(line, Start());
    s.row + [s.value]
  }

  /**
   On one line the two automata read the same cells. They differ in three ways only: the order import
   trims every cell and refuses an unclosed quote, and the menu import skips a row that shows nothing.
   */
  lemma AutomataAgree(line: string)
    requires OneLine(line)
    ensures LineValues(line)
            == if Parse(line, Start()).quoted then Err(UnclosedQuotedValue) else Ok(Trimmed(RawRow(line)))
    ensures Finish(Parse(line, Start())) == if NonBlank(RawRow(line)) then [RawRow(line)] else []
  {
    SameScan(line, Start(), Line([], "", false));
    var s := Parse(line, Start());
    assert Trimmed(s.row + [s.value]) == Trimmed(s.row) + [Trim(s.value)];
    if s.value == "" && s.row == [] {
      assert RawRow(line) == [""];
    }
  }
}
