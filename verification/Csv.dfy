/**
 The CSV printer of the API's exports (`api/src/main.rs`) and an independent reader of its format:
 section 2 of RFC 4180, except that every record ends in a line feed and that any character other
 than comma, quote and line feed may stand in an unquoted field.
 */
module Csv {
  import opened Options
  import Text

  predicate IsSpecial(c: char) {
    c == ',' || c == '"' || c == '\n'
  }

  /** Free of the three characters that need quoting. */
  predicate Clean(s: string) {
    forall i :: 0 <= i < |s| ==> !IsSpecial(s[i])
  }

  // --- the printer --------------------------------------------------------------------------

  /** A member of an exported JSON object: a string, or the JSON text of anything else. */
  datatype Cell = Str(text: string) | Other(rendered: string)

  /** An exported JSON value by its members; a value that is not an object has none. */
  type Row = map<string, Cell>

  function CellText(row: Row, column: string): string {
    if column !in row then ""
    else match row[column] case Str(text) => text case Other(rendered) => rendered
  }

  /** `value.replace('"', "\"\"")`. */
  function Doubled(s: string): string {
    if s == [] then "" else (if s[0] == '"' then ['"', '"'] else [s[0]]) + Doubled(s[1..])
  }

  function Escape(value: string): string {
    if ',' in value || '"' in value || '\n' in value then ['"'] + Doubled(value) + ['"'] else value
  }

  function Cells(row: Row, columns: seq<string>): (cells: seq<string>)
    ensures |cells| == |columns| && forall i :: 0 <= i < |columns| ==> cells[i] == CellText(row, columns[i])
  {
    seq(|columns|, i requires 0 <= i < |columns| => CellText(row, columns[i]))
  }

  function Escaped(cells: seq<string>): (texts: seq<string>)
    ensures |texts| == |cells| && forall i :: 0 <= i < |cells| ==> texts[i] == Escape(cells[i])
  {
    seq(|cells|, i requires 0 <= i < |cells| => Escape(cells[i]))
  }

  function Line(cells: seq<string>): string {
    Text.Join(Escaped(cells), ',') + ['\n']
  }

  function Lines(rows: seq<Row>, columns: seq<string>): string {
    if rows == [] then "" else Line(Cells(rows[0], columns)) + Lines(rows[1..], columns)
  }

  function Document(rows: seq<Row>, columns: seq<string>): string {
    Text.Join(columns, ',') + ['\n'] + Lines(rows, columns)
  }

  lemma {:induction false} LinesAppend(rows: seq<Row>, row: Row, columns: seq<string>)
    ensures Lines(rows + [row], columns) == Lines(rows, columns) + Line(Cells(row, columns))
  {
    if rows == [] {
      assert (rows + [row])[1..] == [];
    } else {
      assert (rows + [row])[1..] == rows[1..] + [row];
      LinesAppend(rows[1..], row, columns);
    }
  }

  /** `values_as_csv`. */
  method ValuesAsCsv(values: seq<Row>, columns: seq<string>) returns (output: string)
    ensures output == Document(values, columns)
  {
    output := Text.Join(columns, ',');
    output := output + ['\n'];
    for n := 0 to |values|
      invariant output == Document(values[..n], columns)
    {
      var row := Text.Join(Escaped(Cells(values[n], columns)), ',');
      output := output + row;
      output := output + ['\n'];
      LinesAppend(values[..n], values[n], columns);
      assert values[..n + 1] == values[..n] + [values[n]];
    }
    assert values[..|values|] == values;
  }

  // --- the reader ---------------------------------------------------------------------------

  datatype Parsed<+T> = Parsed(value: T, rest: string)

  /** The rest of a quoted field, after its opening quote. */
  function ReadQuoted(s: string): (field: Option<Parsed<string>>)
    ensures field.Some? ==> |field.value.rest| < |s|
  {
    if s == [] then None
    else if s[0] != '"' then
      var more := ReadQuoted(s[1..]);
      if more.None? then None else Some(Parsed([s[0]] + more.value.value, more.value.rest))
    else if |s| >= 2 && s[1] == '"' then
      var more := ReadQuoted(s[2..]);
      if more.None? then None else Some(Parsed(['"'] + more.value.value, more.value.rest))
    else Some(Parsed("", s[1..]))
  }

  function ReadPlain(s: string): (field: Parsed<string>)
    ensures |field.rest| <= |s|
  {
    if s == [] || IsSpecial(s[0]) then Parsed("", s)
    else var more := ReadPlain(s[1..]); Parsed([s[0]] + more.value, more.rest)
  }

  function ReadField(s: string): (field: Option<Parsed<string>>)
    ensures field.Some? ==> |field.value.rest| <= |s|
  {
    if s != [] && s[0] == '"' then ReadQuoted(s[1..]) else Some(ReadPlain(s))
  }

  function ReadRecord(s: string): (record: Option<Parsed<seq<string>>>)
    ensures record.Some? ==> |record.value.rest| < |s|
    decreases |s|
  {
    var field := ReadField(s);
    if field.None? || field.value.rest == [] then None
    else
      var (text, rest) := (field.value.value, field.value.rest);
      if rest[0] == '\n' then Some(Parsed([text], rest[1..]))
      else if rest[0] == ',' then
        var more := ReadRecord(rest[1..]);
        if more.None? then None else Some(Parsed([text] + more.value.value, more.value.rest))
      else None
  }

  /** The records of a whole document, or nothing if it is not one. */
  function Read(s: string): Option<seq<seq<string>>>
    decreases |s|
  {
    if s == [] then Some([])
    else
      var record := ReadRecord(s);
      if record.None? then None
      else
        var more := Read(record.value.rest);
        if more.None? then None else Some([record.value.value] + more.value)
  }

  // --- reading what was printed -------------------------------------------------------------

  /** The text after a field: a separator first. */
  predicate AtSeparator(rest: string) {
    rest != [] && (rest[0] == ',' || rest[0] == '\n')
  }

  /** What reading a quoted field does with one more character in front. */
  lemma ReadQuotedStep(c: char, tail: string)
    requires ReadQuoted(tail).Some?
    ensures var more := ReadQuoted(tail).value;
            ReadQuoted((if c == '"' then ['"', '"'] else [c]) + tail) == Some(Parsed([c] + more.value, more.rest))
  {
    if c == '"' {
      assert (['"', '"'] + tail)[2..] == tail;
    } else {
      assert ([c] + tail)[1..] == tail;
    }
  }

  lemma DoubledStep(s: string, rest: string)
    requires s != []
    ensures Doubled(s) + rest == (if s[0] == '"' then ['"', '"'] else [s[0]]) + (Doubled(s[1..]) + rest)
  {
  }

  lemma {:induction false} ReadDoubled(s: string, rest: string)
    requires AtSeparator(rest)
    ensures ReadQuoted(Doubled(s) + ['"'] + rest) == Some(Parsed(s, rest))
  {
    var close := ['"'] + rest;
    assert Doubled(s) + ['"'] + rest == Doubled(s) + close;
    if s == [] {
      assert Doubled(s) + close == close && close[1..] == rest;
    } else {
      var tail := Doubled(s[1..]) + close;
      assert tail == Doubled(s[1..]) + ['"'] + rest;
      ReadDoubled(s[1..], rest);
      ReadQuotedStep(s[0], tail);
      DoubledStep(s, close);
      assert s == [s[0]] + s[1..];
    }
  }

  lemma {:induction false} ReadClean(s: string, rest: string)
    requires Clean(s) && AtSeparator(rest)
    ensures ReadPlain(s + rest) == Parsed(s, rest)
  {
    if s == [] {
      assert s + rest == rest;
    } else {
      ReadClean(s[1..], rest);
      assert (s + rest)[1..] == s[1..] + rest && [s[0]] + s[1..] == s;
    }
  }

  lemma ReadEscaped(s: string, rest: string)
    requires AtSeparator(rest)
    ensures ReadField(Escape(s) + rest) == Some(Parsed(s, rest))
  {
    if Clean(s) {
      assert Escape(s) == s;
      ReadClean(s, rest);
      assert s + rest != [] && (s + rest)[0] != '"';
    } else {
      ReadInQuotes(s, rest);
    }
  }

  lemma ReadInQuotes(s: string, rest: string)
    requires AtSeparator(rest)
    ensures ReadField((['"'] + Doubled(s) + ['"']) + rest) == Some(Parsed(s, rest))
  {
    ReadDoubled(s, rest);
    ReadOpening(Doubled(s) + ['"'] + rest);
    QuotesAround(Doubled(s), rest);
  }

  lemma QuotesAround(text: string, rest: string)
    ensures (['"'] + text + ['"']) + rest == ['"'] + (text + ['"'] + rest)
  {
  }

  lemma ReadOpening(inner: string)
    ensures ReadField(['"'] + inner) == ReadQuoted(inner)
  {
    assert (['"'] + inner)[1..] == inner;
  }

  /** The last field of a record. */
  lemma ReadLast(cell: string, rest: string)
    ensures ReadRecord(Escape(cell) + (['\n'] + rest)) == Some(Parsed([cell], rest))
  {
    ReadEscaped(cell, ['\n'] + rest);
    assert (['\n'] + rest)[1..] == rest;
  }

  /** A field before others. */
  lemma ReadNext(cell: string, tail: string)
    requires ReadRecord(tail).Some?
    ensures var more := ReadRecord(tail).value;
            ReadRecord(Escape(cell) + ([','] + tail)) == Some(Parsed([cell] + more.value, more.rest))
  {
    ReadEscaped(cell, [','] + tail);
    assert ([','] + tail)[1..] == tail;
  }

  lemma LineOfOne(cells: seq<string>, rest: string)
    requires |cells| == 1
    ensures Line(cells) + rest == Escape(cells[0]) + (['\n'] + rest)
  {
  }

  lemma LineOfMore(cells: seq<string>, rest: string)
    requires |cells| > 1
    ensures Line(cells) + rest == Escape(cells[0]) + ([','] + (Line(cells[1..]) + rest))
  {
    var texts := Escaped(cells);
    assert texts[1..] == Escaped(cells[1..]);
    assert Text.Join(texts, ',') == texts[0] + [','] + Text.Join(texts[1..], ',');
  }

  lemma {:induction false} ReadLine(cells: seq<string>, rest: string)
    requires cells != []
    ensures ReadRecord(Line(cells) + rest) == Some(Parsed(cells, rest))
    decreases |cells|
  {
    if |cells| == 1 {
      LineOfOne(cells, rest);
      ReadLast(cells[0], rest);
      assert [cells[0]] == cells;
    } else {
      LineOfMore(cells, rest);
      ReadLine(cells[1..], rest);
      ReadNext(cells[0], Line(cells[1..]) + rest);
      assert [cells[0]] + cells[1..] == cells;
    }
  }

  /** The cell texts that the document should carry. */
  function Content(rows: seq<Row>, columns: seq<string>): (content: seq<seq<string>>)
    ensures |content| == |rows| && forall i :: 0 <= i < |rows| ==> content[i] == Cells(rows[i], columns)
  {
    if rows == [] then [] else [Cells(rows[0], columns)] + Content(rows[1..], columns)
  }

  lemma {:induction false} ReadLines(rows: seq<Row>, columns: seq<string>)
    requires columns != []
    ensures Read(Lines(rows, columns)) == Some(Content(rows, columns))
  {
    if rows != [] {
      ReadLine(Cells(rows[0], columns), Lines(rows[1..], columns));
      ReadLines(rows[1..], columns);
    }
  }

  // --- column names that need quoting -------------------------------------------------------

  function LeadingQuotes(s: string): nat {
    if s != [] && s[0] == '"' then 1 + LeadingQuotes(s[1..]) else 0
  }

  lemma {:induction false} LeadingQuotesBefore(s: string, rest: string)
    requires AtSeparator(rest)
    ensures LeadingQuotes(s + rest) == LeadingQuotes(s)
  {
    if s == [] {
      assert s + rest == rest;
    } else {
      assert (s + rest)[1..] == s[1..] + rest;
      LeadingQuotesBefore(s[1..], rest);
    }
  }

  lemma OneMoreQuote(rest: string)
    ensures LeadingQuotes(['"'] + rest) == 1 + LeadingQuotes(rest)
  {
    assert (['"'] + rest)[1..] == rest;
  }

  lemma {:induction false} LeadingQuotesDoubled(s: string, rest: string)
    ensures LeadingQuotes(Doubled(s) + rest) >= 2 * LeadingQuotes(s)
  {
    if s != [] && s[0] == '"' {
      var tail := Doubled(s[1..]) + rest;
      DoubledStep(s, rest);
      assert ['"', '"'] + tail == ['"'] + (['"'] + tail);
      OneMoreQuote(['"'] + tail);
      OneMoreQuote(tail);
      LeadingQuotesDoubled(s[1..], rest);
    }
  }

  /** What a quoted field is read from. */
  lemma {:induction false} QuotedSource(s: string)
    ensures var field := ReadQuoted(s);
            field.Some? ==> s == Doubled(field.value.value) + ['"'] + field.value.rest
    decreases |s|
  {
    var field := ReadQuoted(s);
    if field.Some? {
      if s[0] != '"' {
        QuotedSource(s[1..]);
        assert field.value.value[1..] == ReadQuoted(s[1..]).value.value;
        assert s == [s[0]] + s[1..];
      } else if |s| >= 2 && s[1] == '"' {
        QuotedSource(s[2..]);
        assert field.value.value[1..] == ReadQuoted(s[2..]).value.value;
        assert s == ['"', '"'] + s[2..];
      } else {
        assert s == ['"'] + s[1..];
      }
    }
  }

  lemma {:induction false} PlainIsClean(s: string)
    ensures Clean(ReadPlain(s).value)
  {
    if s != [] && !IsSpecial(s[0]) { PlainIsClean(s[1..]); }
  }

  /** A name that needs quoting and is printed without is never read back. */
  lemma DirtyIsLost(name: string, rest: string)
    requires !Clean(name) && AtSeparator(rest)
    ensures var field := ReadField(name + rest); field.Some? ==> field.value.value != name
  {
    var text := name + rest;
    if text[0] == '"' {
      var field := ReadQuoted(text[1..]);
      if field.Some? && field.value.value == name {
        QuotedSource(text[1..]);
        LeadingQuotesDoubled(name, ['"'] + field.value.rest);
        assert text[1..] == Doubled(name) + (['"'] + field.value.rest);
        LeadingQuotesBefore(name, rest);
        assert false;
      }
    } else {
      PlainIsClean(text);
    }
  }

  lemma {:induction false} DirtyHeaderIsLost(columns: seq<string>, rest: string)
    requires columns != [] && exists i :: 0 <= i < |columns| && !Clean(columns[i])
    ensures var record := ReadRecord(Text.Join(columns, ',') + ['\n'] + rest);
            record.Some? ==> record.value.value != columns
    decreases |columns|
  {
    var tail := HeaderTail(columns, rest);
    HeaderText(columns, rest);
    if !Clean(columns[0]) {
      DirtyIsLost(columns[0], tail);
    } else {
      var i :| 0 <= i < |columns| && !Clean(columns[i]);
      assert columns[1..][i - 1] == columns[i];
      DirtyHeaderIsLost(columns[1..], rest);
      CleanFirst(columns[0], Text.Join(columns[1..], ',') + ['\n'] + rest);
    }
  }

  /** The text of a header after its first name. */
  function HeaderTail(columns: seq<string>, rest: string): (tail: string)
    requires columns != []
    ensures AtSeparator(tail)
  {
    if |columns| == 1 then ['\n'] + rest else [','] + (Text.Join(columns[1..], ',') + ['\n'] + rest)
  }

  lemma HeaderText(columns: seq<string>, rest: string)
    requires columns != []
    ensures Text.Join(columns, ',') + ['\n'] + rest == columns[0] + HeaderTail(columns, rest)
  {
  }

  /** A clean first name is read as it is, and the other names after it. */
  lemma CleanFirst(name: string, others: string)
    requires Clean(name)
    ensures var record := ReadRecord(name + ([','] + others));
            record.Some? ==>
              ReadRecord(others).Some? && record.value.value == [name] + ReadRecord(others).value.value
  {
    var text, tail := name + ([','] + others), [','] + others;
    ReadClean(name, tail);
    assert text[0] != '"';
    assert ReadField(text) == Some(Parsed(name, tail));
    assert tail[1..] == others;
  }

  lemma CleanHeader(columns: seq<string>)
    requires forall i :: 0 <= i < |columns| ==> Clean(columns[i])
    ensures Escaped(columns) == columns
  {
  }

  /**
   The round trip, exactly: the printed document reads back as the header and every cell text if and
   only if there is a column and no column name holds a comma, a quote or a line feed. The cell texts
   are unrestricted.
   */
  lemma RoundTrip(rows: seq<Row>, columns: seq<string>)
    ensures Read(Document(rows, columns)) == Some([columns] + Content(rows, columns))
            <==> columns != [] && forall i :: 0 <= i < |columns| ==> Clean(columns[i])
  {
    var text, rest := Document(rows, columns), Lines(rows, columns);
    if columns == [] {
      assert text == ['\n'] + rest;
      assert ReadRecord(text) == Some(Parsed([""], text[1..]));
      var read := Read(text);
      if read.Some? {
        assert read.value[0] == [""];
      }
    } else if i :| 0 <= i < |columns| && !Clean(columns[i]) {
      DirtyHeaderIsLost(columns, rest);
      var read := Read(text);
      if read.Some? {
        assert read.value[0] == ReadRecord(text).value.value;
      }
    } else {
      CleanHeader(columns);
      assert text == Line(columns) + rest;
      ReadLine(columns, rest);
      ReadLines(rows, columns);
    }
  }

  /** Two exports with the same text carry the same cells. */
  lemma DocumentDeterminesCells(rows: seq<Row>, others: seq<Row>, columns: seq<string>)
    requires columns != [] && Document(rows, columns) == Document(others, columns)
    ensures Content(rows, columns) == Content(others, columns)
  {
    var header := Text.Join(columns, ',') + ['\n'];
    assert Document(rows, columns)[|header|..] == Lines(rows, columns);
    assert Document(others, columns)[|header|..] == Lines(others, columns);
    ReadLines(rows, columns);
    ReadLines(others, columns);
  }

  /**
   What a reader gets from an export with good column names, cell by cell: nothing for a member that the
   value does not have, the text of a string as it is, and the JSON text of anything else.
   */
  lemma ExportTells(rows: seq<Row>, columns: seq<string>, r: nat, c: nat)
    requires columns != [] && forall i :: 0 <= i < |columns| ==> Clean(columns[i])
    requires r < |rows| && c < |columns|
    ensures var read := Read(Document(rows, columns));
            && read.Some? && |read.value| == |rows| + 1 && read.value[0] == columns
            && |read.value[r + 1]| == |columns|
            && var cell := read.value[r + 1][c];
            && (columns[c] !in rows[r] ==> cell == "")
            && (forall text :: columns[c] in rows[r] && rows[r][columns[c]] == Str(text) ==> cell == text)
            && (forall json :: columns[c] in rows[r] && rows[r][columns[c]] == Other(json) ==> cell == json)
  {
    RoundTrip(rows, columns);
  }

  /** Quoting is kept to what needs it: a text is printed as it is exactly if it holds none of the three characters. */
  lemma QuotedExactlyWhen(text: string)
    ensures Escape(text) == text <==> ',' !in text && '"' !in text && '\n' !in text
    ensures Escape(text) != text ==> |Escape(text)| >= |text| + 2 && Escape(text)[0] == '"'
  {
    DoubledIsLonger(text);
  }

  lemma {:induction false} DoubledIsLonger(s: string)
    ensures |Doubled(s)| >= |s|
  {
    if s != [] { DoubledIsLonger(s[1..]); }
  }
}
