/** The CSV export of the image audit (`toCsv`): every field is quoted with
    its inner quotes doubled, fields are separated by commas and lines by a
    line feed. A reader for that format is given alongside, and the export
    is proved to read back as the header and the fields of every row. */
module DiagnosticsCsv {
  import opened Text
  import opened Diagnostics

  /** The column names of the export, in order. */
  const Header: seq<string> :=
    ["id", "italian_name", "polish_name", "category", "image", "status", "details", "absolute_url"]

  /** Every `"` doubled (the global replace in `escape`). */
  function DoubleQuotes(s: string): string
  {
    if s == [] then []
    else (if s[0] == '"' then "\"\"" else [s[0]]) + DoubleQuotes(s[1..])
  }

  /** `escape`: the field in double quotes, inner quotes doubled. */
  function Escape(s: string): string
  {
    "\"" + DoubleQuotes(s) + "\""
  }

  function EscapeAll(fields: seq<string>): (r: seq<string>)
    ensures |r| == |fields|
  {
    if fields == [] then [] else [Escape(fields[0])] + EscapeAll(fields[1..])
  }

  /** One CSV line: the escaped fields joined by commas. */
  function Line(fields: seq<string>): string
  {
    Join(",", EscapeAll(fields))
  }

  /** The eight values `toCsv` writes for a row, in column order; the id as
      `String` writes a number. */
  function CsvFields(row: Row): (f: seq<string>)
    ensures |f| == |Header|
  {
    [IntToString(row.id), row.it, row.pl, row.category, row.image, StatusLabel(row.status), row.details, row.abs]
  }

  /** The fields of every row, in row order. */
  function RowFields(rows: seq<Row>): (r: seq<seq<string>>)
    ensures |r| == |rows|
  {
    if rows == [] then [] else RowFields(rows[..|rows| - 1]) + [CsvFields(rows[|rows| - 1])]
  }

  /** The CSV line of each field list. */
  function Lines(records: seq<seq<string>>): (r: seq<string>)
    ensures |r| == |records|
  {
    if records == [] then [] else [Line(records[0])] + Lines(records[1..])
  }

  lemma {:induction false} LinesSnoc(records: seq<seq<string>>, last: seq<string>)
    ensures Lines(records + [last]) == Lines(records) + [Line(last)]
  {
    if records == [] {
      assert [] + [last] == [last];
    } else {
      LinesSnoc(records[1..], last);
      assert (records + [last])[1..] == records[1..] + [last];
    }
  }

  /** The exported text: the header line, then one line per row. */
  function CsvText(rows: seq<Row>): string
  {
    Join("\n", Lines([Header] + RowFields(rows)))
  }

  /** One more row adds its line at the end. */
  lemma ExportLinesSnoc(rows: seq<Row>, i: nat)
    requires i < |rows|
    ensures Lines([Header] + RowFields(rows[..i + 1])) == Lines([Header] + RowFields(rows[..i])) + [Line(CsvFields(rows[i]))]
  {
    assert rows[..i + 1][..i] == rows[..i];
    assert [Header] + RowFields(rows[..i + 1]) == ([Header] + RowFields(rows[..i])) + [CsvFields(rows[i])];
    LinesSnoc([Header] + RowFields(rows[..i]), CsvFields(rows[i]));
  }

  /** `toCsv`: pushes the header line and then a line per row onto `lines`
      and joins them with line feeds. */
  method ToCsv(rows: seq<Row>) returns (text: string)
    ensures text == CsvText(rows)
  {
    var lines := [Line(Header)];
    var i := 0;
    while i < |rows|
      invariant 0 <= i <= |rows|
      invariant lines == Lines([Header] + RowFields(rows[..i]))
    {
      ExportLinesSnoc(rows, i);
      lines := lines + [Line(CsvFields(rows[i]))];
      i := i + 1;
    }
    assert rows[..i] == rows;
    text := Join("\n", lines);
  }

  // ---------------------------------------------------------------------
  // Reading the format back
  // ---------------------------------------------------------------------

  /** The rest of a quoted field after its opening quote: `""` stands for
      one quote and a lone `"` closes the field. Gives the text and what
      follows the closing quote, or nothing if the field is never closed. */
  function ReadQuotedBody(s: string): (r: Option<(string, string)>)
    ensures r.Some? ==> |r.value.1| < |s|
  {
    if s == [] then None
    else if s[0] == '"' then
      if |s| >= 2 && s[1] == '"' then
        match ReadQuotedBody(s[2..])
        case None => None
        case Some(p) => Some(("\"" + p.0, p.1))
      else Some(("", s[1..]))
    else
      match ReadQuotedBody(s[1..])
      case None => None
      case Some(p) => Some(([s[0]] + p.0, p.1))
  }

  /** A quoted field at the start of s. */
  function ReadField(s: string): (r: Option<(string, string)>)
    ensures r.Some? ==> |r.value.1| < |s|
  {
    if s != [] && s[0] == '"' then ReadQuotedBody(s[1..]) else None
  }

  /** Quoted fields separated by commas, up to the first character after a
      field that is not a comma. */
  function ReadRecord(s: string): (r: Option<(seq<string>, string)>)
    decreases |s|
    ensures r.Some? ==> |r.value.1| < |s|
  {
    match ReadField(s)
    case None => None
    case Some(p) =>
      if p.1 != [] && p.1[0] == ',' then
        match ReadRecord(p.1[1..])
        case None => None
        case Some(q) => Some(([p.0] + q.0, q.1))
      else Some(([p.0], p.1))
  }

  /** Records separated by line feeds, up to the end of the text. */
  function ReadRecords(s: string): Option<seq<seq<string>>>
    decreases |s|
  {
    match ReadRecord(s)
    case None => None
    case Some(p) =>
      if p.1 == [] then Some([p.0])
      else if p.1[0] == '\n' then
        match ReadRecords(p.1[1..])
        case None => None
        case Some(more) => Some([p.0] + more)
      else None
  }

  /** Unquoting a text whose quotes are doubled gives it back, and stops
      right after the closing quote. */
  lemma {:induction false} ReadQuotedBodyDoubled(x: string, rest: string)
    requires rest == [] || rest[0] != '"'
    ensures ReadQuotedBody(DoubleQuotes(x) + "\"" + rest) == Some((x, rest))
  {
    if x == [] {
      assert DoubleQuotes(x) + "\"" + rest == "\"" + rest;
    } else {
      ReadQuotedBodyDoubled(x[1..], rest);
      var tail := DoubleQuotes(x[1..]) + "\"" + rest;
      if x[0] == '"' {
        assert DoubleQuotes(x) + "\"" + rest == "\"\"" + tail;
        assert x == "\"" + x[1..];
      } else {
        assert DoubleQuotes(x) + "\"" + rest == [x[0]] + tail;
        assert x == [x[0]] + x[1..];
      }
    }
  }

  /** `escape` is undone by the reader: unquoting recovers the original
      string, whatever quotes, commas or line feeds it holds. */
  lemma EscapeReadsBack(x: string, rest: string)
    requires rest == [] || rest[0] != '"'
    ensures ReadField(Escape(x) + rest) == Some((x, rest))
  {
    ReadQuotedBodyDoubled(x, rest);
    assert Escape(x) + rest == "\"" + (DoubleQuotes(x) + "\"" + rest);
  }

  lemma ReadRecordCons(s: string, first: string, t: string, more: seq<string>, rest: string)
    requires ReadField(s) == Some((first, "," + t))
    requires ReadRecord(t) == Some((more, rest))
    ensures ReadRecord(s) == Some(([first] + more, rest))
  {
    assert ("," + t)[1..] == t;
  }

  lemma JoinFields(fields: seq<string>, rest: string)
    requires |fields| >= 2
    ensures Line(fields) + rest == Escape(fields[0]) + ("," + (Line(fields[1..]) + rest))
  {
    assert EscapeAll(fields)[1..] == EscapeAll(fields[1..]);
    assert Line(fields) == Escape(fields[0]) + "," + Line(fields[1..]);
  }

  /** A line of escaped fields reads back as those fields. */
  lemma {:induction false} LineReadsBack(fields: seq<string>, rest: string)
    requires fields != []
    requires rest == [] || (rest[0] != ',' && rest[0] != '"')
    ensures ReadRecord(Line(fields) + rest) == Some((fields, rest))
  {
    if |fields| == 1 {
      assert Line(fields) == Escape(fields[0]);
      EscapeReadsBack(fields[0], rest);
      assert fields == [fields[0]];
    } else {
      var tail := Line(fields[1..]) + rest;
      JoinFields(fields, rest);
      EscapeReadsBack(fields[0], "," + tail);
      LineReadsBack(fields[1..], rest);
      ReadRecordCons(Line(fields) + rest, fields[0], tail, fields[1..], rest);
      assert fields == [fields[0]] + fields[1..];
    }
  }

  lemma ReadRecordsCons(s: string, first: seq<string>, t: string, more: seq<seq<string>>)
    requires ReadRecord(s) == Some((first, "\n" + t))
    requires ReadRecords(t) == Some(more)
    ensures ReadRecords(s) == Some([first] + more)
  {
    assert ("\n" + t)[1..] == t;
  }

  lemma JoinLines(records: seq<seq<string>>)
    requires |records| >= 2
    ensures Join("\n", Lines(records)) == Line(records[0]) + ("\n" + Join("\n", Lines(records[1..])))
  {
    JoinCons("\n", Lines(records));
    assert Lines(records)[1..] == Lines(records[1..]);
  }

  /** Lines of escaped non-empty field lists joined by line feeds read back
      as those field lists. */
  lemma {:induction false} LinesReadBack(records: seq<seq<string>>)
    requires records != []
    requires forall i :: 0 <= i < |records| ==> records[i] != []
    ensures ReadRecords(Join("\n", Lines(records))) == Some(records)
  {
    if |records| == 1 {
      LineReadsBack(records[0], []);
      assert Line(records[0]) + [] == Line(records[0]);
      assert records == [records[0]];
    } else {
      var tail := Join("\n", Lines(records[1..]));
      JoinLines(records);
      LineReadsBack(records[0], "\n" + tail);
      LinesReadBack(records[1..]);
      ReadRecordsCons(Line(records[0]) + ("\n" + tail), records[0], tail, records[1..]);
      assert records == [records[0]] + records[1..];
    }
  }

  /** The export is the header plus one line per row, each holding the eight
      values of its row, and it reads back exactly. */
  lemma CsvReadsBack(rows: seq<Row>)
    ensures ReadRecords(CsvText(rows)) == Some([Header] + RowFields(rows))
    ensures forall i :: 0 <= i < |rows| ==> |RowFields(rows)[i]| == |Header| == 8
  {
    var records := [Header] + RowFields(rows);
    RowFieldsAt(rows);
    LinesReadBack(records);
  }

  lemma {:induction false} RowFieldsAt(rows: seq<Row>)
    ensures forall i :: 0 <= i < |rows| ==> RowFields(rows)[i] == CsvFields(rows[i])
  {
    if rows != [] {
      RowFieldsAt(rows[..|rows| - 1]);
    }
  }
}
