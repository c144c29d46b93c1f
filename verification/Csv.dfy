/**
 The CSV export, and a parser written from the grammar in section 2 of RFC 4180.
 Cells are the strings the exporter has already rendered; a missing cell is empty.
 */
module Csv {
  import opened Sequences
  import opened Wrappers

  const CRLF: string := "\r\n"

  predicate IsSpecial(c: char) {
    c == '"' || c == ',' || c == '\r' || c == '\n'
  }

  predicate Plain(s: string) {
    forall i :: 0 <= i < |s| ==> !IsSpecial(s[i])
  }

  // ---- printing

  function DoubleQuotes(s: string): string {
    if s == "" then "" else (if s[0] == '"' then "\"\"" else [s[0]]) + DoubleQuotes(s[1..])
  }

  /** Quotes a cell that holds a comma, a quote or a line break, doubling its quotes. */
  function EscapeCell(s: string): string {
    if Plain(s) then s else "\"" + DoubleQuotes(s) + "\""
  }

  /** A cell is quoted exactly if it needs to be: for a comma, a quote, a carriage return or a line feed. */
  lemma QuotedIfNeeded(s: string)
    ensures EscapeCell(s) == s <==> ',' !in s && '"' !in s && '\r' !in s && '\n' !in s
    ensures EscapeCell(s) != s ==> |EscapeCell(s)| >= |s| + 2 && EscapeCell(s)[0] == '"' && EscapeCell(s)[|EscapeCell(s)| - 1] == '"'
  {
    DoublingLengthens(s);
    assert Plain(s) <==> forall c :: c in s ==> !IsSpecial(c);
  }

  lemma {:induction false} DoublingLengthens(s: string)
    ensures |DoubleQuotes(s)| >= |s|
  {
    if s != "" {
      DoublingLengthens(s[1..]);
    }
  }

  /** The escaped cells of one line, separated by commas. */
  function Line(cells: seq<string>): string {
    if cells == [] then ""
    else if |cells| == 1 then EscapeCell(cells[0])
    else EscapeCell(cells[0]) + "," + Line(cells[1..])
  }

  type Row = map<string, string>

  function Cell(row: Row, column: string): string {
    if column in row then row[column] else ""
  }

  function Cells(row: Row, columns: seq<string>): (cells: seq<string>)
    ensures |cells| == |columns|
  {
    seq(|columns|, i requires 0 <= i < |columns| => Cell(row, columns[i]))
  }

  /** The table as records: the header, then one record per row. */
  function Records(rows: seq<Row>, columns: seq<string>): seq<seq<string>> {
    [columns] + seq(|rows|, i requires 0 <= i < |rows| => Cells(rows[i], columns))
  }

  /** The header comes first, then the rows in their order, with empty text where a row has no cell. */
  lemma RecordsAre(rows: seq<Row>, columns: seq<string>)
    ensures |Records(rows, columns)| == |rows| + 1 && Records(rows, columns)[0] == columns
    ensures forall i, j :: 0 <= i < |rows| && 0 <= j < |columns| ==>
      |Records(rows, columns)[i + 1]| == |columns| &&
      if columns[j] in rows[i] then Records(rows, columns)[i + 1][j] == rows[i][columns[j]] else Records(rows, columns)[i + 1][j] == ""
  {
    forall i, j | 0 <= i < |rows| && 0 <= j < |columns|
      ensures Records(rows, columns)[i + 1] == Cells(rows[i], columns)
      ensures Cells(rows[i], columns)[j] == Cell(rows[i], columns[j])
    {
    }
  }

  function Print(records: seq<seq<string>>): string {
    if records == [] then "" else Line(records[0]) + CRLF + Print(records[1..])
  }

  lemma {:induction false} PrintSnoc(records: seq<seq<string>>, last: seq<string>)
    ensures Print(records + [last]) == Print(records) + (Line(last) + CRLF)
  {
    hide Line;
    if records == [] {
      assert [] + [last] == [last] && [last][1..] == [];
    } else {
      PrintSnoc(records[1..], last);
      assert (records + [last])[1..] == records[1..] + [last];
      Concat(Line(records[0]) + CRLF, Print(records[1..]), Line(last) + CRLF);
    }
  }

  /** Every record, the last one too, ends in a carriage return and a line feed. */
  lemma PrintEnds(records: seq<seq<string>>, last: seq<string>)
    ensures Print([]) == "" && Print(records + [last]) == Print(records) + Line(last) + ['\r', '\n']
  {
    hide Line;
    PrintSnoc(records, last);
    Concat(Print(records), Line(last), CRLF);
  }

  lemma RecordsStart(rows: seq<Row>, columns: seq<string>)
    ensures Records(rows[..0], columns) == [columns]
  {
  }

  lemma RecordsNext(rows: seq<Row>, columns: seq<string>, n: nat)
    requires n < |rows|
    ensures Records(rows[..n + 1], columns) == Records(rows[..n], columns) + [Cells(rows[n], columns)]
  {
  }

  lemma RecordsNotEmpty(rows: seq<Row>, columns: seq<string>)
    requires columns != []
    ensures Records(rows, columns) != [] && forall i :: 0 <= i < |Records(rows, columns)| ==> Records(rows, columns)[i] != []
  {
  }

  /** Renders a table: the header line, then a line per row, each ended by CRLF. */
  method ToCsv(rows: seq<Row>, columns: seq<string>) returns (text: string)
    ensures text == Print(Records(rows, columns))
    ensures columns != [] ==> Parse(text) == Some(Records(rows, columns))
  {
    PrintSnoc([], columns);
    assert [] + [columns] == [columns];
    hide Line, Print, Records, Parse;
    RecordsStart(rows, columns);
    text := Line(columns) + CRLF;
    for n := 0 to |rows|
      invariant text == Print(Records(rows[..n], columns))
    {
      PrintSnoc(Records(rows[..n], columns), Cells(rows[n], columns));
      RecordsNext(rows, columns, n);
      text := text + (Line(Cells(rows[n], columns)) + CRLF);
    }
    assert rows[..|rows|] == rows;
    if columns != [] {
      RecordsNotEmpty(rows, columns);
      ParsePrinted(Records(rows, columns));
    }
  }

  // ---- parsing

  /** A parsed item and the text after it. */
  datatype Parsed<T> = Parsed(item: T, rest: string)

  /** An escaped field after its opening quote, up to and including the closing one. */
  function ParseEscaped(s: string): (r: Option<Parsed<string>>)
    ensures r.Some? ==> |r.value.rest| < |s|
  {
    if s == "" then None
    else if s[0] != '"' then
      match ParseEscaped(s[1..])
      case None => None
      case Some(p) => Some(Parsed([s[0]] + p.item, p.rest))
    else if |s| > 1 && s[1] == '"' then
      match ParseEscaped(s[2..])
      case None => None
      case Some(p) => Some(Parsed("\"" + p.item, p.rest))
    else Some(Parsed("", s[1..]))
  }

  /** A non-escaped field: text up to the next special character. */
  function ParsePlain(s: string): (p: Parsed<string>)
    ensures |p.rest| <= |s|
  {
    if s == "" || IsSpecial(s[0]) then Parsed("", s)
    else var p := ParsePlain(s[1..]); Parsed([s[0]] + p.item, p.rest)
  }

  function ParseField(s: string): (r: Option<Parsed<string>>)
    ensures r.Some? ==> |r.value.rest| <= |s|
  {
    if s != "" && s[0] == '"' then ParseEscaped(s[1..]) else Some(ParsePlain(s))
  }

  /** One or more fields separated by commas. */
  function ParseRecord(s: string): (r: Option<Parsed<seq<string>>>)
    ensures r.Some? ==> |r.value.rest| <= |s|
    decreases |s|
  {
    match ParseField(s)
    case None => None
    case Some(f) =>
      if f.rest == "" || f.rest[0] != ',' then Some(Parsed([f.item], f.rest))
      else
        match ParseRecord(f.rest[1..])
        case None => None
        case Some(p) => Some(Parsed([f.item] + p.item, p.rest))
  }

  /** Records separated by CRLF, with an optional CRLF at the end. */
  function Parse(s: string): Option<seq<seq<string>>>
    decreases |s|
  {
    match ParseRecord(s)
    case None => None
    case Some(r) =>
      if r.rest == "" || r.rest == CRLF then Some([r.item])
      else if |r.rest| < 2 || r.rest[..2] != CRLF then None
      else
        match Parse(r.rest[2..])
        case None => None
        case Some(records) => Some([r.item] + records)
  }

  // ---- the parser inverts the printer

  lemma ParseClosingQuote(t: string)
    requires t != "" && t[0] != '"'
    ensures ParseEscaped("\"" + t) == Some(Parsed("", t))
  {
    var text := "\"" + t;
    assert text[0] == '"' && text[1] == t[0] && text[1..] == t;
  }

  lemma ParseDoubledQuote(tail: string, p: Parsed<string>)
    requires ParseEscaped(tail) == Some(p)
    ensures ParseEscaped("\"\"" + tail) == Some(Parsed("\"" + p.item, p.rest))
  {
    var text := "\"\"" + tail;
    assert text[0] == '"' && text[1] == '"' && text[2..] == tail;
  }

  lemma ParseOther(c: char, tail: string, p: Parsed<string>)
    requires c != '"' && ParseEscaped(tail) == Some(p)
    ensures ParseEscaped([c] + tail) == Some(Parsed([c] + p.item, p.rest))
  {
    var text := [c] + tail;
    assert text[0] == c && text[1..] == tail;
  }

  lemma {:induction false} ParseEscapedPrinted(s: string, t: string)
    requires t != "" && t[0] != '"'
    ensures ParseEscaped(DoubleQuotes(s) + "\"" + t) == Some(Parsed(s, t))
  {
    var text := DoubleQuotes(s) + "\"" + t;
    hide ParseEscaped;
    if s == "" {
      ParseClosingQuote(t);
      assert text == "\"" + t;
    } else {
      ParseEscapedPrinted(s[1..], t);
      var tail := DoubleQuotes(s[1..]) + "\"" + t;
      assert s == [s[0]] + s[1..];
      if s[0] == '"' {
        ParseDoubledQuote(tail, Parsed(s[1..], t));
        assert text == "\"\"" + tail;
      } else {
        ParseOther(s[0], tail, Parsed(s[1..], t));
        assert text == [s[0]] + tail;
      }
    }
  }

  lemma {:induction false} ParsePlainPrinted(s: string, t: string)
    requires Plain(s) && t != "" && IsSpecial(t[0])
    ensures ParsePlain(s + t) == Parsed(s, t)
  {
    if s == "" {
      assert s + t == t;
    } else {
      ParsePlainPrinted(s[1..], t);
      assert (s + t)[1..] == s[1..] + t;
      assert s == [s[0]] + s[1..];
    }
  }

  lemma ParseFieldPrinted(s: string, t: string)
    requires t != "" && IsSpecial(t[0]) && t[0] != '"'
    ensures ParseField(EscapeCell(s) + t) == Some(Parsed(s, t))
  {
    hide ParsePlain, ParseEscaped, DoubleQuotes;
    if Plain(s) {
      ParsePlainPrinted(s, t);
      assert s != "" ==> (s + t)[0] == s[0];
      assert s == "" ==> (s + t)[0] == t[0];
    } else {
      var q := DoubleQuotes(s);
      ParseEscapedPrinted(s, t);
      Concat("\"", q, "\"");
      Concat("\"", q + "\"", t);
    }
  }

  lemma ParseFirstField(s: string, t: string, p: Parsed<seq<string>>)
    requires ParseRecord(t) == Some(p)
    ensures ParseRecord(EscapeCell(s) + "," + t) == Some(Parsed([s] + p.item, p.rest))
  {
    hide ParseField, EscapeCell;
    ParseFieldPrinted(s, "," + t);
    Concat(EscapeCell(s), ",", t);
    assert ("," + t)[1..] == t;
  }

  lemma {:induction false} ParseRecordPrinted(cells: seq<string>, t: string)
    requires cells != [] && t != "" && t[0] == '\r'
    ensures ParseRecord(Line(cells) + t) == Some(Parsed(cells, t))
  {
    hide ParseField, EscapeCell;
    if |cells| == 1 {
      ParseFieldPrinted(cells[0], t);
      assert cells == [cells[0]];
    } else {
      hide ParseRecord;
      ParseRecordPrinted(cells[1..], t);
      ParseFirstField(cells[0], Line(cells[1..]) + t, Parsed(cells[1..], t));
      Concat(EscapeCell(cells[0]) + ",", Line(cells[1..]), t);
      assert cells == [cells[0]] + cells[1..];
    }
  }

  lemma LineBreak(rest: string)
    ensures (CRLF + rest)[0] == '\r' && (CRLF + rest)[..2] == CRLF && (CRLF + rest)[2..] == rest
    ensures CRLF + rest == CRLF <==> rest == ""
  {
  }

  /** Parsing a printed table recovers exactly its records. */
  lemma {:induction false} ParsePrinted(records: seq<seq<string>>)
    requires records != [] && forall i :: 0 <= i < |records| ==> records[i] != []
    ensures Parse(Print(records)) == Some(records)
  {
    hide ParseRecord, Line;
    var rest := Print(records[1..]);
    LineBreak(rest);
    ParseRecordPrinted(records[0], CRLF + rest);
    Concat(Line(records[0]), CRLF, rest);
    if |records| == 1 {
      assert records[1..] == [] && records == [records[0]];
    } else {
      hide Parse;
      ParsePrinted(records[1..]);
      PrintNonEmpty(records[1..]);
      ParseMore(records[0], rest, records[1..], Print(records));
      assert records == [records[0]] + records[1..];
    }
  }

  lemma PrintNonEmpty(records: seq<seq<string>>)
    requires records != []
    ensures Print(records) != ""
  {
    hide Line;
  }

  lemma ParseMore(first: seq<string>, rest: string, others: seq<seq<string>>, text: string)
    requires ParseRecord(text) == Some(Parsed(first, CRLF + rest))
    requires rest != "" && Parse(rest) == Some(others)
    ensures Parse(text) == Some([first] + others)
  {
    hide ParseRecord;
    LineBreak(rest);
  }

  /** Different tables print differently. */
  lemma PrintInjective(records: seq<seq<string>>, others: seq<seq<string>>)
    requires records != [] && forall i :: 0 <= i < |records| ==> records[i] != []
    requires others != [] && forall i :: 0 <= i < |others| ==> others[i] != []
    requires Print(records) == Print(others)
    ensures records == others
  {
    ParsePrinted(records);
    ParsePrinted(others);
  }

  /** With no column the header line reads back as one empty field: the table is not recovered. */
  lemma NoColumns(rows: seq<Row>)
    ensures Parse(Print(Records(rows, []))) != Some(Records(rows, []))
  {
    var rest := Print(Records(rows, [])[1..]);
    hide Cells;
    var text := CRLF + rest;
    assert Print(Records(rows, [])) == text;
    assert ParsePlain(text) == Parsed("", text);
    assert ParseRecord(text) == Some(Parsed([""], text));
    match Parse(text) {
      case None =>
      case Some(records) => assert records[0] == [""];
    }
  }
}
