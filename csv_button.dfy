/**
 * The CSV export of the admin tables (frontend/src/components/admin/CsvButton.jsx):
 * the escaping of one cell, `safeCsv`, and the text of the document
 * `exportCsv` builds, header line first. A reader that follows the field
 * grammar of RFC 4180 (section 2), with '\n' as the record separator the
 * document uses, is the partner that every escaped table reads back through.
 */
module CsvButton {
  import opened Wrappers
  import opened Js
  import opened Strings

  /** Every '"' doubled. */
  function Escape(s: string): (r: string)
    ensures forall c :: c in r <==> c in s
    ensures '"' !in s ==> r == s
  {
    if s == [] then []
    else (if s[0] == '"' then "\"\"" else [s[0]]) + Escape(s[1..])
  }

  /** The characters the source tests before quoting: ',', '"' and '\n'. */
  predicate NeedsQuoteAsWritten(t: string) {
    ',' in t || '"' in t || '\n' in t
  }

  /** `safeCsv` as written: a carriage return alone does not cause quoting. */
  function SafeCsvAsWritten(v: Value): (r: string)
    ensures Nullish(v) ==> r == ""
    ensures !Nullish(v) && NeedsQuoteAsWritten(ToStr(v)) ==> r == "\"" + Escape(ToStr(v)) + "\""
    ensures !Nullish(v) && !NeedsQuoteAsWritten(ToStr(v)) ==> r == ToStr(v)
  {
    if Nullish(v) then ""
    else
      var t := Escape(ToStr(v));
      if NeedsQuoteAsWritten(t) then "\"" + t + "\"" else t
  }

  /** The characters that RFC 4180 does not allow in a field without quotes. */
  predicate NeedsQuote(t: string) {
    ',' in t || '"' in t || '\n' in t || '\r' in t
  }

  /** The text a cell stands for: `String(v)`, with undefined and null as "". */
  function CellText(v: Value): string {
    if Nullish(v) then "" else ToStr(v)
  }

  /** `safeCsv` corrected: quoting on a carriage return as well. */
  function SafeCsv(v: Value): (r: string)
    ensures Nullish(v) ==> r == ""
    ensures NeedsQuote(CellText(v)) ==> r == "\"" + Escape(CellText(v)) + "\""
    ensures !NeedsQuote(CellText(v)) ==> r == CellText(v)
  {
    if Nullish(v) then ""
    else
      var t := Escape(ToStr(v));
      if NeedsQuote(t) then "\"" + t + "\"" else t
  }

  /* ---------- a reader for the RFC 4180 grammar ---------- */

  /** A character of TEXTDATA, or of a line break, may stand in an unquoted field. */
  predicate Ends(c: char) {
    c == ',' || c == '"' || c == '\n' || c == '\r'
  }

  /** The longest prefix without a separator, a quote or a line break, and the rest. */
  function ReadPlain(s: string): (r: (string, string))
    ensures r.0 + r.1 == s
    ensures r.1 == [] || Ends(r.1[0])
  {
    if s == [] || Ends(s[0]) then ([], s)
    else
      var r := ReadPlain(s[1..]);
      assert [s[0]] + r.0 + r.1 == s by {
        assert r.0 + r.1 == s[1..];
        assert s == [s[0]] + s[1..];
      }
      ([s[0]] + r.0, r.1)
  }

  /** The inside of a quoted field up to its closing quote, with "" read as '"'; then what follows it. */
  function ReadQuoted(s: string): (r: Option<(string, string)>)
    ensures r.Some? ==> |r.value.1| < |s|
  {
    if s == [] then None
    else if s[0] == '"' then
      if |s| >= 2 && s[1] == '"' then
        match ReadQuoted(s[2..])
        case None => None
        case Some((t, rest)) => Some(("\"" + t, rest))
      else Some(("", s[1..]))
    else
      match ReadQuoted(s[1..])
      case None => None
      case Some((t, rest)) => Some(([s[0]] + t, rest))
  }

  function ReadField(s: string): (r: Option<(string, string)>)
    ensures r.Some? ==> |r.value.1| <= |s|
  {
    if s != [] && s[0] == '"' then ReadQuoted(s[1..]) else Some(ReadPlain(s))
  }

  /**
   * The fields of one record, and where the next record starts (None when
   * the text ends with this record). A field must be followed by ',', by the
   * line break or by the end of the text.
   */
  function ReadRecord(s: string): (r: Option<(seq<string>, Option<string>)>)
    ensures r.Some? && r.value.1.Some? ==> |r.value.1.value| < |s|
    decreases |s|
  {
    match ReadField(s)
    case None => None
    case Some((f, rest)) =>
      if rest == [] then Some(([f], None))
      else if rest[0] == '\n' then Some(([f], Some(rest[1..])))
      else if rest[0] == ',' then
        match ReadRecord(rest[1..])
        case None => None
        case Some((fs, next)) => Some(([f] + fs, next))
      else None
  }

  /** All records of a document. */
  function ReadTable(s: string): Option<seq<seq<string>>>
    decreases |s|
  {
    match ReadRecord(s)
    case None => None
    case Some((fs, next)) =>
      if next.None? then Some([fs])
      else
        match ReadTable(next.value)
        case None => None
        case Some(t) => Some([fs] + t)
  }

  /* ---------- reading back what was escaped ---------- */

  lemma {:induction false} ReadQuotedEscape(s: string, t: string)
    requires t == [] || t[0] != '"'
    ensures ReadQuoted(Escape(s) + "\"" + t) == Some((s, t))
  {
    if s != [] {
      ReadQuotedEscape(s[1..], t);
      var tail := Escape(s[1..]) + "\"" + t;
      assert Escape(s) + "\"" + t == (if s[0] == '"' then "\"\"" else [s[0]]) + tail;
      if s[0] == '"' {
        QuotePair(tail, s[1..], t);
      } else {
        PlainChar(s[0], tail, s[1..], t);
      }
      assert [s[0]] + s[1..] == s;
    } else {
      var u := "\"" + t;
      assert Escape(s) + "\"" + t == u;
      assert u[0] == '"' && u[1..] == t;
      assert |u| < 2 || u[1] != '"';
    }
  }

  /** A doubled quote inside a quoted field reads as one quote. */
  lemma QuotePair(tail: string, x: string, t: string)
    requires ReadQuoted(tail) == Some((x, t))
    ensures ReadQuoted("\"\"" + tail) == Some(("\"" + x, t))
  {
    var u := "\"\"" + tail;
    assert u[0] == '"' && u[1] == '"' && u[2..] == tail;
  }

  /** Any other character inside a quoted field reads as itself. */
  lemma PlainChar(c: char, tail: string, x: string, t: string)
    requires c != '"' && ReadQuoted(tail) == Some((x, t))
    ensures ReadQuoted([c] + tail) == Some(([c] + x, t))
  {
    var u := [c] + tail;
    assert u[0] == c && u[1..] == tail;
  }

  lemma {:induction false} ReadPlainOf(s: string, t: string)
    requires forall c :: c in s ==> !Ends(c)
    requires t == [] || Ends(t[0])
    ensures ReadPlain(s + t) == (s, t)
  {
    if s != [] {
      assert s[0] in s && (s + t)[0] == s[0];
      assert (s + t)[1..] == s[1..] + t;
      ReadPlainOf(s[1..], t);
      assert [s[0]] + s[1..] == s;
    } else {
      assert s + t == t;
    }
  }

  /** A text with quotes around it when it needs them, and its quotes doubled then. */
  function Quote(x: string): string {
    if NeedsQuote(x) then "\"" + Escape(x) + "\"" else x
  }

  /** `safeCsv` puts quotes around exactly the texts that need them. */
  lemma SafeCsvQuote(v: Value)
    ensures SafeCsv(v) == Quote(CellText(v))
  {
  }

  /** A quoted text followed by a separator, a line break or the end reads back as the text. */
  lemma ReadFieldQuote(x: string, t: string)
    requires t == [] || t[0] == ',' || t[0] == '\n'
    ensures ReadField(Quote(x) + t) == Some((x, t))
  {
    if NeedsQuote(x) {
      ReadQuotedEscape(x, t);
      assert Quote(x) + t == "\"" + (Escape(x) + "\"" + t);
    } else {
      ReadPlainOf(x, t);
      if x != [] {
        assert (x + t)[0] == x[0];
      } else {
        assert x + t == t;
      }
    }
  }

  /** An escaped cell followed by a separator, a line break or the end reads back as its text. */
  lemma ReadFieldSafe(v: Value, t: string)
    requires t == [] || t[0] == ',' || t[0] == '\n'
    ensures ReadField(SafeCsv(v) + t) == Some((CellText(v), t))
  {
    SafeCsvQuote(v);
    ReadFieldQuote(CellText(v), t);
  }

  /** The cells with the corrected escaping, in order. */
  function Escaped(cells: seq<Value>): (r: seq<string>)
    ensures |r| == |cells|
  {
    if cells == [] then [] else [SafeCsv(cells[0])] + Escaped(cells[1..])
  }

  /** The cells escaped by `safeCsv` as written, in order. */
  function EscapedAsWritten(cells: seq<Value>): (r: seq<string>)
    ensures |r| == |cells|
  {
    if cells == [] then [] else [SafeCsvAsWritten(cells[0])] + EscapedAsWritten(cells[1..])
  }

  /** The cells' texts, in order. */
  function Texts(cells: seq<Value>): (r: seq<string>)
    ensures |r| == |cells|
  {
    if cells == [] then [] else [CellText(cells[0])] + Texts(cells[1..])
  }

  /** One record as written: the escaped cells joined by ','. */
  function LineAsWritten(cells: seq<Value>): string {
    Join(EscapedAsWritten(cells), ",")
  }

  /** One record with the corrected escaping. */
  function Line(cells: seq<Value>): string {
    Join(Escaped(cells), ",")
  }

  /** How a record continues after its first field. */
  lemma RecordStep(s: string, f: string, rest: string)
    requires ReadField(s) == Some((f, rest))
    ensures rest == [] ==> ReadRecord(s) == Some(([f], None))
    ensures rest != [] && rest[0] == '\n' ==> ReadRecord(s) == Some(([f], Some(rest[1..])))
    ensures rest != [] && rest[0] == ',' && ReadRecord(rest[1..]).Some? ==>
      ReadRecord(s) == Some(([f] + ReadRecord(rest[1..]).value.0, ReadRecord(rest[1..]).value.1))
  {
  }

  /** The texts, each quoted as it needs. */
  function Quoted(texts: seq<string>): (r: seq<string>)
    ensures |r| == |texts|
  {
    if texts == [] then [] else [Quote(texts[0])] + Quoted(texts[1..])
  }

  lemma {:induction false} EscapedQuoted(cells: seq<Value>)
    ensures Escaped(cells) == Quoted(Texts(cells))
  {
    if cells != [] {
      SafeCsvQuote(cells[0]);
      EscapedQuoted(cells[1..]);
    }
  }

  /** A record of escaped cells reads back as the cells' texts. */
  lemma ReadRecordLine(cells: seq<Value>, t: string)
    requires |cells| >= 1
    requires t == [] || t[0] == '\n'
    ensures ReadRecord(Line(cells) + t) == Some((Texts(cells), if t == [] then None else Some(t[1..])))
  {
    EscapedQuoted(cells);
    ReadRecordQuoted(Texts(cells), t);
  }

  /** Quoted texts joined by ',' read back as the texts. */
  lemma {:induction false} ReadRecordQuoted(texts: seq<string>, t: string)
    requires |texts| >= 1
    requires t == [] || t[0] == '\n'
    ensures ReadRecord(Join(Quoted(texts), ",") + t) == Some((texts, if t == [] then None else Some(t[1..])))
  {
    if |texts| == 1 {
      LastText(texts, t);
    } else {
      ReadRecordQuoted(texts[1..], t);
      MoreTexts(texts, t, if t == [] then None else Some(t[1..]));
    }
  }

  lemma LastText(texts: seq<string>, t: string)
    requires |texts| == 1
    requires t == [] || t[0] == '\n'
    ensures ReadRecord(Join(Quoted(texts), ",") + t) == Some((texts, if t == [] then None else Some(t[1..])))
  {
    var x := texts[0];
    assert Quoted(texts) == [Quote(x)];
    assert Join(Quoted(texts), ",") == Quote(x);
    ReadFieldQuote(x, t);
    RecordStep(Quote(x) + t, x, t);
    assert [x] == texts;
  }

  lemma MoreTexts(texts: seq<string>, t: string, next: Option<string>)
    requires |texts| >= 2
    requires ReadRecord(Join(Quoted(texts[1..]), ",") + t) == Some((texts[1..], next))
    ensures ReadRecord(Join(Quoted(texts), ",") + t) == Some((texts, next))
  {
    var x := texts[0];
    var y := Join(Quoted(texts[1..]), ",") + t;
    assert Quoted(texts) == [Quote(x)] + Quoted(texts[1..]);
    assert Join(Quoted(texts), ",") + t == Quote(x) + "," + y;
    ReadFieldQuote(x, "," + y);
    assert Quote(x) + ("," + y) == Quote(x) + "," + y;
    ConsRecord(Quote(x), x, y);
    assert [x] + texts[1..] == texts;
  }

  /** A field followed by ',' and a record reads as one more field in front. */
  lemma ConsRecord(x: string, text: string, y: string)
    requires ReadField(x + "," + y) == Some((text, "," + y))
    requires ReadRecord(y).Some?
    ensures ReadRecord(x + "," + y) == Some(([text] + ReadRecord(y).value.0, ReadRecord(y).value.1))
  {
    assert ("," + y)[1..] == y;
    RecordStep(x + "," + y, text, "," + y);
  }

  /** Every line of a document has at least one cell. */
  predicate Rectangular(lines: seq<seq<Value>>) {
    forall k :: 0 <= k < |lines| ==> |lines[k]| >= 1
  }

  /** The records as written, one line each. */
  function LinesAsWritten(lines: seq<seq<Value>>): (r: seq<string>)
    ensures |r| == |lines|
  {
    if lines == [] then [] else [LineAsWritten(lines[0])] + LinesAsWritten(lines[1..])
  }

  /** The records with the corrected escaping, one line each. */
  function Lines(lines: seq<seq<Value>>): (r: seq<string>)
    ensures |r| == |lines|
  {
    if lines == [] then [] else [Line(lines[0])] + Lines(lines[1..])
  }

  function AllTexts(lines: seq<seq<Value>>): (r: seq<seq<string>>)
    ensures |r| == |lines|
  {
    if lines == [] then [] else [Texts(lines[0])] + AllTexts(lines[1..])
  }

  /** Lines of escaped cells joined by '\n' read back as the table of the cells' texts. */
  lemma {:induction false} ReadTableLines(lines: seq<seq<Value>>)
    requires |lines| >= 1 && Rectangular(lines)
    ensures ReadTable(Join(Lines(lines), "\n")) == Some(AllTexts(lines))
  {
    var first := lines[0];
    if |lines| == 1 {
      assert Lines(lines) == [Line(first)];
      ReadRecordLine(first, "");
      assert Line(first) + "" == Line(first);
      assert AllTexts(lines) == [Texts(first)];
    } else {
      var rest := lines[1..];
      assert Lines(lines) == [Line(first)] + Lines(rest);
      var tail := Join(Lines(rest), "\n");
      assert Join(Lines(lines), "\n") == Line(first) + ("\n" + tail);
      ReadRecordLine(first, "\n" + tail);
      assert ("\n" + tail)[1..] == tail;
      ReadTableLines(rest);
      assert AllTexts(lines) == [Texts(first)] + AllTexts(rest);
    }
  }

  /* ---------- the document ---------- */

  /** A column: its key, its optional header text and its optional accessor. */
  datatype Column = Column(key: string, header: Option<string>, accessor: Option<Value -> Value>)

  /** `c.header || c.key`. */
  function Head(c: Column): string {
    if c.header.Some? && c.header.value != "" then c.header.value else c.key
  }

  /** `c.accessor ? c.accessor(r) : r?.[c.key]`. */
  function CellOf(c: Column, row: Value): Value {
    if c.accessor.Some? then c.accessor.value(row) else Get(row, c.key)
  }

  /** The values the columns pick from one row. */
  function Cells(columns: seq<Column>, row: Value): (r: seq<Value>)
    ensures |r| == |columns|
  {
    if columns == [] then [] else [CellOf(columns[0], row)] + Cells(columns[1..], row)
  }

  /** The cells of every row, in order. */
  function Records(columns: seq<Column>, rows: seq<Value>): (r: seq<seq<Value>>)
    ensures |r| == |rows|
    ensures forall k :: 0 <= k < |r| ==> |r[k]| == |columns|
  {
    if rows == [] then [] else [Cells(columns, rows[0])] + Records(columns, rows[1..])
  }

  function Heads(columns: seq<Column>): (r: seq<string>)
    ensures |r| == |columns|
  {
    if columns == [] then [] else [Head(columns[0])] + Heads(columns[1..])
  }

  /**
   * `exportCsv` up to the download, as written: nothing for no rows;
   * otherwise the headers joined by ',' (they are not escaped), '\n', and
   * the rows escaped by `safeCsv` as written, joined by '\n'.
   */
  function Export(columns: seq<Column>, rows: seq<Value>): (r: Option<string>)
    ensures r.None? <==> rows == []
  {
    if rows == [] then None
    else Some(Join(Heads(columns), ",") + "\n" + Join(LinesAsWritten(Records(columns, rows)), "\n"))
  }

  /** `exportCsv` corrected: the same document with the corrected cell escaping. */
  function ExportCorrected(columns: seq<Column>, rows: seq<Value>): (r: Option<string>)
    ensures r.None? <==> rows == []
  {
    if rows == [] then None
    else Some(Join(Heads(columns), ",") + "\n" + Join(Lines(Records(columns, rows)), "\n"))
  }

  /** No header has a character that needs quotes. */
  predicate PlainHeads(columns: seq<Column>) {
    forall j :: 0 <= j < |columns| ==> !NeedsQuote(Head(columns[j]))
  }

  /** The headers as string values. */
  function HeadCells(columns: seq<Column>): (r: seq<Value>)
    ensures |r| == |columns|
  {
    if columns == [] then [] else [Str(Head(columns[0]))] + HeadCells(columns[1..])
  }

  /** Plain headers are their own escaping and their own text. */
  lemma {:induction false} PlainHeadCells(columns: seq<Column>)
    requires PlainHeads(columns)
    ensures Escaped(HeadCells(columns)) == Heads(columns)
    ensures Texts(HeadCells(columns)) == Heads(columns)
  {
    if columns != [] {
      assert PlainHeads(columns[1..]) by {
        forall j | 0 <= j < |columns| - 1 ensures !NeedsQuote(Head(columns[1..][j])) {
          assert columns[1..][j] == columns[j + 1];
        }
      }
      PlainHeadCells(columns[1..]);
      assert !NeedsQuote(Head(columns[0]));
      assert CellText(Str(Head(columns[0]))) == Head(columns[0]);
    }
  }

  /**
   * Corrected export: with at least one column and plain headers, reading
   * the document back gives the header row followed by one row per record,
   * each cell the text of the value its column picks from the record.
   */
  lemma ExportCorrectedRoundTrip(columns: seq<Column>, rows: seq<Value>)
    requires |columns| >= 1 && rows != [] && PlainHeads(columns)
    ensures ReadTable(ExportCorrected(columns, rows).value) == Some([Heads(columns)] + AllTexts(Records(columns, rows)))
  {
    var recs := Records(columns, rows);
    var lines := [HeadCells(columns)] + recs;
    PlainHeadCells(columns);
    assert lines[1..] == recs;
    assert Lines(lines) == [Join(Heads(columns), ",")] + Lines(recs);
    assert Join(Lines(lines), "\n") == ExportCorrected(columns, rows).value;
    ReadTableLines(lines);
    assert AllTexts(lines) == [Heads(columns)] + AllTexts(recs);
  }

  /* ---------- the carriage return ---------- */

  /** As written, a value holding a bare carriage return is emitted without quotes and does not read back. */
  lemma CarriageReturnUnquoted()
    ensures SafeCsvAsWritten(Str("a\rb")) == "a\rb"
    ensures ReadRecord(SafeCsvAsWritten(Str("a\rb"))) == None
  {
    var x := "a\rb";
    assert x == "a" + "\rb";
    assert ',' !in x && '"' !in x && '\n' !in x;
    assert ToStr(Str(x)) == x;
    ReadPlainOf("a", "\rb");
    RecordStep(x, "a", "\rb");
  }

  /** With the carriage return among the quoting characters, the same value reads back. */
  lemma CarriageReturnQuoted()
    ensures SafeCsv(Str("a\rb")) == "\"a\rb\""
    ensures ReadRecord(SafeCsv(Str("a\rb"))) == Some((["a\rb"], None))
  {
    var x := "a\rb";
    assert x[1] == '\r' && '"' !in x;
    assert Quote(x) == "\"a\rb\"" by {
      assert NeedsQuote(x) && Escape(x) == x;
    }
    assert SafeCsv(Str(x)) == Quote(x) by {
      assert CellText(Str(x)) == x;
      SafeCsvQuote(Str(x));
    }
    ReadRecordQuoted([x], "");
    assert Join(Quoted([x]), ",") + "" == Quote(x) by {
      assert Quoted([x]) == [Quote(x)];
    }
  }

  /** No cell of any record has a carriage return in its text. */
  predicate NoCarriageReturn(recs: seq<seq<Value>>) {
    forall k, j :: 0 <= k < |recs| && 0 <= j < |recs[k]| ==> '\r' !in CellText(recs[k][j])
  }

  /** Without a carriage return the two escapings agree. */
  lemma SafeCsvAgrees(v: Value)
    requires '\r' !in CellText(v)
    ensures SafeCsvAsWritten(v) == SafeCsv(v)
  {
    if !Nullish(v) {
      var t := Escape(ToStr(v));
      assert NeedsQuoteAsWritten(t) <==> NeedsQuote(t);
    }
  }

  lemma {:induction false} EscapedAgrees(cells: seq<Value>)
    requires forall j :: 0 <= j < |cells| ==> '\r' !in CellText(cells[j])
    ensures EscapedAsWritten(cells) == Escaped(cells)
  {
    if cells != [] {
      SafeCsvAgrees(cells[0]);
      EscapedAgrees(cells[1..]);
    }
  }

  lemma {:induction false} LinesAgree(recs: seq<seq<Value>>)
    requires NoCarriageReturn(recs)
    ensures LinesAsWritten(recs) == Lines(recs)
  {
    if recs != [] {
      EscapedAgrees(recs[0]);
      assert NoCarriageReturn(recs[1..]) by {
        forall k, j | 0 <= k < |recs| - 1 && 0 <= j < |recs[1..][k]|
          ensures '\r' !in CellText(recs[1..][k][j])
        {
          assert recs[1..][k] == recs[k + 1];
        }
      }
      LinesAgree(recs[1..]);
    }
  }

  /**
   * The export as written reads back, header row then one row per record
   * of cell texts, whenever no cell text holds a carriage return (the one
   * character the source omits from its quoting test).
   */
  lemma ExportRoundTrip(columns: seq<Column>, rows: seq<Value>)
    requires |columns| >= 1 && rows != [] && PlainHeads(columns)
    requires NoCarriageReturn(Records(columns, rows))
    ensures ReadTable(Export(columns, rows).value) == Some([Heads(columns)] + AllTexts(Records(columns, rows)))
  {
    LinesAgree(Records(columns, rows));
    ExportCorrectedRoundTrip(columns, rows);
  }
}
