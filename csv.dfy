/**
 The comma-separated export of the budget app: the per-field escape
 (every field wrapped in double quotes, each embedded quote doubled), the
 layout of a line (escaped fields joined by ",") and of a document (a header
 line, then one line per record, joined by a single line feed), and a
 quote-aware reader that undoes all three.
 */
module Csv {

  import opened Optional

  /** A value read out of a JavaScript record: `null`/`undefined`, or a string. */
  datatype Cell = Null | Text(s: string)

  /** A JavaScript record, seen as its own keys and their values. */
  type Row = map<string, Cell>

  /** `String(v ?? "")`: the text a value contributes to its field. */
  function Display(v: Cell): string
  {
    match v
    case Null => ""
    case Text(s) => s
  }

  /** `r[h]`: a key the record does not have reads as `undefined`. */
  function Lookup(r: Row, h: string): Cell
  {
    if h in r then r[h] else Null
  }

  /** The number of double-quote characters in `s`. */
  function Quotes(s: string): nat
  {
    if s == [] then 0 else (if s[0] == '"' then 1 else 0) + Quotes(s[1..])
  }

  lemma {:induction false} QuotesAppend(a: string, b: string)
    ensures Quotes(a + b) == Quotes(a) + Quotes(b)
  {
    if a == [] {
      assert a + b == b;
    } else {
      assert (a + b)[1..] == a[1..] + b;
      QuotesAppend(a[1..], b);
    }
  }

  /** `s.replaceAll('"', '""')`: the body of an escaped field. */
  function DoubleQuotes(s: string): (r: string)
    ensures |r| == |s| + Quotes(s)
    ensures Quotes(r) == 2 * Quotes(s)
  {
    if s == [] then []
    else
      var head := if s[0] == '"' then "\"\"" else [s[0]];
      var r := head + DoubleQuotes(s[1..]);
      QuotesAppend(head, DoubleQuotes(s[1..]));
      r
  }

  /** A string without double quotes is its own body. */
  lemma {:induction false} DoubleQuotesNoQuote(s: string)
    requires '"' !in s
    ensures DoubleQuotes(s) == s
  {
    if s != [] {
      assert s == [s[0]] + s[1..];
      DoubleQuotesNoQuote(s[1..]);
    }
  }

  /** Doubling distributes over concatenation: it acts on each character alone. */
  lemma {:induction false} DoubleQuotesAppend(a: string, b: string)
    ensures DoubleQuotes(a + b) == DoubleQuotes(a) + DoubleQuotes(b)
  {
    if a == [] {
      assert a + b == b;
    } else {
      assert (a + b)[0] == a[0] && (a + b)[1..] == a[1..] + b;
      DoubleQuotesAppend(a[1..], b);
    }
  }

  /** The escape applied to a string: a quote, the doubled body, a quote. */
  function EscapeText(s: string): (r: string)
    ensures |r| == |s| + Quotes(s) + 2
    ensures r[0] == '"' && r[|r| - 1] == '"'
    ensures Quotes(r) == 2 * Quotes(s) + 2
  {
    var r := "\"" + DoubleQuotes(s) + "\"";
    QuotesAppend("\"", DoubleQuotes(s));
    QuotesAppend("\"" + DoubleQuotes(s), "\"");
    r
  }

  /** The export's `escape(v)`: `null` and `undefined` escape like the empty string. */
  function Escape(v: Cell): (r: string)
    ensures v.Null? ==> r == "\"\""
    ensures Unescape(r) == Some(Display(v))
  {
    UnescapeEscape(Display(v));
    EscapeText(Display(v))
  }

  /**
   Reads the body of a quoted field whose opening quote is already consumed:
   each `""` stands for one `"`, and the first lone `"` closes the field.
   Gives the value and the text after the closing quote, or None when the
   text ends before a closing quote.
   */
  function ReadQuoted(s: string): (r: Option<(string, string)>)
    ensures r.Some? ==> |r.value.1| < |s|
  {
    if s == [] then None
    else if s[0] == '"' then
      if |s| > 1 && s[1] == '"' then
        match ReadQuoted(s[2..])
        case None => None
        case Some((v, rest)) => Some(("\"" + v, rest))
      else
        Some(("", s[1..]))
    else
      match ReadQuoted(s[1..])
      case None => None
      case Some((v, rest)) => Some(([s[0]] + v, rest))
  }

  /** Undoes the escape: strips the outer quotes and collapses each `""` to `"`. */
  function Unescape(t: string): Option<string>
  {
    if t == [] || t[0] != '"' then None
    else
      match ReadQuoted(t[1..])
      case None => None
      case Some((v, rest)) => if rest == [] then Some(v) else None
  }

  /** Reading an escaped body gives back the value, and stops right after its closing quote. */
  lemma {:induction false} ReadQuotedDoubled(v: string, rest: string)
    requires rest == [] || rest[0] != '"'
    ensures ReadQuoted(DoubleQuotes(v) + "\"" + rest) == Some((v, rest))
  {
    var s := DoubleQuotes(v) + "\"" + rest;
    if v == [] {
      assert s == "\"" + rest;
    } else if v[0] == '"' {
      assert s == "\"\"" + (DoubleQuotes(v[1..]) + "\"" + rest);
      assert s[2..] == DoubleQuotes(v[1..]) + "\"" + rest;
      ReadQuotedDoubled(v[1..], rest);
      assert v == "\"" + v[1..];
    } else {
      assert s == [v[0]] + (DoubleQuotes(v[1..]) + "\"" + rest);
      assert s[1..] == DoubleQuotes(v[1..]) + "\"" + rest;
      ReadQuotedDoubled(v[1..], rest);
      assert v == [v[0]] + v[1..];
    }
  }

  /** Conversely, whatever the reader accepts is an escaped body followed by text that does not start with a quote. */
  lemma {:induction false} ReadQuotedInverse(s: string, v: string, rest: string)
    requires ReadQuoted(s) == Some((v, rest))
    ensures s == DoubleQuotes(v) + "\"" + rest
    ensures rest == [] || rest[0] != '"'
  {
    if s[0] == '"' && |s| > 1 && s[1] == '"' {
      var v' := ReadQuoted(s[2..]).value.0;
      ReadQuotedInverse(s[2..], v', rest);
      ReadQuotedInversePair(s, v, v', rest);
    } else if s[0] == '"' {
      assert v == [] && rest == s[1..];
      assert s == "\"" + s[1..];
    } else {
      var v' := ReadQuoted(s[1..]).value.0;
      ReadQuotedInverse(s[1..], v', rest);
      ReadQuotedInverseChar(s, v, v', rest);
    }
  }

  /** The step over a doubled quote `""`. */
  lemma ReadQuotedInversePair(s: string, v: string, v': string, rest: string)
    requires |s| > 1 && s[0] == '"' && s[1] == '"'
    requires ReadQuoted(s) == Some((v, rest))
    requires ReadQuoted(s[2..]) == Some((v', rest))
    requires s[2..] == DoubleQuotes(v') + "\"" + rest
    ensures s == DoubleQuotes(v) + "\"" + rest
  {
    assert v == "\"" + v';
    assert v[0] == '"' && v[1..] == v';
    assert DoubleQuotes(v) == "\"\"" + DoubleQuotes(v');
    assert s == "\"\"" + s[2..];
  }

  /** The step over a character that is not a quote. */
  lemma ReadQuotedInverseChar(s: string, v: string, v': string, rest: string)
    requires |s| > 0 && s[0] != '"'
    requires ReadQuoted(s) == Some((v, rest))
    requires ReadQuoted(s[1..]) == Some((v', rest))
    requires s[1..] == DoubleQuotes(v') + "\"" + rest
    ensures s == DoubleQuotes(v) + "\"" + rest
  {
    assert v == [s[0]] + v';
    assert v[0] == s[0] && v[1..] == v';
    assert DoubleQuotes(v) == [s[0]] + DoubleQuotes(v');
    assert s == [s[0]] + s[1..];
  }

  /** Un-escaping reverses the escape. */
  lemma UnescapeEscape(s: string)
    ensures Unescape(EscapeText(s)) == Some(s)
  {
    var t := EscapeText(s);
    assert t[1..] == DoubleQuotes(s) + "\"" + [];
    ReadQuotedDoubled(s, []);
  }

  /** The escape reaches every string that un-escapes: the two are inverse bijections. */
  lemma EscapeUnescape(t: string, s: string)
    requires Unescape(t) == Some(s)
    ensures EscapeText(s) == t
  {
    ReadQuotedInverse(t[1..], s, []);
    assert t == "\"" + t[1..];
  }

  /** So the escape is injective: distinct strings give distinct fields. */
  lemma EscapeInjective(s1: string, s2: string)
    requires EscapeText(s1) == EscapeText(s2)
    ensures s1 == s2
  {
    UnescapeEscape(s1);
    UnescapeEscape(s2);
  }

  /** `parts.join(sep)`. */
  function Join(parts: seq<string>, sep: string): string
  {
    if |parts| == 0 then ""
    else if |parts| == 1 then parts[0]
    else parts[0] + sep + Join(parts[1..], sep)
  }

  lemma {:induction false} JoinSnoc(parts: seq<string>, last: string, sep: string)
    requires |parts| > 0
    ensures Join(parts + [last], sep) == Join(parts, sep) + sep + last
  {
    if |parts| == 1 {
      assert parts + [last] == [parts[0], last];
    } else {
      assert (parts + [last])[1..] == parts[1..] + [last];
      JoinSnoc(parts[1..], last, sep);
    }
  }

  /** The escape applied to each value of a list. */
  function EscapeAll(vs: seq<string>): (r: seq<string>)
    ensures |r| == |vs|
  {
    if vs == [] then [] else [EscapeText(vs[0])] + EscapeAll(vs[1..])
  }

  lemma {:induction false} EscapeAllAt(vs: seq<string>, i: nat)
    requires i < |vs|
    ensures EscapeAll(vs)[i] == EscapeText(vs[i])
  {
    if i > 0 {
      EscapeAllAt(vs[1..], i - 1);
    }
  }

  /** The text of each header's field in one record: `String(r[h] ?? "")`. */
  function Fields(r: Row, headers: seq<string>): (f: seq<string>)
    ensures |f| == |headers|
    ensures forall i :: 0 <= i < |f| ==> f[i] == Display(Lookup(r, headers[i]))
  {
    if headers == [] then [] else [Display(Lookup(r, headers[0]))] + Fields(r, headers[1..])
  }

  /** One line of the document: the escaped values joined by commas. */
  function FormatLine(vs: seq<string>): string
  {
    Join(EscapeAll(vs), ",")
  }

  /** `headers.map(escape).join(",")`: each header name escaped as a string value. */
  function HeaderLine(headers: seq<string>): string
  {
    Join(seq(|headers|, i requires 0 <= i < |headers| => Escape(Text(headers[i]))), ",")
  }

  /** `headers.map((h) => escape(r[h])).join(",")`. */
  function RowLine(r: Row, headers: seq<string>): string
  {
    Join(seq(|headers|, i requires 0 <= i < |headers| => Escape(Lookup(r, headers[i]))), ",")
  }

  /** The header line is the line whose values are the header names. */
  lemma HeaderLineIsFormatted(headers: seq<string>)
    ensures HeaderLine(headers) == FormatLine(headers)
  {
    forall i | 0 <= i < |headers| ensures EscapeAll(headers)[i] == Escape(Text(headers[i])) {
      EscapeAllAt(headers, i);
    }
    assert seq(|headers|, i requires 0 <= i < |headers| => Escape(Text(headers[i])))
        == EscapeAll(headers);
  }

  /** A row's line is the line whose values are `String(r[h] ?? "")`, header by header. */
  lemma RowLineIsFormatted(r: Row, headers: seq<string>)
    ensures RowLine(r, headers) == FormatLine(Fields(r, headers))
  {
    var f := Fields(r, headers);
    forall i | 0 <= i < |headers| ensures EscapeAll(f)[i] == Escape(Lookup(r, headers[i])) {
      EscapeAllAt(f, i);
    }
    assert seq(|headers|, i requires 0 <= i < |headers| => Escape(Lookup(r, headers[i])))
        == EscapeAll(f);
  }

  /** `rows.map(...)`: the data lines, one per row, in row order. */
  function RowLines(rows: seq<Row>, headers: seq<string>): (r: seq<string>)
    ensures |r| == |rows|
  {
    if rows == [] then [] else [RowLine(rows[0], headers)] + RowLines(rows[1..], headers)
  }

  /** The export's `toCSV(rows, headers)`. */
  function ToCsv(rows: seq<Row>, headers: seq<string>): string
  {
    Join([HeaderLine(headers)] + RowLines(rows, headers), "\n")
  }

  /** The values a document holds, header first and then one list per row. */
  function Table(rows: seq<Row>, headers: seq<string>): (t: seq<seq<string>>)
    ensures |t| == |rows|
  {
    if rows == [] then [] else [Fields(rows[0], headers)] + Table(rows[1..], headers)
  }

  /**
   Reads one record: quoted fields separated by commas, up to a line feed or
   the end of the text. Gives the values and the text from that line feed on.
   */
  function ReadRecord(s: string): (r: Option<(seq<string>, string)>)
    ensures r.Some? ==> |r.value.1| < |s|
    ensures r.Some? ==> r.value.1 == [] || r.value.1[0] == '\n'
    decreases |s|
  {
    if s == [] || s[0] != '"' then None
    else
      match ReadQuoted(s[1..])
      case None => None
      case Some((v, rest)) =>
        if rest == [] || rest[0] == '\n' then Some(([v], rest))
        else if rest[0] == ',' then
          match ReadRecord(rest[1..])
          case None => None
          case Some((vs, after)) => Some(([v] + vs, after))
        else None
  }

  /** A quote-aware reader for these documents: records separated by single line feeds. */
  function ReadCsv(s: string): Option<seq<seq<string>>>
    decreases |s|
  {
    match ReadRecord(s)
    case None => None
    case Some((fields, rest)) =>
      if rest == [] then Some([fields])
      else
        match ReadCsv(rest[1..])
        case None => None
        case Some(records) => Some([fields] + records)
  }

  /** A formatted line reads back as its values, whatever line ending follows it. */
  lemma {:induction false} ReadFormatLine(vs: seq<string>, rest: string)
    requires |vs| > 0
    requires rest == [] || rest[0] == '\n'
    ensures ReadRecord(FormatLine(vs) + rest) == Some((vs, rest))
  {
    if |vs| == 1 {
      ReadFormatLineOne(vs, rest);
    } else {
      ReadFormatLine(vs[1..], rest);
      ReadFormatLineMore(vs, rest);
    }
  }

  /** The base case: a line of one field. */
  lemma ReadFormatLineOne(vs: seq<string>, rest: string)
    requires |vs| == 1
    requires rest == [] || rest[0] == '\n'
    ensures ReadRecord(FormatLine(vs) + rest) == Some((vs, rest))
  {
    FormatLineFirst(vs);
    ReadEscaped(vs[0], rest);
    ReadRecordStep(EscapeText(vs[0]) + rest, vs[0], rest);
    assert vs == [vs[0]];
  }

  /** The step: a first field, a comma, and a line that already reads back. */
  lemma ReadFormatLineMore(vs: seq<string>, rest: string)
    requires |vs| > 1
    requires rest == [] || rest[0] == '\n'
    requires ReadRecord(FormatLine(vs[1..]) + rest) == Some((vs[1..], rest))
    ensures ReadRecord(FormatLine(vs) + rest) == Some((vs, rest))
  {
    var tail := FormatLine(vs[1..]) + rest;
    var after := "," + tail;
    FormatLineFirst(vs);
    assert FormatLine(vs) + rest == EscapeText(vs[0]) + after;
    ReadEscaped(vs[0], after);
    assert after[0] == ',' && after[1..] == tail;
    ReadRecordStep(EscapeText(vs[0]) + after, vs[0], after);
    assert vs == [vs[0]] + vs[1..];
  }

  /** One step of the record reader: a first field, then the end of the line or a comma and more fields. */
  lemma ReadRecordStep(s: string, v: string, after: string)
    requires s != [] && s[0] == '"' && ReadQuoted(s[1..]) == Some((v, after))
    ensures after == [] || after[0] == '\n' ==> ReadRecord(s) == Some(([v], after))
    ensures after != [] && after[0] == ',' && ReadRecord(after[1..]).Some? ==>
      ReadRecord(s) == Some(([v] + ReadRecord(after[1..]).value.0, ReadRecord(after[1..]).value.1))
  {
  }

  /** A line is its first escaped value, then, if there are more, a comma and the line of the rest. */
  lemma FormatLineFirst(vs: seq<string>)
    requires |vs| > 0
    ensures |vs| == 1 ==> FormatLine(vs) == EscapeText(vs[0])
    ensures |vs| > 1 ==> FormatLine(vs) == EscapeText(vs[0]) + "," + FormatLine(vs[1..])
  {
    assert EscapeAll(vs)[0] == EscapeText(vs[0]);
    assert EscapeAll(vs)[1..] == EscapeAll(vs[1..]);
  }

  /** The first field of a record is read back as its value. */
  lemma ReadEscaped(v: string, after: string)
    requires after == [] || after[0] != '"'
    ensures ReadQuoted((EscapeText(v) + after)[1..]) == Some((v, after))
    ensures (EscapeText(v) + after)[0] == '"'
  {
    assert (EscapeText(v) + after)[1..] == DoubleQuotes(v) + "\"" + after;
    ReadQuotedDoubled(v, after);
  }

  /** Lines formatted from a table and joined by line feeds read back as the table. */
  lemma {:induction false} ReadFormatLines(table: seq<seq<string>>)
    requires |table| > 0
    requires forall i :: 0 <= i < |table| ==> |table[i]| > 0
    ensures ReadCsv(Join(FormatLines(table), "\n")) == Some(table)
  {
    var lines := FormatLines(table);
    if |table| == 1 {
      assert Join(lines, "\n") == FormatLine(table[0]) + [];
      ReadFormatLine(table[0], []);
      assert table == [table[0]];
    } else {
      var later := Join(FormatLines(table[1..]), "\n");
      assert lines[1..] == FormatLines(table[1..]);
      assert Join(lines, "\n") == FormatLine(table[0]) + ("\n" + later);
      ReadFormatLine(table[0], "\n" + later);
      assert ("\n" + later)[1..] == later;
      ReadFormatLines(table[1..]);
      assert table == [table[0]] + table[1..];
    }
  }

  /** `table.map(FormatLine)`. */
  function FormatLines(table: seq<seq<string>>): (r: seq<string>)
    ensures |r| == |table|
  {
    if table == [] then [] else [FormatLine(table[0])] + FormatLines(table[1..])
  }

  lemma {:induction false} RowLinesAreFormatted(rows: seq<Row>, headers: seq<string>)
    ensures RowLines(rows, headers) == FormatLines(Table(rows, headers))
  {
    if rows != [] {
      RowLineIsFormatted(rows[0], headers);
      RowLinesAreFormatted(rows[1..], headers);
    }
  }

  /**
   The document reads back, with a quote-aware reader, as the header line
   followed by one record per row in row order, each holding exactly one
   value per header, `String(r[h] ?? "")` for header `h`.
   */
  lemma ReadToCsv(rows: seq<Row>, headers: seq<string>)
    requires |headers| > 0
    ensures ReadCsv(ToCsv(rows, headers)) == Some([headers] + Table(rows, headers))
  {
    var table := [headers] + Table(rows, headers);
    RowLinesAreFormatted(rows, headers);
    HeaderLineIsFormatted(headers);
    assert [HeaderLine(headers)] + RowLines(rows, headers) == FormatLines(table) by {
      assert table[1..] == Table(rows, headers);
    }
    forall i | 0 <= i < |table| ensures |table[i]| > 0 {
      if i > 0 {
        TableWidth(rows, headers, i - 1);
      }
    }
    ReadFormatLines(table);
  }

  lemma {:induction false} TableWidth(rows: seq<Row>, headers: seq<string>, i: nat)
    requires i < |rows|
    ensures Table(rows, headers)[i] == Fields(rows[i], headers)
  {
    if i > 0 {
      TableWidth(rows[1..], headers, i - 1);
    }
  }

  /** With no rows the document is the header line alone. */
  lemma ToCsvNoRows(headers: seq<string>)
    ensures ToCsv([], headers) == HeaderLine(headers)
  {
  }

  /** Appending a row appends one line feed and that row's line, and changes nothing before it. */
  lemma ToCsvAppend(rows: seq<Row>, row: Row, headers: seq<string>)
    ensures ToCsv(rows + [row], headers) == ToCsv(rows, headers) + "\n" + RowLine(row, headers)
  {
    RowLinesSnoc(rows, row, headers);
    assert [HeaderLine(headers)] + RowLines(rows + [row], headers)
        == ([HeaderLine(headers)] + RowLines(rows, headers)) + [RowLine(row, headers)];
    JoinSnoc([HeaderLine(headers)] + RowLines(rows, headers), RowLine(row, headers), "\n");
  }

  lemma {:induction false} RowLinesSnoc(rows: seq<Row>, row: Row, headers: seq<string>)
    ensures RowLines(rows + [row], headers) == RowLines(rows, headers) + [RowLine(row, headers)]
  {
    if rows == [] {
      assert rows + [row] == [row];
    } else {
      assert (rows + [row])[1..] == rows[1..] + [row];
      RowLinesSnoc(rows[1..], row, headers);
    }
  }

  /** With at least one header the document ends in a closing quote: there is no trailing line feed. */
  lemma ToCsvLastChar(rows: seq<Row>, headers: seq<string>)
    requires |headers| > 0
    ensures var text := ToCsv(rows, headers); |text| > 0 && text[|text| - 1] == '"'
  {
    if rows == [] {
      HeaderLineIsFormatted(headers);
      FormatLineLastChar(headers);
    } else {
      var last := rows[|rows| - 1];
      assert rows == rows[..|rows| - 1] + [last];
      ToCsvAppend(rows[..|rows| - 1], last, headers);
      RowLineIsFormatted(last, headers);
      FormatLineLastChar(Fields(last, headers));
    }
  }

  lemma {:induction false} FormatLineLastChar(vs: seq<string>)
    requires |vs| > 0
    ensures var line := FormatLine(vs); |line| > 0 && line[|line| - 1] == '"'
  {
    if |vs| > 1 {
      assert EscapeAll(vs)[1..] == EscapeAll(vs[1..]);
      FormatLineLastChar(vs[1..]);
    }
  }

  /** Without headers every line is empty, so the document is one line feed per row. */
  lemma {:induction false} ToCsvNoHeaders(rows: seq<Row>)
    ensures ToCsv(rows, []) == seq(|rows|, _ => '\n')
  {
    if rows == [] {
    } else {
      var init := rows[..|rows| - 1];
      assert rows == init + [rows[|rows| - 1]];
      ToCsvAppend(init, rows[|rows| - 1], []);
      ToCsvNoHeaders(init);
      assert seq(|rows|, _ => '\n') == seq(|init|, _ => '\n') + "\n";
    }
  }

  /**
   A quote inside a value is doubled and the value wrapped in quotes: with
   `a` = `He said ` and `b` = `hi`, `He said "hi"` becomes `"He said ""hi"""`.
   */
  lemma EscapeQuotedExample(a: string, b: string)
    requires '"' !in a && '"' !in b
    ensures EscapeText(a + "\"" + b + "\"") == "\"" + a + "\"\"" + b + "\"\"\""
  {
    DoubleQuotedExample(a, b);
  }

  /** The body of the example: each of its two quotes doubled, the rest kept. */
  lemma DoubleQuotedExample(a: string, b: string)
    requires '"' !in a && '"' !in b
    ensures DoubleQuotes(a + "\"" + b + "\"") == a + "\"\"" + b + "\"\""
  {
    DoubleQuotesThenQuote(a);
    DoubleQuotesThenQuote(b);
    DoubleQuotesAppend(a + "\"", b + "\"");
    assert a + "\"" + b + "\"" == (a + "\"") + (b + "\"");
  }

  /** Quote-free text followed by one quote: only that quote is doubled. */
  lemma DoubleQuotesThenQuote(a: string)
    requires '"' !in a
    ensures DoubleQuotes(a + "\"") == a + "\"\""
  {
    DoubleQuotesNoQuote(a);
    DoubleQuotesAppend(a, "\"");
    assert DoubleQuotes("\"") == "\"\"";
  }
}
