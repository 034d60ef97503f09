/**
 The csv module as the evidence tools use it: the writer with QUOTE_ALL and "\n", and the reader with
 the default dialect (section 2 of RFC 4180, rules 5 to 7, plus what the reader tolerates).  The
 module's field size limit is not modelled.
 */
module Csv {
  import opened Basics

  // ---------------------------------------------------------------------------------------------
  // The writer
  // ---------------------------------------------------------------------------------------------

  function DoubleQuote(c: char): string {
    if c == '"' then "\"\"" else [c]
  }

  function DoubleQuotes(s: string): string {
    if s == [] then "" else DoubleQuote(s[0]) + DoubleQuotes(s[1..])
  }

  function RowText(row: seq<string>): string {
    if row == [] then "\n"
    else "\"" + (DoubleQuotes(row[0]) + ("\"" + if |row| == 1 then "\n" else "," + RowText(row[1..])))
  }

  function RowsText(rows: seq<seq<string>>): string {
    if rows == [] then "" else RowText(rows[0]) + RowsText(rows[1..])
  }

  lemma {:induction false} RowsTextConcat(a: seq<seq<string>>, b: seq<seq<string>>)
    ensures RowsText(a + b) == RowsText(a) + RowsText(b)
  {
    if a == [] {
      assert a + b == b;
    } else {
      HeadTail(a, b);
      RowsTextConcat(a[1..], b);
      Assoc(RowText(a[0]), RowsText(a[1..]), RowsText(b));
    }
  }

  lemma RowsTextOfOne(row: seq<string>)
    ensures RowsText([row]) == RowText(row)
  {
    assert RowsText([row]) == RowText(row) + RowsText([]);
  }

  lemma RowsTextSnoc(rows: seq<seq<string>>, row: seq<string>)
    ensures RowsText(rows + [row]) == RowsText(rows) + RowText(row)
  {
    RowsTextConcat(rows, [row]);
    RowsTextOfOne(row);
  }

  // ---------------------------------------------------------------------------------------------
  // The reader: one character at a time, and an end-of-line event after each line
  // ---------------------------------------------------------------------------------------------

  datatype Mode = StartRecord | StartField | InField | InQuotedField | QuoteInQuotedField | EatNewlines

  datatype Reader = Reader(mode: Mode, field: string, fields: seq<string>)

  const FRESH: Reader := Reader(StartRecord, "", [])

  predicate IsNewline(c: char) {
    c == '\n' || c == '\r'
  }

  function Save(r: Reader, mode: Mode): Reader {
    Reader(mode, "", r.fields + [r.field])
  }

  function Add(r: Reader, c: char, mode: Mode): Reader {
    Reader(mode, r.field + [c], r.fields)
  }

  function StartFieldStep(r: Reader, c: char): Reader {
    if IsNewline(c) then Save(r, EatNewlines)
    else if c == '"' then r.(mode := InQuotedField)
    else if c == ',' then Save(r, StartField)
    else Add(r, c, InField)
  }

  /** None is the reader's error. */
  function Step(r: Reader, c: char): Option<Reader> {
    match r.mode
    case StartRecord => Some(if IsNewline(c) then r.(mode := EatNewlines) else StartFieldStep(r, c))
    case StartField => Some(StartFieldStep(r, c))
    case InField =>
      Some(if IsNewline(c) then Save(r, EatNewlines) else if c == ',' then Save(r, StartField) else Add(r, c, InField))
    case InQuotedField => Some(if c == '"' then r.(mode := QuoteInQuotedField) else Add(r, c, InQuotedField))
    case QuoteInQuotedField =>
      Some(if c == '"' then Add(r, c, InQuotedField)
           else if c == ',' then Save(r, StartField)
           else if IsNewline(c) then Save(r, EatNewlines)
           else Add(r, c, InField))
    case EatNewlines => if IsNewline(c) then Some(r) else None
  }

  function EndLine(r: Reader): Reader {
    match r.mode
    case StartRecord => r
    case StartField => Save(r, StartRecord)
    case InField => Save(r, StartRecord)
    case InQuotedField => r
    case QuoteInQuotedField => Save(r, StartRecord)
    case EatNewlines => r.(mode := StartRecord)
  }

  /** Lines end at "\n", "\r\n", a lone "\r" or the end of the text. */
  predicate EndsLine(text: string)
    requires text != []
  {
    |text| == 1 || text[0] == '\n' || (text[0] == '\r' && text[1] != '\n')
  }

  function ReadFrom(r: Reader, text: string): Option<seq<seq<string>>>
    decreases |text|
  {
    if text == [] then Some(if r.mode == InQuotedField then [r.fields + [r.field]] else [])
    else
      match Step(r, text[0])
      case None => None
      case Some(s) => ReadOn(s, text)
  }

  function ReadOn(s: Reader, text: string): Option<seq<seq<string>>>
    requires text != []
    decreases |text|, 0
  {
    if !EndsLine(text) then ReadFrom(s, text[1..])
    else
      var e := EndLine(s);
      if e.mode != StartRecord then ReadFrom(e, text[1..]) else PrependRow(e.fields, ReadFrom(FRESH, text[1..]))
  }

  function PrependRow(row: seq<string>, rows: Option<seq<seq<string>>>): Option<seq<seq<string>>> {
    match rows
    case None => None
    case Some(rest) => Some([row] + rest)
  }

  function ReadRows(text: string): Option<seq<seq<string>>> {
    ReadFrom(FRESH, text)
  }

  // ---------------------------------------------------------------------------------------------
  // Reading back what was written
  // ---------------------------------------------------------------------------------------------

  lemma StepInside(r: Reader, c: char, rest: string)
    requires r.mode == InQuotedField && c != '"' && rest != []
    ensures ReadFrom(r, [c] + rest) == ReadFrom(Add(r, c, InQuotedField), rest)
  {
    assert ([c] + rest)[1..] == rest;
  }

  lemma StepQuote(r: Reader, rest: string)
    requires r.mode == InQuotedField && rest != []
    ensures ReadFrom(r, "\"" + rest) == ReadFrom(r.(mode := QuoteInQuotedField), rest)
  {
    assert ("\"" + rest)[1..] == rest;
  }

  lemma StepDoubledQuote(r: Reader, rest: string)
    requires r.mode == InQuotedField && rest != []
    ensures ReadFrom(r, "\"\"" + rest) == ReadFrom(Add(r, '"', InQuotedField), rest)
  {
    var tail := "\"" + rest;
    assert "\"\"" + rest == "\"" + tail;
    StepQuote(r, tail);
    assert tail[1..] == rest;
  }

  /** One character of a field as the writer puts it. */
  lemma StepWritten(r: Reader, c: char, rest: string)
    requires r.mode == InQuotedField && rest != []
    ensures ReadFrom(r, DoubleQuote(c) + rest) == ReadFrom(Add(r, c, InQuotedField), rest)
  {
    if c == '"' {
      StepDoubledQuote(r, rest);
    } else {
      StepInside(r, c, rest);
    }
  }

  lemma {:induction false} ReadQuoted(r: Reader, s: string, rest: string)
    requires r.mode == InQuotedField && rest != []
    ensures ReadFrom(r, DoubleQuotes(s) + rest) == ReadFrom(r.(field := r.field + s), rest)
    decreases |s|
  {
    if s == [] {
      assert DoubleQuotes(s) + rest == rest;
      assert r.field + s == r.field;
    } else {
      var next := Add(r, s[0], InQuotedField);
      StepWritten(r, s[0], DoubleQuotes(s[1..]) + rest);
      Assoc(DoubleQuote(s[0]), DoubleQuotes(s[1..]), rest);
      ReadQuoted(next, s[1..], rest);
      Assoc(r.field, [s[0]], s[1..]);
      assert [s[0]] + s[1..] == s;
    }
  }

  /** A whole quoted field, from its opening quote to just after its closing quote. */
  lemma ReadField(r: Reader, s: string, rest: string)
    requires (r.mode == StartRecord || r.mode == StartField) && r.field == "" && rest != []
    ensures ReadFrom(r, "\"" + (DoubleQuotes(s) + ("\"" + rest)))
        == ReadFrom(Reader(QuoteInQuotedField, s, r.fields), rest)
  {
    var inside := DoubleQuotes(s) + ("\"" + rest);
    var q := r.(mode := InQuotedField);
    assert ("\"" + inside)[1..] == inside;
    assert ReadFrom(r, "\"" + inside) == ReadFrom(q, inside);
    ReadQuoted(q, s, "\"" + rest);
    assert "" + s == s;
    StepQuote(q.(field := s), rest);
  }

  lemma ReadComma(s: string, fields: seq<string>, rest: string)
    requires rest != []
    ensures ReadFrom(Reader(QuoteInQuotedField, s, fields), "," + rest)
        == ReadFrom(Reader(StartField, "", fields + [s]), rest)
  {
    assert ("," + rest)[1..] == rest;
  }

  lemma ReadEnd(s: string, fields: seq<string>, rest: string)
    ensures ReadFrom(Reader(QuoteInQuotedField, s, fields), "\n" + rest)
        == PrependRow(fields + [s], ReadFrom(FRESH, rest))
  {
    assert ("\n" + rest)[1..] == rest;
  }

  lemma {:induction false} ReadRow(r: Reader, row: seq<string>, rest: string)
    requires (r.mode == StartRecord || r.mode == StartField) && r.field == "" && row != []
    ensures ReadFrom(r, RowText(row) + rest) == PrependRow(r.fields + row, ReadFrom(FRESH, rest))
    decreases |row|
  {
    var body := DoubleQuotes(row[0]);
    if |row| == 1 {
      assert RowText(row) + rest == "\"" + (body + ("\"" + ("\n" + rest)));
      ReadField(r, row[0], "\n" + rest);
      ReadEnd(row[0], r.fields, rest);
      assert row == [row[0]];
    } else {
      var tail := RowText(row[1..]) + rest;
      assert RowText(row) + rest == "\"" + (body + ("\"" + ("," + tail)));
      ReadField(r, row[0], "," + tail);
      ReadComma(row[0], r.fields, tail);
      ReadRow(Reader(StartField, "", r.fields + [row[0]]), row[1..], rest);
      assert r.fields + [row[0]] + row[1..] == r.fields + row;
    }
  }

  /** Any rows, with any text in their fields (quotes, commas and line ends included), read back. */
  lemma {:induction false} ReadRowsOfRowsText(rows: seq<seq<string>>)
    requires forall i :: 0 <= i < |rows| ==> rows[i] != []
    ensures ReadRows(RowsText(rows)) == Some(rows)
  {
    if rows != [] {
      ReadRow(FRESH, rows[0], RowsText(rows[1..]));
      ReadRowsOfRowsText(rows[1..]);
      assert [] + rows[0] == rows[0];
      assert rows == [rows[0]] + rows[1..];
    }
  }
}
