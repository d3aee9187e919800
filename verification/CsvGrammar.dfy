/**
  The CSV dialect as a recursive grammar over the unread text. It has no indices, no counters and no
  substring replacement; CsvParser proves that the index machine computes exactly this, and CsvRoundTrip
  that it inverts rendering.
 */
module CsvGrammar {

  type Row = seq<string>

  datatype Dialect = Dialect(delimiter: char, quote: char)

  datatype Error = InvalidCsv | MissingQuote | MissingQuoteAtEnd

  datatype Parse = Rows(rows: seq<Row>) | Failed(error: Error)

  /** One field and the text that follows it. */
  datatype Scan = Field(value: string, rest: string) | Bad(error: Error)

  predicate IsNewline(c: char) {
    c == '\n' || c == '\r'
  }

  predicate EndsField(d: Dialect, c: char) {
    c == d.delimiter || IsNewline(c)
  }

  /** Doubled quotes stand for one quote; a lone quote stands for itself. */
  function Collapse(quote: char, s: string): (r: string)
    ensures |r| <= |s|
  {
    if s == [] then []
    else if |s| >= 2 && s[0] == quote && s[1] == quote then [quote] + Collapse(quote, s[2..])
    else [s[0]] + Collapse(quote, s[1..])
  }

  /** Number of leading characters that belong to an unquoted field. */
  function UnquotedLength(d: Dialect, s: string): (n: nat)
    ensures n <= |s|
  {
    if s == [] || EndsField(d, s[0]) then 0 else 1 + UnquotedLength(d, s[1..])
  }

  /**
    The inside of a quoted field, after its opening quote. A quote closes the field unless another quote
    follows it and at least one more character follows that.
   */
  function QuotedBody(quote: char, t: string): (r: Scan)
    requires t != []
    ensures r.Field? ==> |r.rest| < |t|
    ensures r.Bad? ==> r.error == MissingQuoteAtEnd
  {
    if t[0] == quote then
      if |t| <= 2 || t[1] != quote then Field([], t[1..])
      else Prepend(quote, QuotedBody(quote, t[2..]))
    else if |t| == 1 then Bad(MissingQuoteAtEnd)
    else Prepend(t[0], QuotedBody(quote, t[1..]))
  }

  function Prepend(c: char, scan: Scan): Scan {
    match scan
    case Field(value, rest) => Field([c] + value, rest)
    case Bad(_) => scan
  }

  function ScanField(d: Dialect, s: string): (r: Scan)
    requires s != []
    ensures r.Field? ==> |r.rest| <= |s|
    ensures r.Field? && |r.rest| == |s| ==> EndsField(d, s[0])
    ensures r.Bad? ==> r.error != MissingQuote
  {
    if s[0] == d.quote then
      if |s| < 2 then Bad(InvalidCsv) else QuotedBody(d.quote, s[1..])
    else
      var n := UnquotedLength(d, s);
      Field(Collapse(d.quote, s[..n]), s[n..])
  }

  /** What remains after one newline: CRLF counts as one. */
  function SkipNewline(s: string): (r: string)
    requires s != []
    ensures |r| < |s|
  {
    if |s| >= 2 && s[0] == '\r' && s[1] == '\n' then s[2..] else s[1..]
  }

  /** Prefixes the first row of an already parsed tail with one more field. */
  function AddField(value: string, tail: Parse): (r: Parse)
    requires tail.Rows? ==> tail.rows != []
    ensures r.Rows? ==> r.rows != []
  {
    match tail
    case Rows(rows) => Rows([[value] + rows[0]] + rows[1..])
    case Failed(_) => tail
  }

  function AddRow(row: Row, tail: Parse): (r: Parse)
    ensures r.Rows? ==> r.rows != []
  {
    match tail
    case Rows(rows) => Rows([row] + rows)
    case Failed(_) => tail
  }

  /**
    Non-empty text that starts at a field. The first row of the result continues the row the field is in.
    Text after a closing quote that is neither delimiter nor newline ends the parse, and a delimiter or a
    newline at the very end of the text opens no further field or row.
   */
  function Fields(d: Dialect, s: string): (r: Parse)
    requires s != []
    ensures r.Rows? ==> r.rows != []
    ensures r.Failed? ==> r.error != MissingQuote
    decreases |s|
  {
    match ScanField(d, s)
    case Bad(e) => Failed(e)
    case Field(value, rest) =>
      if rest == [] then Rows([[value]])
      else if IsNewline(rest[0]) then
        var next := SkipNewline(rest);
        if next == [] then Rows([[value]]) else AddRow([value], Fields(d, next))
      else if rest[0] == d.delimiter then
        if rest[1..] == [] then Rows([[value]]) else AddField(value, Fields(d, rest[1..]))
      else Rows([[value]])
  }

  function Document(d: Dialect, s: string): Parse {
    if s == [] then Rows([]) else Fields(d, s)
  }

  /** The raw text of a quoted body that has been passed over without meeting its end. */
  ghost predicate Passed(quote: char, raw: string)
  {
    raw == [] ||
    (if raw[0] == quote then |raw| >= 2 && raw[1] == quote && Passed(quote, raw[2..])
     else Passed(quote, raw[1..]))
  }

  lemma {:induction false} PassedAppend(quote: char, raw: string, more: string)
    requires Passed(quote, raw)
    requires Passed(quote, more)
    ensures Passed(quote, raw + more)
  {
    if raw == [] {
      assert raw + more == more;
    } else {
      var n := if raw[0] == quote then 2 else 1;
      assert (raw + more)[n..] == raw[n..] + more;
      PassedAppend(quote, raw[n..], more);
    }
  }

  ghost function PrependAll(raw: string, scan: Scan): Scan {
    match scan
    case Field(value, rest) => Field(raw + value, rest)
    case Bad(_) => scan
  }

  lemma PrependAllOne(c: char, raw: string, scan: Scan)
    ensures PrependAll([c] + raw, scan) == Prepend(c, PrependAll(raw, scan))
  {
    if scan.Field? {
      assert ([c] + raw) + scan.value == [c] + (raw + scan.value);
    }
  }

  lemma QuotedBodyStep(quote: char, t: string, n: nat)
    requires n < |t|
    requires if t[0] == quote then n == 2 && t[1] == quote else n == 1
    ensures QuotedBody(quote, t) == Prepend(t[0], QuotedBody(quote, t[n..]))
  {
  }

  /** Passing over raw text leaves the grammar with the same question about the rest. */
  lemma {:induction false} PassedScan(quote: char, raw: string, rest: string)
    requires Passed(quote, raw)
    requires rest != []
    ensures QuotedBody(quote, raw + rest) == PrependAll(Collapse(quote, raw), QuotedBody(quote, rest))
  {
    var t := raw + rest;
    if raw == [] {
      assert t == rest;
    } else {
      var n := if raw[0] == quote then 2 else 1;
      assert t[n..] == raw[n..] + rest;
      PassedScan(quote, raw[n..], rest);
      QuotedBodyStep(quote, t, n);
      PrependAllOne(raw[0], Collapse(quote, raw[n..]), QuotedBody(quote, rest));
    }
  }

  /** What the grammar makes of the unread text, once its first field and what follows are known. */
  lemma FieldThen(d: Dialect, s: string, value: string, rest: string)
    requires s != [] && ScanField(d, s) == Field(value, rest)
    ensures rest == [] ==> Fields(d, s) == Rows([[value]])
    ensures rest != [] && IsNewline(rest[0]) && SkipNewline(rest) == [] ==> Fields(d, s) == Rows([[value]])
    ensures rest != [] && IsNewline(rest[0]) && SkipNewline(rest) != [] ==>
      Fields(d, s) == AddRow([value], Fields(d, SkipNewline(rest)))
    ensures rest != [] && !IsNewline(rest[0]) && rest[0] == d.delimiter && rest[1..] == [] ==>
      Fields(d, s) == Rows([[value]])
    ensures rest != [] && !IsNewline(rest[0]) && rest[0] == d.delimiter && rest[1..] != [] ==>
      Fields(d, s) == AddField(value, Fields(d, rest[1..]))
    ensures rest != [] && !EndsField(d, rest[0]) ==> Fields(d, s) == Rows([[value]])
  {
  }
}
