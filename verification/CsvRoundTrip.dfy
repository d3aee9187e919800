/**
  Rendering rows, each field quoted (section 2 of RFC 4180, rules 5 to 7) or bare (rules 2 and 4), and parsing them
  again.
 */
module CsvRoundTrip {
  import opened CsvGrammar
  import opened Strings

  datatype Newline = LF | CR | CRLF {
    function Text(): (r: string)
      ensures r != [] && IsNewline(r[0])
    {
      match this
      case LF => "\n"
      case CR => "\r"
      case CRLF => "\r\n"
    }
  }

  /** A field and how it is written. */
  datatype Cell = Cell(value: string, quoted: bool)

  type Line = seq<Cell>

  /** Delimiter and quote are told apart from each other and from the newline characters. */
  predicate Unambiguous(d: Dialect) {
    d.delimiter != d.quote && !IsNewline(d.delimiter) && !IsNewline(d.quote)
  }

  /** Text that needs no quotes around it; a quote inside is doubled there as well. */
  predicate Bare(d: Dialect, field: string) {
    && (field != [] ==> field[0] != d.quote)
    && forall k :: 0 <= k < |field| ==> field[k] != d.delimiter && !IsNewline(field[k])
  }

  function Doubled(quote: char, field: string): string {
    if field == [] then []
    else (if field[0] == quote then [quote, quote] else [field[0]]) + Doubled(quote, field[1..])
  }

  function Quoted(quote: char, field: string): (r: string)
    ensures r != [] && r[0] == quote
  {
    [quote] + Doubled(quote, field) + [quote]
  }

  function RenderCell(d: Dialect, cell: Cell): string {
    if cell.quoted then Quoted(d.quote, cell.value) else Doubled(d.quote, cell.value)
  }

  function RenderLine(d: Dialect, line: Line): string
    requires line != []
  {
    if |line| == 1 then RenderCell(d, line[0])
    else RenderCell(d, line[0]) + [d.delimiter] + RenderLine(d, line[1..])
  }

  /** Lines each with the newline that follows it; the last newline is written only when trailing. */
  function Render(d: Dialect, lines: seq<Line>, newlines: seq<Newline>, trailing: bool): string
    requires |lines| == |newlines|
    requires forall k :: 0 <= k < |lines| ==> lines[k] != []
  {
    if lines == [] then []
    else if |lines| == 1 then RenderLine(d, lines[0]) + (if trailing then newlines[0].Text() else [])
    else RenderLine(d, lines[0]) + newlines[0].Text() + Render(d, lines[1..], newlines[1..], trailing)
  }

  function Values(line: Line): Row {
    seq(|line|, k requires 0 <= k < |line| => line[k].value)
  }

  function AllValues(lines: seq<Line>): seq<Row> {
    seq(|lines|, k requires 0 <= k < |lines| => Values(lines[k]))
  }

  predicate Writable(d: Dialect, line: Line) {
    line != [] && forall k :: 0 <= k < |line| ==> line[k].quoted || Bare(d, line[k].value)
  }

  /** The line ends in nothing at all. */
  predicate EndsEmpty(line: Line)
    requires line != []
  {
    line[|line| - 1] == Cell("", false)
  }

  /** Text that reads back: bare fields need no quotes, the last of them is not an empty one at the very end of the
      text, and no lone carriage return meets a line feed. */
  predicate Readable(d: Dialect, lines: seq<Line>, newlines: seq<Newline>, trailing: bool)
    requires |lines| == |newlines|
  {
    && (forall k :: 0 <= k < |lines| ==> Writable(d, lines[k]))
    && (lines != [] && !trailing ==> !EndsEmpty(lines[|lines| - 1]))
    && (forall k :: 0 < k < |lines| && newlines[k - 1].CR? && lines[k] == [Cell("", false)] ==> !newlines[k].LF?)
  }

  lemma {:induction false} DoubledIsPassed(quote: char, field: string)
    ensures Passed(quote, Doubled(quote, field))
    ensures Collapse(quote, Doubled(quote, field)) == field
  {
    if field != [] {
      var tail := Doubled(quote, field[1..]);
      DoubledIsPassed(quote, field[1..]);
      if field[0] == quote {
        assert Doubled(quote, field)[2..] == tail;
      } else {
        assert Doubled(quote, field)[1..] == tail;
      }
    }
  }

  lemma ScanQuotedField(d: Dialect, field: string, rest: string)
    requires rest == [] || rest[0] != d.quote
    ensures ScanField(d, Quoted(d.quote, field) + rest) == Field(field, rest)
  {
    var s := Quoted(d.quote, field) + rest;
    var raw := Doubled(d.quote, field);
    var closing := [d.quote] + rest;
    DoubledIsPassed(d.quote, field);
    assert s[1..] == raw + closing;
    PassedScan(d.quote, raw, closing);
    assert closing[1..] == rest;
    assert field + [] == field;
  }

  lemma {:induction false} BareLength(d: Dialect, text: string, rest: string)
    requires forall k :: 0 <= k < |text| ==> text[k] != d.delimiter && !IsNewline(text[k])
    requires rest == [] || rest[0] == d.delimiter || IsNewline(rest[0])
    ensures UnquotedLength(d, text + rest) == |text|
  {
    if text == [] {
      assert text + rest == rest;
    } else {
      assert (text + rest)[1..] == text[1..] + rest;
      BareLength(d, text[1..], rest);
    }
  }

  lemma {:induction false} DoubledIsBare(d: Dialect, field: string)
    requires Unambiguous(d)
    requires forall k :: 0 <= k < |field| ==> field[k] != d.delimiter && !IsNewline(field[k])
    ensures var text := Doubled(d.quote, field);
      && (forall k :: 0 <= k < |text| ==> text[k] != d.delimiter && !IsNewline(text[k]))
      && (text == [] <==> field == []) && (field != [] ==> text[0] == field[0])
  {
    if field != [] {
      DoubledIsBare(d, field[1..]);
    }
  }

  /** A field ends at the delimiter or newline after it, or with the text. */
  lemma ScanCell(d: Dialect, cell: Cell, rest: string)
    requires Unambiguous(d) && (cell.quoted || Bare(d, cell.value))
    requires rest == [] || rest[0] == d.delimiter || IsNewline(rest[0])
    requires RenderCell(d, cell) + rest != []
    ensures ScanField(d, RenderCell(d, cell) + rest) == Field(cell.value, rest)
  {
    if cell.quoted {
      ScanQuotedField(d, cell.value, rest);
    } else {
      var text := Doubled(d.quote, cell.value);
      DoubledIsBare(d, cell.value);
      BareLength(d, text, rest);
      DoubledIsPassed(d.quote, cell.value);
      assert (text + rest)[..|text|] == text && (text + rest)[|text|..] == rest;
    }
  }

  /** The parse of a row and of the text after it, which is empty or starts with a newline. */
  ghost function RowThen(d: Dialect, row: Row, tail: string): Parse {
    if tail == [] || SkipNewline(tail) == [] then Rows([row]) else AddRow(row, Fields(d, SkipNewline(tail)))
  }

  lemma AddFieldToRow(d: Dialect, row: Row, tail: string)
    requires row != []
    ensures RowThen(d, row[1..], tail).Rows? ==> RowThen(d, row[1..], tail).rows != []
    ensures AddField(row[0], RowThen(d, row[1..], tail)) == RowThen(d, row, tail)
  {
    assert row == [row[0]] + row[1..];
  }

  lemma NotNothing(d: Dialect, line: Line)
    requires line != [] && (!EndsEmpty(line) || |line| > 1)
    ensures RenderLine(d, line) != []
  {
  }

  /** What follows a rendered line matters to its parse only through the newline it starts with. */
  lemma {:induction false} ParseLine(d: Dialect, line: Line, tail: string)
    requires Unambiguous(d) && Writable(d, line)
    requires tail == [] || IsNewline(tail[0])
    requires tail == [] ==> !EndsEmpty(line)
    ensures RenderLine(d, line) + tail != []
    ensures Fields(d, RenderLine(d, line) + tail) == RowThen(d, Values(line), tail)
  {
    var s := RenderLine(d, line) + tail;
    if tail == [] {
      NotNothing(d, line);
    }
    var first := line[0].value;
    if |line| == 1 {
      ScanCell(d, line[0], tail);
      FieldThen(d, s, first, tail);
      assert Values(line) == [first];
    } else {
      ParseLine(d, line[1..], tail);
      Associative(RenderCell(d, line[0]) + [d.delimiter], RenderLine(d, line[1..]), tail);
      FieldBefore(d, line[0], RenderLine(d, line[1..]) + tail);
      assert Values(line)[1..] == Values(line[1..]);
      AddFieldToRow(d, Values(line), tail);
    }
  }

  lemma SkipsExactly(newline: Newline, tail: string)
    requires newline.CR? ==> tail == [] || tail[0] != '\n'
    ensures SkipNewline(newline.Text() + tail) == tail
  {
    assert (newline.Text() + tail)[|newline.Text()|..] == tail;
  }

  lemma ParseLineThenRows(d: Dialect, line: Line, newline: Newline, next: string, rows: seq<Row>)
    requires Unambiguous(d) && Writable(d, line)
    requires next != [] && (newline.CR? ==> next[0] != '\n')
    requires Fields(d, next) == Rows(rows)
    ensures Fields(d, RenderLine(d, line) + newline.Text() + next) == Rows([Values(line)] + rows)
  {
    var tail := newline.Text() + next;
    SkipsExactly(newline, next);
    ParseLine(d, line, tail);
    Associative(RenderLine(d, line), newline.Text(), next);
    RowsAfterNewline(d, Values(line), tail, next, rows);
  }

  lemma RowsAfterNewline(d: Dialect, row: Row, tail: string, next: string, rows: seq<Row>)
    requires tail != [] && next != [] && SkipNewline(tail) == next && Fields(d, next) == Rows(rows)
    ensures RowThen(d, row, tail) == Rows([row] + rows)
  {
  }

  lemma ParseLastLine(d: Dialect, line: Line, newline: Newline, trailing: bool)
    requires Unambiguous(d) && Writable(d, line) && (!trailing ==> !EndsEmpty(line))
    ensures var s := RenderLine(d, line) + (if trailing then newline.Text() else []);
      s != [] && Fields(d, s) == Rows([Values(line)])
  {
    SkipsExactly(newline, []);
    assert newline.Text() + [] == newline.Text();
    ParseLine(d, line, if trailing then newline.Text() else []);
  }

  /** The first character of a line is that of its first field, or the delimiter after it. */
  lemma LineStarts(d: Dialect, line: Line)
    requires Unambiguous(d) && Writable(d, line) && line != [Cell("", false)]
    ensures RenderLine(d, line) != [] && !IsNewline(RenderLine(d, line)[0])
  {
    if line[0] == Cell("", false) {
      assert RenderLine(d, line)[0] == d.delimiter;
    }
  }

  /** Only an empty line lets its text start with a newline, and then with its own. */
  lemma StartsWithLineFeed(d: Dialect, lines: seq<Line>, newlines: seq<Newline>, trailing: bool)
    requires Unambiguous(d) && |lines| == |newlines| && lines != [] && Readable(d, lines, newlines, trailing)
    requires lines[0] == [Cell("", false)] ==> !newlines[0].LF?
    ensures var s := Render(d, lines, newlines, trailing); s != [] && s[0] != '\n'
  {
    if lines[0] != [Cell("", false)] {
      LineStarts(d, lines[0]);
    } else {
      assert RenderLine(d, lines[0]) == [];
      assert newlines[0].Text()[0] == '\r';
    }
  }

  lemma NotNothingAtAll(d: Dialect, lines: seq<Line>, newlines: seq<Newline>, trailing: bool)
    requires Unambiguous(d) && |lines| == |newlines| && lines != [] && Readable(d, lines, newlines, trailing)
    ensures Render(d, lines, newlines, trailing) != []
  {
    if |lines| == 1 {
      ParseLastLine(d, lines[0], newlines[0], trailing);
    }
  }

  lemma RestIsReadable(d: Dialect, lines: seq<Line>, newlines: seq<Newline>, trailing: bool)
    requires |lines| == |newlines| && lines != [] && Readable(d, lines, newlines, trailing)
    ensures Readable(d, lines[1..], newlines[1..], trailing)
  {
  }

  /**
    Parsing undoes rendering, whichever fields are quoted, whatever the quoted ones hold, and whichever newlines
    separate the lines.
   */
  lemma {:induction false} RoundTrip(d: Dialect, lines: seq<Line>, newlines: seq<Newline>, trailing: bool)
    requires Unambiguous(d) && |lines| == |newlines| && Readable(d, lines, newlines, trailing)
    ensures Document(d, Render(d, lines, newlines, trailing)) == Rows(AllValues(lines))
  {
    if lines == [] {
    } else if |lines| == 1 {
      ParseLastLine(d, lines[0], newlines[0], trailing);
      assert AllValues(lines) == [Values(lines[0])];
    } else {
      RestIsReadable(d, lines, newlines, trailing);
      RoundTrip(d, lines[1..], newlines[1..], trailing);
      OneLineMore(d, lines, newlines, trailing);
    }
  }

  lemma OneLineMore(d: Dialect, lines: seq<Line>, newlines: seq<Newline>, trailing: bool)
    requires Unambiguous(d) && |lines| == |newlines| && |lines| > 1 && Readable(d, lines, newlines, trailing)
    requires Readable(d, lines[1..], newlines[1..], trailing)
    requires Document(d, Render(d, lines[1..], newlines[1..], trailing)) == Rows(AllValues(lines[1..]))
    ensures Document(d, Render(d, lines, newlines, trailing)) == Rows(AllValues(lines))
  {
    var next := Render(d, lines[1..], newlines[1..], trailing);
    NotNothingAtAll(d, lines[1..], newlines[1..], trailing);
    if newlines[0].CR? {
      StartsWithLineFeed(d, lines[1..], newlines[1..], trailing);
    }
    ParseLineThenRows(d, lines[0], newlines[0], next, AllValues(lines[1..]));
    AllValuesOfMore(lines);
    RenderMore(d, lines, newlines, trailing);
  }

  lemma AllValuesOfMore(lines: seq<Line>)
    requires lines != []
    ensures AllValues(lines) == [Values(lines[0])] + AllValues(lines[1..])
  {
  }

  lemma RenderMore(d: Dialect, lines: seq<Line>, newlines: seq<Newline>, trailing: bool)
    requires |lines| == |newlines| > 1 && forall k :: 0 <= k < |lines| ==> lines[k] != []
    ensures Render(d, lines, newlines, trailing) ==
      RenderLine(d, lines[0]) + newlines[0].Text() + Render(d, lines[1..], newlines[1..], trailing)
  {
  }

  predicate AllQuoted(line: Line) {
    forall k :: 0 <= k < |line| ==> line[k].quoted
  }

  /** In particular every table reads back if all its fields are quoted. */
  lemma QuotedRoundTrip(d: Dialect, lines: seq<Line>, newlines: seq<Newline>, trailing: bool)
    requires Unambiguous(d) && |lines| == |newlines|
    requires forall k :: 0 <= k < |lines| ==> lines[k] != [] && AllQuoted(lines[k])
    ensures Document(d, Render(d, lines, newlines, trailing)) == Rows(AllValues(lines))
  {
    forall k | 0 <= k < |lines| ensures Writable(d, lines[k]) && !EndsEmpty(lines[k]) {
      assert AllQuoted(lines[k]);
    }
    RoundTrip(d, lines, newlines, trailing);
  }

  /** A newline with no field before it still makes a row: one empty field. Only at the end of the text is it
      dropped. */
  lemma EmptyLineIsRow(d: Dialect, newline: Newline, next: string)
    requires Unambiguous(d)
    requires next != [] && next[0] != '\n'
    ensures Document(d, newline.Text() + next) == AddRow([""], Document(d, next))
  {
    var s := newline.Text() + next;
    SkipsExactly(newline, next);
    assert s[..0] == [] && s[0..] == s;
    FieldThen(d, s, "", s);
  }

  /** A delimiter at the very end of the text opens no field: the empty last field is lost. */
  lemma {:induction false} TrailingDelimiterIsLost(d: Dialect, line: Line)
    requires Unambiguous(d) && Writable(d, line)
    ensures Document(d, RenderLine(d, line) + [d.delimiter]) == Rows([Values(line)])
  {
    if |line| == 1 {
      LostAfterOne(d, line[0]);
      assert line == [line[0]] && Values(line) == [line[0].value];
    } else {
      TrailingDelimiterIsLost(d, line[1..]);
      LostAfterMore(d, line);
    }
  }

  lemma LostAfterOne(d: Dialect, cell: Cell)
    requires Unambiguous(d) && (cell.quoted || Bare(d, cell.value))
    ensures Document(d, RenderCell(d, cell) + [d.delimiter]) == Rows([[cell.value]])
  {
    ScanCell(d, cell, [d.delimiter]);
    FieldThen(d, RenderCell(d, cell) + [d.delimiter], cell.value, [d.delimiter]);
  }

  lemma LostAfterMore(d: Dialect, line: Line)
    requires Unambiguous(d) && Writable(d, line) && |line| > 1
    requires Document(d, RenderLine(d, line[1..]) + [d.delimiter]) == Rows([Values(line[1..])])
    ensures Document(d, RenderLine(d, line) + [d.delimiter]) == Rows([Values(line)])
  {
    var next := RenderLine(d, line[1..]) + [d.delimiter];
    Associative(RenderCell(d, line[0]) + [d.delimiter], RenderLine(d, line[1..]), [d.delimiter]);
    FieldBefore(d, line[0], next);
    ValuesOfMore(line);
  }

  lemma ValuesOfMore(line: Line)
    requires line != []
    ensures Values(line) == [line[0].value] + Values(line[1..])
  {
  }

  lemma FieldBefore(d: Dialect, cell: Cell, next: string)
    requires Unambiguous(d) && (cell.quoted || Bare(d, cell.value)) && next != []
    ensures Fields(d, RenderCell(d, cell) + [d.delimiter] + next) == AddField(cell.value, Fields(d, next))
  {
    var rest := [d.delimiter] + next;
    Associative(RenderCell(d, cell), [d.delimiter], next);
    ScanCell(d, cell, rest);
    assert rest[1..] == next;
    FieldThen(d, RenderCell(d, cell) + rest, cell.value, rest);
  }

  /** A quoted field that nothing closes fails, unless a doubled quote at the very end is taken for its closing. */
  lemma UnclosedFails(d: Dialect, field: string)
    ensures Document(d, [d.quote]) == Failed(InvalidCsv)
    ensures field != [] && field[|field| - 1] != d.quote ==>
      Document(d, [d.quote] + Doubled(d.quote, field)) == Failed(MissingQuoteAtEnd)
  {
    if field != [] && field[|field| - 1] != d.quote {
      var front, last := field[..|field| - 1], field[|field| - 1];
      assert field == front + [last];
      DoubledAppend(d.quote, front, last);
      DoubledIsPassed(d.quote, front);
      PassedScan(d.quote, Doubled(d.quote, front), [last]);
      assert ([d.quote] + Doubled(d.quote, field))[1..] == Doubled(d.quote, front) + [last];
    }
  }

  lemma {:induction false} DoubledAppend(quote: char, field: string, c: char)
    requires c != quote
    ensures Doubled(quote, field + [c]) == Doubled(quote, field) + [c]
  {
    if field != [] {
      DoubledAppend(quote, field[1..], c);
      assert (field + [c])[1..] == field[1..] + [c];
    }
  }
}
