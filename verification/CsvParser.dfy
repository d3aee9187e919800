/**
  The index machine of CsvParser::parse. Indices are unsigned 64-bit and every sum and difference is
  written out modulo 2^64, because the end of an empty unquoted field at index 0 is 2^64 - 1.
  Every element access is an in-range access; every loop terminates.
 */
module CsvParser {
  import opened Strings
  import opened CsvGrammar

  const MODULUS: int := 0x1_0000_0000_0000_0000

  type Index = i: int | 0 <= i < MODULUS

  /** Unsigned addition: the sum modulo 2^64. */
  function Plus(a: Index, b: Index): Index {
    if a + b < MODULUS then a + b else a + b - MODULUS
  }

  /** Unsigned subtraction: the difference modulo 2^64. */
  function Minus(a: Index, b: Index): Index {
    if a >= b then a - b else a - b + MODULUS
  }

  /** Rows finished so far, the last of them still open, continued by the parse of the unread text. */
  ghost function Continue(done: seq<Row>, tail: Parse): Parse
    requires done != []
    requires tail.Rows? ==> tail.rows != []
  {
    match tail
    case Failed(_) => tail
    case Rows(rows) =>
      Rows(done[..|done| - 1] + [done[|done| - 1] + rows[0]] + rows[1..])
  }

  function PushField(rows: seq<Row>, value: string): seq<Row>
    requires rows != []
  {
    rows[..|rows| - 1] + [rows[|rows| - 1] + [value]]
  }

  lemma ContinueAddField(done: seq<Row>, value: string, tail: Parse)
    requires done != []
    requires tail.Rows? ==> tail.rows != []
    ensures Continue(done, AddField(value, tail)) == Continue(PushField(done, value), tail)
  {
    if tail.Rows? {
      var last := done[|done| - 1];
      assert last + ([value] + tail.rows[0]) == (last + [value]) + tail.rows[0];
    }
  }

  lemma ContinueAddRow(done: seq<Row>, value: string, tail: Parse)
    requires done != []
    requires tail.Rows? ==> tail.rows != []
    ensures Continue(done, AddRow([value], tail)) == Continue(PushField(done, value) + [[]], tail)
  {
    if tail.Rows? {
      var pushed := PushField(done, value);
      assert [] + tail.rows[0] == tail.rows[0];
      assert (pushed + [[]])[..|pushed|] == pushed;
      assert tail.rows == [tail.rows[0]] + tail.rows[1..];
    }
  }

  lemma ContinueFirst(tail: Parse)
    requires tail.Rows? ==> tail.rows != []
    ensures Continue([[]], tail) == tail
  {
    if tail.Rows? {
      assert [] + tail.rows[0] == tail.rows[0];
      assert tail.rows == [tail.rows[0]] + tail.rows[1..];
    }
  }

  lemma ContinueLast(done: seq<Row>, value: string)
    requires done != []
    ensures Continue(done, Rows([[value]])) == Rows(PushField(done, value))
  {
  }

  /** The parser's substring replacement of doubled quotes is the grammar's reading of them. */
  lemma {:induction false} ReplacementCollapses(quote: char, s: string)
    ensures ReplaceAll(s, [quote, quote], [quote]) == Collapse(quote, s)
  {
    if s != [] {
      if [quote, quote] <= s {
        ReplacementCollapses(quote, s[2..]);
      } else {
        assert |s| >= 2 ==> [s[0], s[1]] == s[..2];
        ReplacementCollapses(quote, s[1..]);
      }
    }
  }

  /** A quoted field of which the body up to i has been passed over. */
  lemma QuotedSoFar(d: Dialect, data: string, start: nat, i: nat)
    requires start < i < |data| && data[start] == d.quote
    requires Passed(d.quote, data[start + 1..i])
    ensures ScanField(d, data[start..])
         == PrependAll(Collapse(d.quote, data[start + 1..i]), QuotedBody(d.quote, data[i..]))
  {
    assert data[start..][1..] == data[start + 1..i] + data[i..];
    PassedScan(d.quote, data[start + 1..i], data[i..]);
  }

  lemma PassCharacter(quote: char, data: string, from: nat, i: nat)
    requires from <= i < |data| && data[i] != quote
    requires Passed(quote, data[from..i])
    ensures Passed(quote, data[from..i + 1])
  {
    assert [data[i]][1..] == [];
    PassedAppend(quote, data[from..i], [data[i]]);
    assert data[from..i + 1] == data[from..i] + [data[i]];
  }

  lemma PassPair(quote: char, data: string, from: nat, i: nat)
    requires from <= i && i + 1 < |data| && data[i] == quote == data[i + 1]
    requires Passed(quote, data[from..i])
    ensures Passed(quote, data[from..i + 2])
  {
    assert [quote, quote][2..] == [];
    PassedAppend(quote, data[from..i], [quote, quote]);
    assert data[from..i + 2] == data[from..i] + [quote, quote];
  }

  /** replace_all_copy(substr(from, length), two quotes, one quote). */
  method Unquote(data: CppString, quote: char, from: Index, length: Index) returns (value: string)
    requires from + length <= |data|
    ensures value == Collapse(quote, data[from..from + length])
  {
    var raw := data[from..from + length];
    ReplacementCollapses(quote, raw);
    value := ReplaceAll(raw, [quote, quote], [quote]);
  }

  /** How the scan of one field leaves the machine. */
  datatype Outcome =
    | Ended(value: string, endIndex: Index)  // the loop over the field was left at this end index
    | Finished(value: string)                // the field is the last one and parse returns at once
    | Thrown(error: Error)

  /** A quoted field closes at i: only doubled quotes before it, and no doubled quote there. */
  ghost predicate ClosesAt(quote: char, data: CppString, start: Index, i: Index) {
    && start < i < |data| && data[i] == quote
    && (|data| <= i + 2 || data[i + 1] != quote)
    && Passed(quote, data[start + 1..i])
  }

  /** What the loop over a quoted field finds. */
  ghost predicate QuotedOutcome(quote: char, data: CppString, start: Index, o: Outcome)
    requires start < |data|
  {
    match o
    case Thrown(InvalidCsv) => |data| - start < 2
    case Thrown(MissingQuote) => false
    case Thrown(MissingQuoteAtEnd) =>
      start + 1 < |data| && data[|data| - 1] != quote && Passed(quote, data[start + 1..|data| - 1])
    case Finished(value) => value == [] && start + 2 == |data| && ClosesAt(quote, data, start, start + 1)
    case Ended(value, i) => ClosesAt(quote, data, start, i) && value == Collapse(quote, data[start + 1..i])
  }

  /** The closing quote is found: what lies between the quotes is the field. */
  method CloseQuoted(data: CppString, quote: char, start: Index, i: Index) returns (o: Outcome)
    requires start < i < |data|
    ensures o == Ended(Collapse(quote, data[start + 1..i]), i)
  {
    if Minus(i, start) < 2 {
      assert data[start + 1..i] == [];
      return Ended("", i);
    }
    var value := Unquote(data, quote, Plus(start, 1), Minus(Minus(i, 1), start));
    o := Ended(value, i);
  }

  /** An odd quotation mark closes the field unless a second one follows and more input after that. */
  method OddQuote(data: CppString, quote: char, start: Index, i: Index) returns (closed: bool, o: Outcome)
    requires start < i < |data| && data[i] == quote && Passed(quote, data[start + 1..i])
    ensures closed ==> QuotedOutcome(quote, data, start, o)
    ensures !closed ==> i + 2 < |data| && data[i + 1] == quote
  {
    if Minus(|data|, start) == 2 {
      assert ClosesAt(quote, data, start, start + 1);
      return true, Finished("");
    }
    if |data| <= Plus(i, 2) || data[Plus(i, 1)] != quote {
      assert ClosesAt(quote, data, start, i);
      o := CloseQuoted(data, quote, start, i);
      return true, o;
    }
    return false, Finished("");
  }

  method ScanQuoted(data: CppString, quote: char, start: Index) returns (o: Outcome)
    requires start < |data|
    ensures QuotedOutcome(quote, data, start, o)
  {
    if Minus(|data|, start) < 2 {
      return Thrown(InvalidCsv);
    }
    var count: Index := 0;
    var i := Plus(start, 1);
    ghost var pairStart := i;  // where the pair of quotes being read began, when count is odd
    while i < |data|
      invariant start < pairStart <= i < |data|
      invariant 0 <= count <= i - start
      invariant Passed(quote, data[start + 1..pairStart])
      invariant pairStart == if count % 2 == 0 then i else i - 1
      invariant count % 2 == 1 ==> i + 1 < |data| && data[i - 1] == quote == data[i]
    {
      assert Plus(i, 1) == i + 1 && Plus(i, 2) == i + 2 && Minus(i, 1) == i - 1 && Minus(i, start) == i - start;
      if data[i] == quote {
        count := Plus(count, 1);
        if count % 2 != 0 {
          var closed;
          closed, o := OddQuote(data, quote, start, i);
          if closed {
            return;
          }
        }
        if count % 2 == 0 {
          if data[Minus(i, 1)] != quote {
            return Thrown(MissingQuote);
          }
          PassPair(quote, data, start + 1, i - 1);
          pairStart := i + 1;
        }
      } else {
        if Plus(i, 1) == |data| {
          return Thrown(MissingQuoteAtEnd);
        }
        PassCharacter(quote, data, start + 1, i);
        pairStart := i + 1;
      }
      i := Plus(i, 1);
    }
    assert false;
  }

  /** What the loop over an unquoted field finds. */
  ghost predicate UnquotedOutcome(d: Dialect, data: CppString, start: Index, o: Outcome)
    requires start < |data|
  {
    match o
    case Thrown(_) => false
    case Finished(value) =>
      && value == Collapse(d.quote, data[start..|data|])
      && forall k :: start <= k < |data| ==> !EndsField(d, data[k])
    case Ended(value, endIndex) =>
      var i := Plus(endIndex, 1);
      && start <= i < |data| && EndsField(d, data[i])
      && value == Collapse(d.quote, data[start..i])
      && forall k :: start <= k < i ==> !EndsField(d, data[k])
  }

  method ScanUnquoted(data: CppString, d: Dialect, start: Index) returns (o: Outcome)
    requires start < |data|
    ensures UnquotedOutcome(d, data, start, o)
  {
    var i := start;
    while i < |data|
      invariant start <= i < |data|
      invariant forall k :: start <= k < i ==> !EndsField(d, data[k])
    {
      if data[i] == d.delimiter || data[i] == '\n' || data[i] == '\r' {
        var endIndex := Minus(i, 1);
        var value := Unquote(data, d.quote, start, Minus(Plus(endIndex, 1), start));
        return Ended(value, endIndex);
      }
      if Plus(i, 1) == |data| {
        var value := Unquote(data, d.quote, start, Minus(Plus(i, 1), start));
        return Finished(value);
      }
      i := Plus(i, 1);
    }
    assert false;
  }

  /** The machine's view of one field is the grammar's. */
  ghost predicate Agrees(d: Dialect, data: CppString, start: Index, o: Outcome)
    requires start < |data|
  {
    var scan := ScanField(d, data[start..]);
    match o
    case Thrown(e) => scan == Bad(e)
    case Finished(value) => scan == Field(value, [])
    case Ended(value, endIndex) =>
      var next := Plus(endIndex, 1);
      start <= next <= |data| && scan == Field(value, data[next..])
  }

  lemma QuotedAgrees(d: Dialect, data: CppString, start: Index, o: Outcome)
    requires start < |data| && data[start] == d.quote
    requires QuotedOutcome(d.quote, data, start, o)
    ensures Agrees(d, data, start, o)
  {
    match o {
      case Thrown(e) =>
        if e == MissingQuoteAtEnd {
          QuotedSoFar(d, data, start, |data| - 1);
        }
      case Finished(value) =>
        QuotedSoFar(d, data, start, start + 1);
      case Ended(value, i) =>
        QuotedSoFar(d, data, start, i);
        assert data[i..][1..] == data[i + 1..];
    }
  }

  lemma {:induction false} UnquotedLengthIs(d: Dialect, s: string, n: nat)
    requires n <= |s|
    requires forall k :: 0 <= k < n ==> !EndsField(d, s[k])
    requires n < |s| ==> EndsField(d, s[n])
    ensures UnquotedLength(d, s) == n
  {
    if n > 0 {
      UnquotedLengthIs(d, s[1..], n - 1);
    }
  }

  lemma UnquotedAgrees(d: Dialect, data: CppString, start: Index, o: Outcome)
    requires start < |data| && data[start] != d.quote
    requires UnquotedOutcome(d, data, start, o)
    ensures Agrees(d, data, start, o)
  {
    var i := if o.Ended? then Plus(o.endIndex, 1) else |data|;
    var s := data[start..];
    UnquotedLengthIs(d, s, i - start);
    assert s[..i - start] == data[start..i];
    assert s[i - start..] == data[i..];
  }

  /** Past one newline into a new row, or past one delimiter, or nowhere. */
  ghost predicate Advances(
      d: Dialect, data: CppString, start: Index, endIndex: Index, next: Index, newRow: bool)
    requires Plus(endIndex, 1) <= |data|
  {
    var rest := data[Plus(endIndex, 1)..];
    if rest != [] && IsNewline(rest[0]) then
      newRow && Plus(endIndex, 2) <= next <= |data| && data[next..] == SkipNewline(rest)
    else if rest != [] && rest[0] == d.delimiter then
      !newRow && Plus(endIndex, 2) == next <= |data| && data[next..] == rest[1..]
    else !newRow && next == start
  }

  /** Where the next field starts, and whether a row was opened for it. */
  method NextStart(data: CppString, d: Dialect, start: Index, endIndex: Index) returns (next: Index, newRow: bool)
    requires start < |data|
    requires Plus(endIndex, 1) <= |data|
    ensures Advances(d, data, start, endIndex, next, newRow)
  {
    next, newRow := start, false;
    if |data| >= Plus(endIndex, 2) {
      if data[Plus(endIndex, 1)] == d.delimiter {
        next := Plus(endIndex, 2);
      }
      if data[Plus(endIndex, 1)] == '\n' || data[Plus(endIndex, 1)] == '\r' {
        next := Plus(endIndex, 2);
        if Plus(endIndex, 3) <= |data| {
          if data[Plus(endIndex, 1)] == '\r' && data[Plus(endIndex, 2)] == '\n' {
            next := Plus(endIndex, 3);
          }
        }
        newRow := true;
      }
    }
  }

  /** The guard of the loop over fields: src/util/csv_parser.cc:151. */
  predicate Continues(data: CppString, start: Index, endIndex: Index) {
    Plus(start, 1) >= Plus(endIndex, 1) && Plus(start, 1) <= |data|
  }

  function DropEmptyRow(rows: seq<Row>): seq<Row> {
    if rows != [] && rows[|rows| - 1] == [] then rows[..|rows| - 1] else rows
  }

  /** One round of the loop keeps the parse of the whole text, and the guard ends it exactly when it is complete. */
  lemma Round(d: Dialect, data: CppString, rows: seq<Row>, start: Index, o: Outcome, next: Index, newRow: bool)
    requires start < |data| && rows != []
    requires o.Ended? && Agrees(d, data, start, o) && Advances(d, data, start, o.endIndex, next, newRow)
    requires data[start] == d.quote ==> start < o.endIndex < |data|
    requires data[start] != d.quote ==>
      Plus(o.endIndex, 1) < |data| && EndsField(d, data[Plus(o.endIndex, 1)])
    ensures var whole := Continue(rows, Fields(d, data[start..]));
      var pushed := PushField(rows, o.value);
      var after := if newRow then pushed + [[]] else pushed;
      if Continues(data, next, o.endIndex) then
        start < next < |data| && Continue(after, Fields(d, data[next..])) == whole
      else Rows(DropEmptyRow(after)) == whole
  {
    var rest := data[Plus(o.endIndex, 1)..];
    FieldThen(d, data[start..], o.value, rest);
    ContinueLast(rows, o.value);
    if next < |data| {
      ContinueAddRow(rows, o.value, Fields(d, data[next..]));
      ContinueAddField(rows, o.value, Fields(d, data[next..]));
    }
  }

  method Parse(csvData: CppString, delimiter: char, quotationMark: char) returns (r: Parse)
    ensures r == Document(Dialect(delimiter, quotationMark), csvData)
    ensures r != Failed(MissingQuote)
  {
    var d := Dialect(delimiter, quotationMark);
    if csvData == [] {
      return Rows([]);
    }
    var start: Index := 0;
    var endIndex: Index := 0;
    var rows: seq<Row> := [[]];
    ghost var whole := Fields(d, csvData);
    assert csvData[start..] == csvData;
    ContinueFirst(whole);
    while true
      invariant start < |csvData|
      invariant rows != []
      invariant Continue(rows, Fields(d, csvData[start..])) == whole
      decreases |csvData| - start
    {
      var o: Outcome;
      if csvData[start] == quotationMark {
        o := ScanQuoted(csvData, quotationMark, start);
        QuotedAgrees(d, csvData, start, o);
      } else {
        o := ScanUnquoted(csvData, d, start);
        UnquotedAgrees(d, csvData, start, o);
      }
      if o.Thrown? {
        return Failed(o.error);
      }
      if o.Finished? {
        ContinueLast(rows, o.value);
        return Rows(PushField(rows, o.value));
      }
      endIndex := o.endIndex;
      var next, newRow := NextStart(csvData, d, start, endIndex);
      Round(d, csvData, rows, start, o, next, newRow);
      start := next;
      rows := PushField(rows, o.value);
      if newRow {
        rows := rows + [[]];
      }
      if !Continues(csvData, start, endIndex) {
        break;
      }
    }
    return Rows(DropEmptyRow(rows));
  }
}
