/**
  An independent reader for the XML this generator writes: elements with attributes (section 3.1 of XML 1.0),
  character data and references (sections 2.4 and 4.6) and CDATA sections (section 2.7). What it returns says
  nothing about how text was written down: items are single characters and child elements.
 */
module XmlReader {
  import opened Strings
  import opened Options

  datatype Item = Text(c: char) | Child(e: Element)

  datatype Attribute = Attribute(name: string, value: string)

  datatype Element = Element(name: string, attributes: seq<Attribute>, items: seq<Item>)

  datatype StartTag = StartTag(name: string, attributes: seq<Attribute>)

  /** What was read, and what was left unread. */
  datatype Read<+T> = Read(got: T, rest: string)

  predicate IsNameStart(c: char) {
    'a' <= c <= 'z' || 'A' <= c <= 'Z' || c == '_' || c == ':' || '\U{80}' <= c
  }

  predicate IsNameChar(c: char) {
    IsNameStart(c) || '0' <= c <= '9' || c == '-' || c == '.'
  }

  predicate LegalName(name: string) {
    && name != [] && IsNameStart(name[0])
    && forall k :: 0 <= k < |name| ==> IsNameChar(name[k])
  }

  function NameLength(s: string): (n: nat)
    ensures n <= |s|
  {
    if s == [] || !IsNameChar(s[0]) then 0 else 1 + NameLength(s[1..])
  }

  /** A name closed by '>', as end tags have it. */
  function ReadTagName(s: string): (r: Option<Read<string>>)
    ensures r.Some? ==> |r.value.rest| < |s|
  {
    var n := NameLength(s);
    if n == 0 || !IsNameStart(s[0]) || n == |s| || s[n] != '>' then None
    else Some(Read(s[..n], s[n + 1..]))
  }

  /** Section 4.6: the five predefined entities. */
  function ReadReference(s: string): (r: Option<Read<char>>)
    ensures r.Some? ==> |r.value.rest| < |s|
  {
    if "&amp;" <= s then Some(Read('&', s[5..]))
    else if "&lt;" <= s then Some(Read('<', s[4..]))
    else if "&gt;" <= s then Some(Read('>', s[4..]))
    else if "&quot;" <= s then Some(Read('"', s[6..]))
    else if "&apos;" <= s then Some(Read('\'', s[6..]))
    else None
  }

  /** References replaced by the characters they name. */
  function Decode(s: string): Option<string>
    decreases |s|
  {
    if s == [] then Some([])
    else if s[0] == '&' then
      match ReadReference(s)
      case None => None
      case Some(Read(c, rest)) => PutBefore(c, Decode(rest))
    else PutBefore(s[0], Decode(s[1..]))
  }

  function PutBefore(c: char, r: Option<string>): Option<string> {
    match r
    case None => None
    case Some(text) => Some([c] + text)
  }

  /** Everything up to the closing quote. */
  function ReadQuoted(quote: char, s: string): (r: Option<Read<string>>)
    ensures r.Some? ==> |r.value.rest| < |s|
  {
    if s == [] then None
    else if s[0] == quote then Some(Read([], s[1..]))
    else
      match ReadQuoted(quote, s[1..])
      case None => None
      case Some(Read(raw, rest)) => Some(Read([s[0]] + raw, rest))
  }

  /** An attribute value between its quotes, which are of either kind; it has no "<" in it. */
  function ReadValue(s: string): (r: Option<Read<string>>)
    ensures r.Some? ==> |r.value.rest| < |s|
  {
    if s == [] || !(s[0] == '"' || s[0] == '\'') then None
    else
      match ReadQuoted(s[0], s[1..])
      case None => None
      case Some(Read(raw, rest)) =>
        match Decode(raw)
        case None => None
        case Some(value) => if '<' in raw then None else Some(Read(value, rest))
  }

  function ReadAttribute(s: string): (r: Option<Read<Attribute>>)
    ensures r.Some? ==> |r.value.rest| < |s|
  {
    var n := NameLength(s);
    if n == 0 || !IsNameStart(s[0]) || n == |s| || s[n] != '=' then None
    else
      match ReadValue(s[n + 1..])
      case None => None
      case Some(Read(value, rest)) => Some(Read(Attribute(s[..n], value), rest))
  }

  /** Attributes up to the ">" that ends the tag, each after a space, no two of one name. */
  function ReadAttributes(s: string): (r: Option<Read<seq<Attribute>>>)
    ensures r.Some? ==> |r.value.rest| < |s|
    decreases |s|
  {
    if s == [] then None
    else if s[0] == '>' then Some(Read([], s[1..]))
    else if s[0] != ' ' then None
    else
      match ReadAttribute(s[1..])
      case None => None
      case Some(Read(a, more)) =>
        match ReadAttributes(more)
        case None => None
        case Some(Read(others, rest)) =>
          if exists k :: 0 <= k < |others| && others[k].name == a.name then None else Some(Read([a] + others, rest))
  }

  function ReadStartTag(s: string): (r: Option<Read<StartTag>>)
    ensures r.Some? ==> |r.value.rest| < |s|
  {
    var n := NameLength(s);
    if n == 0 || !IsNameStart(s[0]) then None
    else
      match ReadAttributes(s[n..])
      case None => None
      case Some(Read(attributes, rest)) => Some(Read(StartTag(s[..n], attributes), rest))
  }

  function ReadElement(s: string): (r: Option<Read<Element>>)
    ensures r.Some? ==> |r.value.rest| < |s|
    decreases |s|, 0
  {
    if s == [] || s[0] != '<' then None else
    match ReadStartTag(s[1..])
    case None => None
    case Some(Read(StartTag(name, attributes), body)) =>
      match ReadContent(body)
      case None => None
      case Some(Read(items, tail)) =>
        match ReadTagName(tail[2..])
        case None => None
        case Some(Read(closing, rest)) =>
          if closing == name then Some(Read(Element(name, attributes, items), rest)) else None
  }

  /** Content up to the "</" that ends it. */
  function ReadContent(s: string): (r: Option<Read<seq<Item>>>)
    ensures r.Some? ==> |r.value.rest| <= |s| && "</" <= r.value.rest
    decreases |s|, 1
  {
    if "</" <= s then Some(Read([], s))
    else if "<![CDATA[" <= s then ReadSection(s[9..])
    else if s == [] || "]]>" <= s then None
    else if s[0] == '<' then
      match ReadElement(s)
      case None => None
      case Some(Read(e, rest)) => Before(Child(e), ReadContent(rest))
    else if s[0] == '&' then
      match ReadReference(s)
      case None => None
      case Some(Read(c, rest)) => Before(Text(c), ReadContent(rest))
    else Before(Text(s[0]), ReadContent(s[1..]))
  }

  /** Section 2.7: everything up to the first "]]>" is character data, markup or not. */
  function ReadSection(s: string): (r: Option<Read<seq<Item>>>)
    ensures r.Some? ==> |r.value.rest| <= |s| && "</" <= r.value.rest
    decreases |s|, 1
  {
    if "]]>" <= s then ReadContent(s[3..])
    else if s == [] then None
    else Before(Text(s[0]), ReadSection(s[1..]))
  }

  function Before(item: Item, r: Option<Read<seq<Item>>>): Option<Read<seq<Item>>> {
    match r
    case None => None
    case Some(Read(items, rest)) => Some(Read([item] + items, rest))
  }
}
