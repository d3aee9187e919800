/**
  Reading what the generator printed gives back the tree that was printed.
 */
module XmlRoundTrip {
  import opened Strings
  import opened Options
  import opened XmlEscaping
  import opened XmlGenerator
  import opened XmlReader

  /** The trees the server prints: text leaves, in either of the two encodings it uses, under nested tags. */
  datatype Tree =
    | CdataLeaf(tag: string, attributes: seq<Attribute>, text: string)
    | EscapedLeaf(tag: string, attributes: seq<Attribute>, text: string)
    | Branch(tag: string, attributes: seq<Attribute>, children: seq<Tree>)

  /** Legal names, no two of them the same. */
  ghost predicate LegalAttributes(attributes: seq<Attribute>) {
    && (forall k :: 0 <= k < |attributes| ==> LegalName(attributes[k].name))
    && (forall j, k :: 0 <= j < k < |attributes| ==> attributes[j].name != attributes[k].name)
  }

  /** An attribute as the server writes it, its value escaped and in single quotes. */
  function AttributeOf(a: Attribute): string {
    a.name + "='" + Substitute(Substitute(a.value, TagText), QuotesText) + "'"
  }

  function AttributesOf(attributes: seq<Attribute>): string {
    if attributes == [] then ""
    else if |attributes| == 1 then AttributeOf(attributes[0])
    else AttributeOf(attributes[0]) + " " + AttributesOf(attributes[1..])
  }

  ghost predicate Legal(t: Tree) {
    && LegalName(t.tag) && LegalAttributes(t.attributes)
    && (t.Branch? ==> forall k :: 0 <= k < |t.children| ==> Legal(t.children[k]))
  }

  /** The tag pairs built for a tree. */
  function TagPairOf(t: Tree): TagPair {
    match t
    case CdataLeaf(tag, attributes, text) =>
      TagPair(tag, [], CDATA_OPEN + Split(text) + CDATA_CLOSE, AttributesOf(attributes))
    case EscapedLeaf(tag, attributes, text) => TagPair(tag, [], Substitute(text, TagText), AttributesOf(attributes))
    case Branch(tag, attributes, children) => TagPair(tag, TagPairsOf(children), "", AttributesOf(attributes))
  }

  function TagPairsOf(ts: seq<Tree>): (r: seq<TagPair>)
    ensures |r| == |ts|
  {
    if ts == [] then [] else [TagPairOf(ts[0])] + TagPairsOf(ts[1..])
  }

  /** What the tree means to a reader of XML. */
  function Meaning(t: Tree): Element {
    match t
    case CdataLeaf(tag, attributes, text) => Element(tag, attributes, Characters(text))
    case EscapedLeaf(tag, attributes, text) => Element(tag, attributes, Characters(text))
    case Branch(tag, attributes, children) => Element(tag, attributes, Meanings(children))
  }

  function Meanings(ts: seq<Tree>): (r: seq<Item>)
    ensures |r| == |ts|
    ensures forall k :: 0 <= k < |r| ==> r[k].Child?
  {
    if ts == [] then [] else [Child(Meaning(ts[0]))] + Meanings(ts[1..])
  }

  function Characters(s: string): (r: seq<Item>)
    ensures |r| == |s|
    ensures forall k :: 0 <= k < |r| ==> r[k] == Text(s[k])
  {
    if s == [] then [] else [Text(s[0])] + Characters(s[1..])
  }

  ghost function BeforeAll(items: seq<Item>, r: Option<Read<seq<Item>>>): Option<Read<seq<Item>>> {
    match r
    case None => None
    case Some(Read(more, rest)) => Some(Read(items + more, rest))
  }

  lemma BeforeAllOne(item: Item, items: seq<Item>, r: Option<Read<seq<Item>>>)
    ensures BeforeAll([item] + items, r) == Before(item, BeforeAll(items, r))
  {
    if r.Some? {
      assert ([item] + items) + r.value.got == [item] + (items + r.value.got);
    }
  }

  lemma BeforeAllNone(r: Option<Read<seq<Item>>>)
    ensures BeforeAll([], r) == r
  {
    if r.Some? {
      assert [] + r.value.got == r.value.got;
    }
  }

  // ---- CDATA sections ----

  lemma SplitNext(text: string)
    requires text != [] && !("]]>" <= text)
    ensures Split(text) == [text[0]] + Split(text[1..])
  {
  }

  lemma SplitCut(text: string)
    requires "]]>" <= text
    ensures Split(text) == "]]]]><![CDATA[>" + Split(text[3..])
  {
  }

  /** The first character survives the split, so what a bracket is followed by does too. */
  lemma SplitKeepsHead(text: string)
    requires text != []
    ensures Split(text) != [] && Split(text)[0] == text[0]
  {
  }

  /** Inside a section, the split text and the closing bracket never show "]]>" before they are meant to. */
  lemma NoEarlyClose(text: string, rest: string)
    requires text != [] && !("]]>" <= text)
    ensures !("]]>" <= Split(text) + CDATA_CLOSE + rest)
  {
    var s := Split(text) + CDATA_CLOSE + rest;
    SplitNext(text);
    assert s[0] == text[0];
    if text[0] == ']' {
      if |text| == 1 {
        assert s[2] == ']';
      } else {
        SplitKeepsHead(text[1..]);
        assert s[1] == text[1];
        if text[1] == ']' {
          if "]]>" <= text[1..] {
            SplitCut(text[1..]);
            assert s[2] == ']';
          } else {
            SplitNext(text[1..]);
            if |text| == 2 {
              assert s[2] == ']';
            } else {
              SplitKeepsHead(text[2..]);
              assert s[2] == text[2];
              assert [text[0], text[1], text[2]] == text[..3];
            }
          }
        }
      }
    }
  }

  lemma SectionStep(s: string)
    requires s != [] && !("]]>" <= s)
    ensures ReadSection(s) == Before(Text(s[0]), ReadSection(s[1..]))
  {
  }

  lemma OpenReads(inside: string)
    ensures ReadContent(CDATA_OPEN + inside) == ReadSection(inside)
  {
    var s := CDATA_OPEN + inside;
    assert s[1] == '!' && s[9..] == inside;
  }

  lemma CloseReads(rest: string)
    ensures ReadSection(CDATA_CLOSE + rest) == ReadContent(rest)
  {
    assert (CDATA_CLOSE + rest)[3..] == rest;
  }

  lemma AngleReads(tail: string)
    ensures ReadSection(">" + tail) == Before(Text('>'), ReadSection(tail))
  {
    var s := ">" + tail;
    assert s[0] == '>' && s[1..] == tail;
    SectionStep(s);
  }

  lemma ReopenForm(tail: string)
    ensures "]]><![CDATA[>" + tail == CDATA_CLOSE + (CDATA_OPEN + (">" + tail))
  {
    assert "]]><![CDATA[>" == CDATA_CLOSE + (CDATA_OPEN + ">");
    Associative(CDATA_CLOSE, CDATA_OPEN + ">", tail);
    Associative(CDATA_OPEN, ">", tail);
  }

  /** One section closed and the next opened between the brackets and the angle. */
  lemma ReopenReads(tail: string)
    ensures ReadSection("]]><![CDATA[>" + tail) == Before(Text('>'), ReadSection(tail))
  {
    ReopenForm(tail);
    CloseReads(CDATA_OPEN + (">" + tail));
    OpenReads(">" + tail);
    AngleReads(tail);
  }

  lemma BracketReads(s: string)
    requires "]]" <= s
    ensures ReadSection("]" + s) == Before(Text(']'), ReadSection(s))
  {
    var t := "]" + s;
    assert t[2] == ']' && t[1..] == s;
    SectionStep(t);
  }

  lemma CutIsReopened(tail: string)
    ensures "]]]]><![CDATA[>" + tail == "]" + ("]" + ("]]><![CDATA[>" + tail))
  {
    assert "]]]]><![CDATA[>" == "]]" + "]]><![CDATA[>";
    Associative("]]", "]]><![CDATA[>", tail);
  }

  /** A "]]>" cut in two: the brackets end one section, the angle begins the next. */
  lemma CutReads(tail: string)
    ensures ReadSection("]]]]><![CDATA[>" + tail)
         == Before(Text(']'), Before(Text(']'), Before(Text('>'), ReadSection(tail))))
  {
    var s := "]]><![CDATA[>" + tail;
    assert s[0] == ']' && s[1] == ']';
    ReopenReads(tail);
    BracketReads(s);
    BracketReads("]" + s);
    CutIsReopened(tail);
  }

  /** The reader inside a section gets exactly the text, and leaves the section exactly at its end. */
  lemma {:induction false} SectionReads(text: string, rest: string)
    ensures ReadSection(Split(text) + CDATA_CLOSE + rest) == BeforeAll(Characters(text), ReadContent(rest))
  {
    var s := Split(text) + CDATA_CLOSE + rest;
    if text == [] {
      assert s == CDATA_CLOSE + rest;
      CloseReads(rest);
      BeforeAllNone(ReadContent(rest));
    } else if "]]>" <= text {
      var tail := Split(text[3..]) + CDATA_CLOSE + rest;
      SplitCut(text);
      assert s == "]]]]><![CDATA[>" + tail;
      CutReads(tail);
      SectionReads(text[3..], rest);
      var r := ReadContent(rest);
      assert text == [']', ']', '>'] + text[3..];
      CharactersNext(text);
      CharactersNext(text[1..]);
      CharactersNext(text[2..]);
      BeforeAllOne(Text('>'), Characters(text[3..]), r);
      BeforeAllOne(Text(']'), Characters(text[2..]), r);
      BeforeAllOne(Text(']'), Characters(text[1..]), r);
    } else {
      var tail := Split(text[1..]) + CDATA_CLOSE + rest;
      NoEarlyClose(text, rest);
      SplitNext(text);
      assert s == [text[0]] + tail && s[1..] == tail;
      SectionStep(s);
      SectionReads(text[1..], rest);
      BeforeAllOne(Text(text[0]), Characters(text[1..]), ReadContent(rest));
    }
  }

  lemma CharactersNext(text: string)
    requires text != []
    ensures Characters(text) == [Text(text[0])] + Characters(text[1..])
    ensures text[1..] != [] ==> text[1..][1..] == text[2..]
    ensures |text| > 2 ==> text[2..][1..] == text[3..]
  {
  }

  lemma CdataReads(text: string, rest: string)
    ensures ReadContent(CDATA_OPEN + Split(text) + CDATA_CLOSE + rest)
         == BeforeAll(Characters(text), ReadContent(rest))
  {
    var inside := Split(text) + CDATA_CLOSE + rest;
    assert CDATA_OPEN + Split(text) + CDATA_CLOSE + rest == CDATA_OPEN + inside;
    OpenReads(inside);
    SectionReads(text, rest);
  }

  /** Cut like this, the text stands between the marks of a section without ending it early. */
  method XmlEscapeCdata(input: string) returns (data: string)
    ensures forall rest :: ReadSection(data + CDATA_CLOSE + rest) == BeforeAll(Characters(input), ReadContent(rest))
  {
    data := ReplaceAll(input, "]]>", "]]]]><![CDATA[>");
    forall rest ensures ReadSection(data + CDATA_CLOSE + rest) == BeforeAll(Characters(input), ReadContent(rest)) {
      SectionReads(input, rest);
    }
  }

  /** Put between the marks, cut text reads back as what it was cut from. */
  method XmlUnparsedCData(data: string) returns (ret: string)
    ensures forall rest :: ReadContent(ret + rest) == ReadSection(data + CDATA_CLOSE + rest)
    ensures forall text, rest :: data == Split(text) ==>
      ReadContent(ret + rest) == BeforeAll(Characters(text), ReadContent(rest))
  {
    ret := "<![CDATA[";
    ret := ret + data;
    ret := ret + "]]>";
    forall rest ensures ReadContent(ret + rest) == ReadSection(data + CDATA_CLOSE + rest) {
      assert ret + rest == CDATA_OPEN + (data + CDATA_CLOSE + rest);
      OpenReads(data + CDATA_CLOSE + rest);
    }
    forall text, rest | data == Split(text)
      ensures ReadContent(ret + rest) == BeforeAll(Characters(text), ReadContent(rest))
    {
      assert ret == CDATA_OPEN + Split(text) + CDATA_CLOSE;
      CdataReads(text, rest);
    }
  }

  // ---- escaped character data ----

  lemma {:induction false} Absent(text: string, f: char -> string, x: char)
    requires forall c :: x !in f(c)
    ensures x !in Substitute(text, f)
  {
    if text != [] {
      Absent(text[1..], f, x);
    }
  }

  lemma ReferenceReads(c: char, rest: string)
    requires c == '&' || c == '<' || c == '>'
    ensures ReadContent(TagText(c) + rest) == Before(Text(c), ReadContent(rest))
  {
    var s := TagText(c) + rest;
    assert s[|TagText(c)|..] == rest;
    assert s[0] == '&';
    assert s[1] == if c == '&' then 'a' else if c == '<' then 'l' else 'g';
  }

  lemma PlainReads(s: string)
    requires s != [] && s[0] != '&' && s[0] != '<' && !("]]>" <= s)
    ensures ReadContent(s) == Before(Text(s[0]), ReadContent(s[1..]))
  {
  }

  lemma {:induction false} EscapedReads(text: string, rest: string)
    requires rest != [] && rest[0] == '<'
    ensures ReadContent(Substitute(text, TagText) + rest) == BeforeAll(Characters(text), ReadContent(rest))
  {
    var s := Substitute(text, TagText) + rest;
    if text == [] {
      assert s == rest;
      BeforeAllNone(ReadContent(rest));
    } else {
      var c := text[0];
      var tail := Substitute(text[1..], TagText) + rest;
      assert s == TagText(c) + tail;
      if c == '&' || c == '<' || c == '>' {
        ReferenceReads(c, tail);
      } else {
        Absent(text, TagText, '>');
        assert |s| > 2 ==> s[2] in Substitute(text, TagText) || s[2] == '<' || s[0] == '<' || s[1] == '<';
        PlainReads(s);
        assert s[1..] == tail;
      }
      EscapedReads(text[1..], rest);
      BeforeAllOne(Text(c), Characters(text[1..]), ReadContent(rest));
    }
  }

  lemma SpecialReads(c: char, rest: string)
    requires c == '&' || c == '<' || c == '>' || c == '"' || c == '\''
    ensures ReadReference(AttributeText(c) + rest) == Some(Read(c, rest))
  {
    var s := AttributeText(c) + rest;
    assert s[|AttributeText(c)|..] == rest;
    assert s[1] == AttributeText(c)[1] && s[2] == AttributeText(c)[2];
  }

  lemma AttributeTextDecodes(c: char, rest: string)
    ensures Decode(AttributeText(c) + rest) == PutBefore(c, Decode(rest))
  {
    var s := AttributeText(c) + rest;
    if c == '&' || c == '<' || c == '>' || c == '"' || c == '\'' {
      SpecialReads(c, rest);
      assert s[0] == '&';
    } else {
      assert s == [c] + rest && s[1..] == rest;
    }
  }

  /** Decoding the references undoes both escaping functions in sequence, on every text. */
  lemma {:induction false} AttributeDecodes(text: string)
    ensures Decode(Substitute(Substitute(text, TagText), QuotesText)) == Some(text)
  {
    AttributeAfterTag(text);
    if text != [] {
      AttributeAfterTag(text[1..]);
      AttributeDecodes(text[1..]);
      AttributeTextDecodes(text[0], Substitute(text[1..], AttributeText));
      assert text == [text[0]] + text[1..];
    }
  }

  /** An escaped attribute value holds no character that would end it or open markup. */
  lemma AttributeIsQuotable(text: string)
    ensures var value := Substitute(Substitute(text, TagText), QuotesText);
      '"' !in value && '\'' !in value && '<' !in value && '>' !in value
  {
    AttributeAfterTag(text);
    forall c ensures '"' !in AttributeText(c) && '\'' !in AttributeText(c)
      && '<' !in AttributeText(c) && '>' !in AttributeText(c)
    {
      NoMarkup(c);
    }
    Absent(text, AttributeText, '"');
    Absent(text, AttributeText, '\'');
    Absent(text, AttributeText, '<');
    Absent(text, AttributeText, '>');
  }

  lemma NoMarkup(c: char)
    ensures '"' !in AttributeText(c) && '\'' !in AttributeText(c)
      && '<' !in AttributeText(c) && '>' !in AttributeText(c)
  {
  }

  // ---- elements ----

  lemma {:induction false} NameLengthOf(name: string, rest: string)
    requires forall k :: 0 <= k < |name| ==> IsNameChar(name[k])
    requires rest != [] && !IsNameChar(rest[0])
    ensures NameLength(name + rest) == |name|
  {
    if name == [] {
      assert name + rest == rest;
    } else {
      assert (name + rest)[1..] == name[1..] + rest;
      NameLengthOf(name[1..], rest);
    }
  }

  lemma TagNameReads(name: string, rest: string)
    requires LegalName(name)
    ensures ReadTagName(name + ">" + rest) == Some(Read(name, rest))
  {
    var s := name + ">" + rest;
    assert s == name + (">" + rest);
    NameLengthOf(name, ">" + rest);
    assert s[..|name|] == name && s[|name| + 1..] == rest;
  }

  // ---- attributes ----

  lemma {:induction false} QuotedReads(quote: char, raw: string, rest: string)
    requires quote !in raw
    ensures ReadQuoted(quote, raw + ([quote] + rest)) == Some(Read(raw, rest))
  {
    var s := raw + ([quote] + rest);
    if raw == [] {
      assert s == [quote] + rest && s[1..] == rest;
    } else {
      assert s[1..] == raw[1..] + ([quote] + rest);
      QuotedReads(quote, raw[1..], rest);
      assert raw == [raw[0]] + raw[1..];
    }
  }

  lemma ValueReads(value: string, rest: string)
    ensures ReadValue("'" + Substitute(Substitute(value, TagText), QuotesText) + "'" + rest) == Some(Read(value, rest))
  {
    var escaped := Substitute(Substitute(value, TagText), QuotesText);
    AttributeIsQuotable(value);
    AttributeDecodes(value);
    QuotedValueReads(escaped, value, rest);
  }

  lemma QuotedValueReads(escaped: string, value: string, rest: string)
    requires '\'' !in escaped && '<' !in escaped && Decode(escaped) == Some(value)
    ensures ReadValue("'" + escaped + "'" + rest) == Some(Read(value, rest))
  {
    var s := "'" + escaped + "'" + rest;
    assert s[1..] == escaped + (['\''] + rest);
    QuotedReads('\'', escaped, rest);
  }

  lemma AttributeReads(a: Attribute, rest: string)
    requires LegalName(a.name)
    ensures ReadAttribute(AttributeOf(a) + rest) == Some(Read(a, rest))
  {
    var escaped := Substitute(Substitute(a.value, TagText), QuotesText);
    var tail := "'" + escaped + "'" + rest;
    var s := AttributeOf(a) + rest;
    assert s == a.name + ("=" + tail);
    NameLengthOf(a.name, "=" + tail);
    ValueReads(a.value, rest);
    assert s[..|a.name|] == a.name && s[|a.name| + 1..] == tail;
  }

  /** What follows the name in a start tag. */
  function SpacedAttributes(attributes: seq<Attribute>): string {
    if attributes == [] then "" else " " + AttributesOf(attributes)
  }

  lemma AttributesStep(s: string, a: Attribute, more: string, others: seq<Attribute>, rest: string)
    requires s != [] && s[0] == ' ' && ReadAttribute(s[1..]) == Some(Read(a, more))
    requires ReadAttributes(more) == Some(Read(others, rest))
    requires forall k :: 0 <= k < |others| ==> others[k].name != a.name
    ensures ReadAttributes(s) == Some(Read([a] + others, rest))
  {
  }

  lemma {:induction false} AttributesRead(attributes: seq<Attribute>, rest: string)
    requires LegalAttributes(attributes)
    ensures ReadAttributes(SpacedAttributes(attributes) + (">" + rest)) == Some(Read(attributes, rest))
  {
    if attributes == [] {
      NoAttributesRead(rest);
    } else {
      AttributesRead(attributes[1..], rest);
      OneAttributeMore(attributes, rest);
    }
  }

  lemma NoAttributesRead(rest: string)
    ensures ReadAttributes(SpacedAttributes([]) + (">" + rest)) == Some(Read([], rest))
  {
    var s := ">" + rest;
    assert SpacedAttributes([]) + s == s && s[1..] == rest;
  }

  lemma OneAttributeMore(attributes: seq<Attribute>, rest: string)
    requires attributes != [] && LegalAttributes(attributes)
    requires ReadAttributes(SpacedAttributes(attributes[1..]) + (">" + rest)) == Some(Read(attributes[1..], rest))
    ensures ReadAttributes(SpacedAttributes(attributes) + (">" + rest)) == Some(Read(attributes, rest))
  {
    var a, others := attributes[0], attributes[1..];
    var tail := SpacedAttributes(others) + (">" + rest);
    var s := " " + (AttributeOf(a) + tail);
    SpacedForm(attributes, rest);
    AttributeReads(a, tail);
    assert s[1..] == AttributeOf(a) + tail;
    AttributesStep(s, a, tail, others, rest);
    assert attributes == [a] + others;
  }

  lemma SpacedForm(attributes: seq<Attribute>, rest: string)
    requires attributes != []
    ensures SpacedAttributes(attributes) + (">" + rest) ==
      " " + (AttributeOf(attributes[0]) + (SpacedAttributes(attributes[1..]) + (">" + rest)))
  {
    if |attributes| == 1 {
      assert attributes[1..] == [];
    }
  }

  lemma AttributesStart(attributes: seq<Attribute>, rest: string)
    ensures var s := SpacedAttributes(attributes) + (">" + rest); s != [] && !IsNameChar(s[0])
  {
  }

  lemma StartTagReads(tag: string, attributes: seq<Attribute>, inner: string)
    requires LegalName(tag) && LegalAttributes(attributes)
    ensures ReadStartTag(tag + (SpacedAttributes(attributes) + (">" + inner))) ==
      Some(Read(XmlReader.StartTag(tag, attributes), inner))
  {
    var after := SpacedAttributes(attributes) + (">" + inner);
    AttributesStart(attributes, inner);
    NameLengthOf(tag, after);
    AttributesRead(attributes, inner);
    assert (tag + after)[..|tag|] == tag && (tag + after)[|tag|..] == after;
  }

  lemma ElementSteps(s: string, name: string, attributes: seq<Attribute>, body: string, items: seq<Item>, tail: string,
      rest: string)
    requires s != [] && s[0] == '<'
    requires ReadStartTag(s[1..]) == Some(Read(XmlReader.StartTag(name, attributes), body))
    requires ReadContent(body) == Some(Read(items, tail))
    requires ReadTagName(tail[2..]) == Some(Read(name, rest))
    ensures ReadElement(s) == Some(Read(Element(name, attributes, items), rest))
  {
  }

  /** A start tag and what follows it. */
  function Opening(tag: string, attributes: seq<Attribute>, inner: string): string {
    "<" + (tag + (SpacedAttributes(attributes) + (">" + inner)))
  }

  /** Matching tags around content that the reader stops reading at the end tag. */
  lemma TagsRead(tag: string, attributes: seq<Attribute>, body: string, items: seq<Item>, rest: string)
    requires LegalName(tag) && LegalAttributes(attributes)
    requires var end := "</" + tag + ">" + rest; ReadContent(body + end) == Some(Read(items, end))
    ensures ReadElement(Opening(tag, attributes, body + ("</" + tag + ">" + rest))) ==
      Some(Read(Element(tag, attributes, items), rest))
  {
    var end := "</" + tag + ">" + rest;
    var s := Opening(tag, attributes, body + end);
    StartTagReads(tag, attributes, body + end);
    assert s[1..] == tag + (SpacedAttributes(attributes) + (">" + (body + end)));
    EndTagReads(tag, rest);
    ElementSteps(s, tag, attributes, body + end, items, end, rest);
  }

  lemma EndTagReads(tag: string, rest: string)
    requires LegalName(tag)
    ensures ReadTagName(("</" + tag + ">" + rest)[2..]) == Some(Read(tag, rest))
  {
    assert ("</" + tag + ">" + rest)[2..] == tag + ">" + rest;
    TagNameReads(tag, rest);
  }

  lemma ContentEnds(tag: string, rest: string)
    ensures var end := "</" + tag + ">" + rest; ReadContent(end) == Some(Read([], end))
  {
    var end := "</" + tag + ">" + rest;
    assert "</" <= end;
  }

  lemma StartTagForm(t: TagPair, attributes: seq<Attribute>, inner: string)
    requires t.attributes == AttributesOf(attributes)
    ensures XmlGenerator.StartTag(t) + inner == Opening(t.tag, attributes, inner)
  {
    AttributesNotEmpty(attributes);
    var spaced := SpacedAttributes(attributes);
    StartTagIs(t, spaced);
    Associative("<", t.tag, spaced);
    Associative("<" + (t.tag + spaced), ">", inner);
    Associative("<", t.tag + spaced, ">" + inner);
    Associative(t.tag, spaced, ">" + inner);
  }

  lemma StartTagIs(t: TagPair, spaced: string)
    requires spaced == if t.attributes == "" then "" else " " + t.attributes
    ensures XmlGenerator.StartTag(t) == "<" + t.tag + spaced + ">"
  {
    if t.attributes == "" {
      assert "<" + t.tag + spaced == "<" + t.tag;
    } else {
      Associative("<" + t.tag, " ", t.attributes);
    }
  }

  lemma AttributesNotEmpty(attributes: seq<Attribute>)
    ensures AttributesOf(attributes) == "" <==> attributes == []
  {
  }

  lemma PrintedForm(t: TagPair, attributes: seq<Attribute>, body: string, rest: string)
    requires t.attributes == AttributesOf(attributes)
    requires body == if t.content == [] then t.text else PrintedAll(t.content)
    ensures Printed(t) + rest == Opening(t.tag, attributes, body + ("</" + t.tag + ">" + rest))
  {
    var start, end := XmlGenerator.StartTag(t), "</" + t.tag + ">";
    assert EndTag(t) == end;
    Associative(start + body, end, rest);
    Associative(start, body, end + rest);
    StartTagForm(t, attributes, body + (end + rest));
  }

  /** A child element is not mistaken for an end tag or a CDATA section. */
  lemma ChildReads(s: string, e: Element, rest: string)
    requires |s| > 1 && s[0] == '<' && IsNameStart(s[1])
    requires ReadElement(s) == Some(Read(e, rest))
    ensures ReadContent(s) == Before(Child(e), ReadContent(rest))
  {
    assert s[1] != '/' && s[1] != '!';
    assert !("</" <= s) && !("<![CDATA[" <= s) && !("]]>" <= s);
  }

  /** Reading a printed tree gives its meaning and leaves what was printed after it. */
  lemma {:induction false} TreeReads(t: Tree, rest: string)
    requires Legal(t)
    ensures ReadElement(Printed(TagPairOf(t)) + rest) == Some(Read(Meaning(t), rest))
    decreases t, 0
  {
    var end := "</" + t.tag + ">" + rest;
    var pair := TagPairOf(t);
    var body := if pair.content == [] then pair.text else PrintedAll(pair.content);
    PrintedForm(pair, t.attributes, body, rest);
    ContentEnds(t.tag, rest);
    var items := Meaning(t).items;
    assert items + [] == items;
    match t {
      case CdataLeaf(tag, _, text) =>
        CdataReads(text, end);
        assert CDATA_OPEN + Split(text) + CDATA_CLOSE + end == body + end;
      case EscapedLeaf(tag, _, text) =>
        EscapedReads(text, end);
      case Branch(tag, _, children) =>
        ChildrenRead(children, end);
        assert body == PrintedAll(TagPairsOf(children));
    }
    TagsRead(t.tag, t.attributes, body, items, rest);
  }

  lemma {:induction false} ChildrenRead(ts: seq<Tree>, rest: string)
    requires forall k :: 0 <= k < |ts| ==> Legal(ts[k])
    ensures ReadContent(PrintedAll(TagPairsOf(ts)) + rest) == BeforeAll(Meanings(ts), ReadContent(rest))
    decreases ts, 1
  {
    if ts == [] {
      assert "" + rest == rest;
      BeforeAllNone(ReadContent(rest));
    } else {
      var first := Printed(TagPairOf(ts[0]));
      var tail := PrintedAll(TagPairsOf(ts[1..])) + rest;
      PrintedAllFirst(ts);
      Associative(first, PrintedAll(TagPairsOf(ts[1..])), rest);
      TreeReads(ts[0], tail);
      PrintedStarts(TagPairOf(ts[0]), ts[0].attributes, tail);
      ChildReads(first + tail, Meaning(ts[0]), tail);
      ChildrenRead(ts[1..], rest);
      BeforeAllOne(Child(Meaning(ts[0])), Meanings(ts[1..]), ReadContent(rest));
    }
  }

  lemma PrintedAllFirst(ts: seq<Tree>)
    requires ts != []
    ensures PrintedAll(TagPairsOf(ts)) == Printed(TagPairOf(ts[0])) + PrintedAll(TagPairsOf(ts[1..]))
  {
    assert TagPairsOf(ts)[1..] == TagPairsOf(ts[1..]);
  }

  lemma PrintedStarts(t: TagPair, attributes: seq<Attribute>, rest: string)
    requires t.attributes == AttributesOf(attributes) && LegalName(t.tag)
    ensures var s := Printed(t) + rest; |s| > 1 && s[0] == '<' && IsNameStart(s[1])
  {
    var body := if t.content == [] then t.text else PrintedAll(t.content);
    PrintedForm(t, attributes, body, rest);
  }

  // ---- the meaning determines the tree ----

  /** One way to write each tree: an empty child list is empty text, and text is written as CDATA. */
  function Normal(t: Tree): Tree {
    match t
    case CdataLeaf(_, _, _) => t
    case EscapedLeaf(tag, attributes, text) => CdataLeaf(tag, attributes, text)
    case Branch(tag, attributes, children) =>
      if children == [] then CdataLeaf(tag, attributes, "") else Branch(tag, attributes, Normals(children))
  }

  function Normals(ts: seq<Tree>): (r: seq<Tree>)
    ensures |r| == |ts|
  {
    if ts == [] then [] else [Normal(ts[0])] + Normals(ts[1..])
  }

  /** The tree of an element, or nothing for mixed content. */
  function Recover(e: Element): Option<Tree>
    decreases e, 0
  {
    if e.items != [] && e.items[0].Child? then
      match RecoverAll(e.items)
      case None => None
      case Some(ts) => Some(Branch(e.name, e.attributes, ts))
    else
      match RecoverText(e.items)
      case None => None
      case Some(text) => Some(CdataLeaf(e.name, e.attributes, text))
  }

  function RecoverAll(items: seq<Item>): Option<seq<Tree>>
    decreases items, 1
  {
    if items == [] then Some([])
    else
      match (RecoverItem(items[0]), RecoverAll(items[1..]))
      case (Some(t), Some(ts)) => Some([t] + ts)
      case _ => None
  }

  function RecoverItem(item: Item): Option<Tree>
    decreases item, 2
  {
    match item
    case Text(_) => None
    case Child(e) => Recover(e)
  }

  function RecoverText(items: seq<Item>): Option<string> {
    if items == [] then Some("")
    else if items[0].Child? then None
    else
      match RecoverText(items[1..])
      case None => None
      case Some(text) => Some([items[0].c] + text)
  }

  lemma {:induction false} RecoversText(text: string)
    ensures RecoverText(Characters(text)) == Some(text)
  {
    if text != [] {
      RecoversText(text[1..]);
      assert Characters(text)[1..] == Characters(text[1..]);
      assert text == [text[0]] + text[1..];
    }
  }

  lemma {:induction false} Recovers(t: Tree)
    ensures Recover(Meaning(t)) == Some(Normal(t))
    decreases t, 0
  {
    match t {
      case CdataLeaf(_, _, text) => RecoversText(text);
      case EscapedLeaf(_, _, text) => RecoversText(text);
      case Branch(_, _, children) => RecoversAll(children);
    }
  }

  lemma {:induction false} RecoversAll(ts: seq<Tree>)
    ensures RecoverAll(Meanings(ts)) == Some(Normals(ts))
    decreases ts, 1
  {
    if ts != [] {
      Recovers(ts[0]);
      RecoversAll(ts[1..]);
    }
  }

  /** Printing and reading is the identity on trees, up to how text was written down. */
  lemma RoundTrip(t: Tree)
    requires Legal(t)
    ensures var r := ReadElement(Printed(TagPairOf(t)));
      r.Some? && r.value.rest == "" && Recover(r.value.got) == Some(Normal(t))
  {
    TreeReads(t, "");
    assert Printed(TagPairOf(t)) + "" == Printed(TagPairOf(t));
    Recovers(t);
  }
}
