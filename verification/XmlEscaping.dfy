/**
  The string functions of the XML generator. Each works by successive replacement passes over a local copy;
  the contracts say what the passes amount to.
 */
module XmlEscaping {
  import opened Strings

  const CDATA_OPEN := "<![CDATA["
  const CDATA_CLOSE := "]]>"

  /** One character for another text, everywhere at once. */
  function Substitute(s: string, f: char -> string): (r: string) {
    if s == [] then [] else f(s[0]) + Substitute(s[1..], f)
  }

  /** Section 2.4 of XML 1.0: the references that stand for markup characters in character data. */
  function TagText(c: char): string {
    match c
    case '&' => "&amp;"
    case '<' => "&lt;"
    case '>' => "&gt;"
    case _ => [c]
  }

  /** In attribute values both kinds of quotation mark are referenced as well. */
  function AttributeText(c: char): string {
    match c
    case '"' => "&quot;"
    case '\'' => "&apos;"
    case _ => TagText(c)
  }

  function Pass(from: char, to: string): char -> string {
    c => if c == from then to else [c]
  }

  lemma {:induction false} ReplaceOneIsSubstitution(s: string, from: char, to: string)
    ensures ReplaceAll(s, [from], to) == Substitute(s, Pass(from, to))
  {
    if s != [] {
      assert [from] <= s <==> s[0] == from;
      ReplaceOneIsSubstitution(s[1..], from, to);
    }
  }

  lemma {:induction false} SubstituteAppend(a: string, b: string, f: char -> string)
    ensures Substitute(a + b, f) == Substitute(a, f) + Substitute(b, f)
  {
    if a == [] {
      assert a + b == b;
    } else {
      assert (a + b)[1..] == a[1..] + b;
      SubstituteAppend(a[1..], b, f);
    }
  }

  /** A pass over the output of a substitution is a substitution, if it agrees on every character. */
  lemma {:induction false} PassAfter(s: string, f: char -> string, g: char -> string, h: char -> string)
    requires forall c :: Substitute(f(c), g) == h(c)
    ensures Substitute(Substitute(s, f), g) == Substitute(s, h)
  {
    if s != [] {
      SubstituteAppend(f(s[0]), Substitute(s[1..], f), g);
      PassAfter(s[1..], f, g, h);
    }
  }

  lemma {:induction false} Untouched(s: string, f: char -> string)
    requires forall k :: 0 <= k < |s| ==> f(s[k]) == [s[k]]
    ensures Substitute(s, f) == s
  {
    if s != [] {
      Untouched(s[1..], f);
    }
  }

  /** A pass leaves each single character and each reference already written as the combined table says. */
  lemma PassOverTable(f: char -> string, from: char, to: string, h: char -> string)
    requires forall c :: if c == from then f(c) == [c] && h(c) == to else f(c) == h(c)
    requires forall c :: c != from ==> from !in f(c)
    ensures forall c :: Substitute(f(c), Pass(from, to)) == h(c)
  {
    forall c ensures Substitute(f(c), Pass(from, to)) == h(c) {
      if c == from {
        assert f(c)[1..] == [];
      } else {
        Untouched(f(c), Pass(from, to));
      }
    }
  }

  function AmpText(c: char): string {
    if c == '&' then "&amp;" else [c]
  }

  function AmpLtText(c: char): string {
    if c == '<' then "&lt;" else AmpText(c)
  }

  /** One more replacement pass over text already substituted by a table extends the table by one entry. */
  lemma PassExtendsTable(s: string, f: char -> string, from: char, to: string, h: char -> string)
    requires forall c :: if c == from then f(c) == [c] && h(c) == to else f(c) == h(c)
    requires forall c :: c != from ==> from !in f(c)
    ensures ReplaceAll(Substitute(s, f), [from], to) == Substitute(s, h)
  {
    ReplaceOneIsSubstitution(Substitute(s, f), from, to);
    PassOverTable(f, from, to, h);
    PassAfter(s, f, Pass(from, to), h);
  }

  lemma FirstPass(s: string, from: char, to: string, h: char -> string)
    requires forall c :: h(c) == if c == from then to else [c]
    ensures ReplaceAll(s, [from], to) == Substitute(s, h)
  {
    ReplaceOneIsSubstitution(s, from, to);
    SameTable(s, Pass(from, to), h);
  }

  method XmlEscapeTag(input: string) returns (data: string)
    ensures data == Substitute(input, TagText)
  {
    data := ReplaceAll(input, "&", "&amp;");
    assert data == Substitute(input, AmpText) by { FirstPass(input, '&', "&amp;", AmpText); }
    data := ReplaceAll(data, "<", "&lt;");
    assert data == Substitute(input, AmpLtText) by { PassExtendsTable(input, AmpText, '<', "&lt;", AmpLtText); }
    data := ReplaceAll(data, ">", "&gt;");
    assert data == Substitute(input, TagText) by { PassExtendsTable(input, AmpLtText, '>', "&gt;", TagText); }
  }

  lemma {:induction false} SameTable(s: string, f: char -> string, g: char -> string)
    requires forall c :: f(c) == g(c)
    ensures Substitute(s, f) == Substitute(s, g)
  {
    if s != [] {
      SameTable(s[1..], f, g);
    }
  }

  function QuoteText(c: char): string {
    if c == '"' then "&quot;" else [c]
  }

  function QuotesText(c: char): string {
    if c == '\'' then "&apos;" else QuoteText(c)
  }

  method XmlEscapeAttr(input: string) returns (data: string)
    ensures data == Substitute(input, QuotesText)
  {
    data := ReplaceAll(input, "\"", "&quot;");
    assert data == Substitute(input, QuoteText) by { FirstPass(input, '"', "&quot;", QuoteText); }
    data := ReplaceAll(data, "'", "&apos;");
    assert data == Substitute(input, QuotesText) by { PassExtendsTable(input, QuoteText, '\'', "&apos;", QuotesText); }
  }

  /** Escaping for a tag and then for an attribute is one substitution by the attribute table. */
  lemma AttributeAfterTag(s: string)
    ensures Substitute(Substitute(s, TagText), QuotesText) == Substitute(s, AttributeText)
  {
    forall c ensures Substitute(TagText(c), QuotesText) == AttributeText(c) {
      if c == '"' || c == '\'' {
        assert [c][1..] == [];
      } else {
        Untouched(TagText(c), QuotesText);
      }
    }
    PassAfter(s, TagText, QuotesText, AttributeText);
  }

  /** Each "]]>" of the text is cut between its brackets and its angle: src/util/xmlgen.cc:30-34. */
  function Split(s: string): string {
    ReplaceAll(s, "]]>", "]]]]><![CDATA[>")
  }
}
