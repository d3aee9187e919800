/**
  XmlTagPair: a tag object appends itself, and its children in order, to an output buffer passed by reference.
 */
module XmlGenerator {
  import opened Strings


  /** The buffer xmlout. */
  class Output {
    var text: string

    constructor ()
      ensures text == ""
    {
      text := "";
    }
  }

  /** The fields of XmlTagPair; a callback is the printing of another tag pair. */
  datatype TagPair = TagPair(tag: string, content: seq<TagPair>, text: string, attributes: string)

  function StartTag(t: TagPair): string {
    if t.attributes == "" then "<" + t.tag + ">" else "<" + t.tag + " " + t.attributes + ">"
  }

  function EndTag(t: TagPair): string {
    "</" + t.tag + ">"
  }

  function Printed(t: TagPair): string
    decreases t, 0
  {
    StartTag(t) + (if t.content == [] then t.text else PrintedAll(t.content)) + EndTag(t)
  }

  function PrintedAll(ts: seq<TagPair>): string
    decreases ts, 1
  {
    if ts == [] then "" else Printed(ts[0]) + PrintedAll(ts[1..])
  }

  lemma PrintedAllFrom(ts: seq<TagPair>, k: nat)
    requires k < |ts|
    ensures PrintedAll(ts[k..]) == Printed(ts[k]) + PrintedAll(ts[k + 1..])
  {
    assert ts[k..][1..] == ts[k + 1..];
  }

  /** operator(): only appends to the buffer, and appends the whole element. */
  method Print(t: TagPair, xmlout: Output)
    modifies xmlout
    ensures xmlout.text == old(xmlout.text) + Printed(t)
    decreases t, 0
  {
    PrintStartTag(t, xmlout);
    ghost var open := xmlout.text;
    if t.content == [] {
      xmlout.text := xmlout.text + t.text;
    } else {
      PrintAll(t.content, xmlout);
    }
    ghost var body := if t.content == [] then t.text else PrintedAll(t.content);
    assert xmlout.text == open + body;
    PrintEndTag(t, xmlout);
  }

  /** for_each over the callbacks. */
  method PrintAll(ts: seq<TagPair>, xmlout: Output)
    modifies xmlout
    ensures xmlout.text == old(xmlout.text) + PrintedAll(ts)
    decreases ts, 1
  {
    ghost var whole := xmlout.text + PrintedAll(ts);
    for k := 0 to |ts|
      invariant xmlout.text + PrintedAll(ts[k..]) == whole
    {
      ghost var before, next, rest := xmlout.text, Printed(ts[k]), PrintedAll(ts[k + 1..]);
      PrintedAllFrom(ts, k);
      Print(ts[k], xmlout);
      Associative(before, next, rest);
    }
  }

  method PrintStartTag(t: TagPair, xmlout: Output)
    modifies xmlout
    ensures xmlout.text == old(xmlout.text) + StartTag(t)
  {
    xmlout.text := xmlout.text + "<";
    xmlout.text := xmlout.text + t.tag;
    if t.attributes != "" {
      xmlout.text := xmlout.text + " ";
      xmlout.text := xmlout.text + t.attributes;
    }
    xmlout.text := xmlout.text + ">";
  }

  method PrintEndTag(t: TagPair, xmlout: Output)
    modifies xmlout
    ensures xmlout.text == old(xmlout.text) + EndTag(t)
  {
    xmlout.text := xmlout.text + "</";
    xmlout.text := xmlout.text + t.tag;
    xmlout.text := xmlout.text + ">";
  }
}
