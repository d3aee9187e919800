/**
  Pattern matching as the SQL operator LIKE does it.
 */
module SqlLike {

  /** SQL LIKE: % stands for any string, _ for any character, a backslash takes the next character as it is. */
  predicate Like(text: string, pattern: string)
    decreases |pattern|, |text|
  {
    if pattern == [] then text == []
    else if pattern[0] == '%' then Like(text, pattern[1..]) || (text != [] && Like(text[1..], pattern))
    else if pattern[0] == '_' then text != [] && Like(text[1..], pattern[1..])
    else if pattern[0] == '\\' && |pattern| > 1 then
      text != [] && text[0] == pattern[1] && Like(text[1..], pattern[2..])
    else text != [] && text[0] == pattern[0] && Like(text[1..], pattern[1..])
  }

  lemma {:induction false} PercentTakesAll(text: string)
    ensures Like(text, "%")
  {
    if text == [] {
      assert Like([], "%"[1..]);
    } else {
      PercentTakesAll(text[1..]);
    }
  }

  /** A pattern ending in % that takes a text takes every text starting with it. */
  lemma {:induction false} LikeExtends(text: string, pattern: string, more: string)
    requires '\\' !in pattern && Like(text, pattern + "%")
    ensures Like(text + more, pattern + "%")
    decreases |pattern|, |text|
  {
    if pattern == [] {
      assert pattern + "%" == "%";
      PercentTakesAll(text + more);
    } else {
      assert (pattern + "%")[1..] == pattern[1..] + "%";
      if pattern[0] == '%' && Like(text, pattern[1..] + "%") {
        LikeExtends(text, pattern[1..], more);
      } else {
        LikeExtends(text[1..], if pattern[0] == '%' then pattern else pattern[1..], more);
        assert (text + more)[1..] == text[1..] + more;
      }
    }
  }

  /** A pattern without backslashes takes itself. */
  lemma {:induction false} LikeItself(pattern: string)
    requires '\\' !in pattern
    ensures Like(pattern, pattern + "%")
    decreases |pattern|
  {
    if pattern == [] {
      assert pattern + "%" == "%";
      PercentTakesAll(pattern);
    } else {
      assert (pattern + "%")[1..] == pattern[1..] + "%";
      LikeItself(pattern[1..]);
    }
  }
}
