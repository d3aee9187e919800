/**
  String vocabulary shared by the components: the bounded C++ string type, the left-to-right, non-overlapping substring
  replacement, and the order of std::string,
  and what blank means.
 */
module Strings {

  /** Lengths and indices of std::string are 64-bit; no string object is longer than PTRDIFF_MAX. */
  const MAX_LENGTH: nat := 0x7FFF_FFFF_FFFF_FFFF

  type CppString = s: string | |s| <= MAX_LENGTH

  /** What boost::replace_all computes: every match of pattern, scanning from the left, without overlap. */
  function ReplaceAll(s: string, pattern: string, replacement: string): (r: string)
    requires pattern != []
  {
    if s == [] then []
    else if pattern <= s then replacement + ReplaceAll(s[|pattern|..], pattern, replacement)
    else [s[0]] + ReplaceAll(s[1..], pattern, replacement)
  }

  lemma Associative<T>(a: seq<T>, b: seq<T>, c: seq<T>)
    ensures (a + b) + c == a + (b + c)
  {
  }

  /** Nothing but spaces, or nothing at all. */
  predicate Blank(s: string) {
    forall k :: 0 <= k < |s| ==> s[k] == ' '
  }

  /** std::string's operator<: by the first differing character, a proper prefix first. */
  predicate Below(a: string, b: string) {
    if b == [] then false
    else if a == [] then true
    else if a[0] != b[0] then a[0] < b[0]
    else Below(a[1..], b[1..])
  }

  lemma {:induction false} BelowIrreflexive(a: string)
    ensures !Below(a, a)
  {
    if a != [] {
      BelowIrreflexive(a[1..]);
    }
  }

  lemma {:induction false} BelowTransitive(a: string, b: string, c: string)
    requires Below(a, b) && Below(b, c)
    ensures Below(a, c)
  {
    if a != [] && a[0] == b[0] == c[0] {
      BelowTransitive(a[1..], b[1..], c[1..]);
    }
  }

  lemma {:induction false} BelowTotal(a: string, b: string)
    ensures a == b || Below(a, b) || Below(b, a)
  {
    if a != [] && b != [] && a[0] == b[0] {
      BelowTotal(a[1..], b[1..]);
      assert a == [a[0]] + a[1..] && b == [b[0]] + b[1..];
    }
  }
}
