/**
  Cutting UTF-8 text after a number of characters: utf8_substr and next_utf8_character of the contact address import,
  with the one- to six-octet encoding of section 2 of RFC 2279.
 */
module Utf8Prefix {

  type Byte = b: int | 0 <= b < 256

  type Bytes = seq<Byte>

  datatype Error = InvalidFirstByte | Fragmented | InvalidByte

  datatype Result<+T> = Ok(value: T) | Thrown(error: Error)

  /** Octets in the character a first octet announces; 0 when no character starts with it. */
  function AnnouncedLength(first: Byte): (n: nat)
    ensures n <= 6
  {
    if first <= 0x7f then 1
    else if 0xc0 <= first <= 0xdf then 2
    else if 0xe0 <= first <= 0xef then 3
    else if 0xf0 <= first <= 0xf7 then 4
    else if 0xf8 <= first <= 0xfb then 5
    else if 0xfc <= first <= 0xfd then 6
    else 0
  }

  predicate IsContinuation(b: Byte) {
    0x80 <= b <= 0xbf
  }

  /** The octets after the first, up to n of them in all, are continuations. */
  predicate Continued(s: Bytes, n: nat)
    requires n <= |s|
  {
    forall k :: 1 <= k < n ==> IsContinuation(s[k])
  }

  /** The shape of one whole character. */
  predicate IsCharacter(c: Bytes) {
    c != [] && AnnouncedLength(c[0]) == |c| && Continued(c, |c|)
  }

  /** Text beginning with no whole character. */
  ghost predicate Malformed(s: Bytes) {
    s != [] && forall n :: 0 <= n <= |s| ==> !IsCharacter(s[..n])
  }

  /** Length of the first character, one branch per exception:
      tools/contact_migration/mojeid_contact_address_import.cc:330-371. */
  function FirstLength(s: Bytes): (r: Result<nat>)
    requires s != []
    ensures r.Ok? ==> 0 < r.value <= |s|
  {
    var n := AnnouncedLength(s[0]);
    if n == 0 then Thrown(InvalidFirstByte)
    else if |s| < n then Thrown(Fragmented)
    else if Continued(s, n) then Ok(n)
    else Thrown(InvalidByte)
  }

  /** The prefix of at most n characters, or the exception of the first malformed one among them. */
  function Prefix(s: Bytes, n: nat): (r: Result<Bytes>)
    decreases n
  {
    if s == [] || n == 0 then Ok([])
    else
      match FirstLength(s)
      case Thrown(e) => Thrown(e)
      case Ok(k) =>
        match Prefix(s[k..], n - 1)
        case Thrown(e) => Thrown(e)
        case Ok(rest) => Ok(s[..k] + rest)
  }

  /** The position after the character at begin, or the reason there is none. */
  ghost predicate NextFrom(s: Bytes, begin: nat, r: Result<nat>)
    requires begin < |s|
  {
    match r
    case Ok(next) => begin < next <= |s| && FirstLength(s[begin..]) == Ok(next - begin)
    case Thrown(e) => FirstLength(s[begin..]) == Thrown(e)
  }

  method NextUtf8Character(s: Bytes, begin: nat, end: nat) returns (r: Result<nat>)
    requires begin < end == |s|
    ensures NextFrom(s, begin, r)
    ensures r.Ok? ==> begin < r.value <= |s|
  {
    var c := begin;
    var bytes := 0;
    if s[c] <= 0x7f {
      return Ok(c + 1);
    } else if 0xc0 <= s[c] <= 0xdf {
      bytes := 2;
    } else if 0xe0 <= s[c] <= 0xef {
      bytes := 3;
    } else if 0xf0 <= s[c] <= 0xf7 {
      bytes := 4;
    } else if 0xf8 <= s[c] <= 0xfb {
      bytes := 5;
    } else if 0xfc <= s[c] <= 0xfd {
      bytes := 6;
    } else {
      return Thrown(InvalidFirstByte);
    }
    if end - bytes < c {
      return Thrown(Fragmented);
    }
    var retval := c + bytes;
    c := c + 1;
    while c < retval
      invariant begin < c <= retval <= |s|
      invariant forall k :: 1 <= k < c - begin ==> IsContinuation(s[begin..][k])
    {
      if !(0x80 <= s[c] <= 0xbf) {
        assert !IsContinuation(s[begin..][c - begin]);
        return Thrown(InvalidByte);
      }
      c := c + 1;
    }
    return Ok(retval);
  }

  // ---- what the prefix is, without naming the algorithm ----

  function Flat(cs: seq<Bytes>): Bytes {
    if cs == [] then [] else cs[0] + Flat(cs[1..])
  }

  /** The text starts with these whole characters. */
  ghost predicate StartsWithCharacters(s: Bytes, cs: seq<Bytes>) {
    Flat(cs) <= s && forall k :: 0 <= k < |cs| ==> IsCharacter(cs[k])
  }

  /** They are the first n characters, or all there are. */
  ghost predicate Cut(s: Bytes, n: nat, cs: seq<Bytes>) {
    StartsWithCharacters(s, cs) && |cs| <= n && (|cs| == n || Flat(cs) == s)
  }

  /** One of the first n characters is malformed: fewer than n whole ones are followed by no character. */
  ghost predicate Breaks(s: Bytes, n: nat, cs: seq<Bytes>) {
    StartsWithCharacters(s, cs) && |cs| < n && Malformed(s[|Flat(cs)|..])
  }

  lemma FirstLengthIsFirstCharacter(s: Bytes)
    requires s != []
    ensures var r := FirstLength(s);
      && (r.Ok? ==> IsCharacter(s[..r.value]))
      && (r.Thrown? <==> Malformed(s))
  {
    var r := FirstLength(s);
    if r.Ok? {
      assert s[..r.value][0] == s[0];
    } else {
      forall n | 0 <= n <= |s| ensures !IsCharacter(s[..n]) {
        if IsCharacter(s[..n]) {
          assert forall k :: 1 <= k < n ==> IsContinuation(s[..n][k]);
          assert false;
        }
      }
    }
  }

  lemma OneCharacterStarts(s: Bytes, a: Bytes)
    requires IsCharacter(a) && a <= s
    ensures FirstLength(s) == Ok(|a|)
  {
    forall k | 1 <= k < |a| ensures IsContinuation(s[k]) {
      assert s[k] == a[k];
    }
  }

  lemma CutTail(s: Bytes, cs: seq<Bytes>)
    requires cs != [] && Flat(cs) <= s
    ensures cs[0] <= s && s[..|cs[0]|] == cs[0]
    ensures var tail := s[|cs[0]|..];
      Flat(cs[1..]) <= tail && s[|Flat(cs)|..] == tail[|Flat(cs[1..])|..] && (Flat(cs) == s ==> Flat(cs[1..]) == tail)
  {
    var n := |cs[0]|;
    assert Flat(cs)[..n] == cs[0] && Flat(cs)[n..] == Flat(cs[1..]);
    assert s[..|Flat(cs)|] == Flat(cs);
    assert s[n..][..|Flat(cs[1..])|] == s[..|Flat(cs)|][n..];
  }

  /** The result is the unique cut into whole characters, when there is one. */
  lemma {:induction false} PrefixIsCut(s: Bytes, n: nat, cs: seq<Bytes>)
    requires Cut(s, n, cs)
    ensures Prefix(s, n) == Ok(Flat(cs))
  {
    if cs != [] {
      var tail := s[|cs[0]|..];
      CutTail(s, cs);
      OneCharacterStarts(s, cs[0]);
      PrefixIsCut(tail, n - 1, cs[1..]);
    }
  }

  /** It is an exception when, and only when, one of the first n characters is malformed. */
  lemma {:induction false} PrefixBreaks(s: Bytes, n: nat, cs: seq<Bytes>)
    requires Breaks(s, n, cs)
    ensures FirstLength(s[|Flat(cs)|..]).Thrown? && Prefix(s, n) == Thrown(FirstLength(s[|Flat(cs)|..]).error)
  {
    if cs == [] {
      assert s[0..] == s;
      FirstLengthIsFirstCharacter(s);
    } else {
      var tail := s[|cs[0]|..];
      CutTail(s, cs);
      OneCharacterStarts(s, cs[0]);
      PrefixBreaks(tail, n - 1, cs[1..]);
    }
  }

  lemma PutFirst(s: Bytes, k: nat, rest: seq<Bytes>)
    requires k <= |s| && IsCharacter(s[..k]) && StartsWithCharacters(s[k..], rest)
    ensures var cs := [s[..k]] + rest;
      && StartsWithCharacters(s, cs)
      && s[|Flat(cs)|..] == s[k..][|Flat(rest)|..]
      && (Flat(rest) == s[k..] ==> Flat(cs) == s)
  {
    var cs := [s[..k]] + rest;
    assert cs[1..] == rest;
    assert Flat(cs) == s[..k] + Flat(rest);
    assert s == s[..k] + s[k..];
  }

  lemma {:induction false} CutOrBreak(s: Bytes, n: nat) returns (cs: seq<Bytes>)
    ensures if Prefix(s, n).Ok? then Cut(s, n, cs) else Breaks(s, n, cs)
  {
    if s == [] || n == 0 {
      cs := [];
    } else {
      FirstLengthIsFirstCharacter(s);
      match FirstLength(s) {
        case Thrown(_) =>
          cs := [];
          assert s[0..] == s;
        case Ok(k) =>
          var rest := CutOrBreak(s[k..], n - 1);
          cs := [s[..k]] + rest;
          PutFirst(s, k, rest);
      }
    }
  }

  lemma SubstrThrowsExactlyOnMalformed(s: Bytes, n: nat)
    ensures Prefix(s, n).Thrown? <==> exists cs :: Breaks(s, n, cs)
    ensures Prefix(s, n).Ok? <==> exists cs :: Cut(s, n, cs) && Prefix(s, n) == Ok(Flat(cs))
  {
    var cs := CutOrBreak(s, n);
    if Prefix(s, n).Ok? {
      PrefixIsCut(s, n, cs);
    }
    forall other | Breaks(s, n, other) ensures Prefix(s, n).Thrown? {
      PrefixBreaks(s, n, other);
    }
  }

  /** Cutting twice is cutting once at the smaller count, also when a later character is malformed. */
  lemma {:induction false} Composes(s: Bytes, m: nat, n: nat)
    requires Prefix(s, m).Ok?
    ensures Prefix(Prefix(s, m).value, n) == Prefix(s, if m <= n then m else n)
  {
    if s != [] && m > 0 && n > 0 {
      var k := FirstLength(s).value;
      var p := Prefix(s, m).value;
      FirstLengthIsFirstCharacter(s);
      OneCharacterStarts(p, s[..k]);
      assert p[k..] == Prefix(s[k..], m - 1).value && p[..k] == s[..k];
      Composes(s[k..], m - 1, n - 1);
    }
  }

  lemma {:induction false} FlatAppend(cs: seq<Bytes>, c: Bytes)
    ensures Flat(cs + [c]) == Flat(cs) + c
  {
    if cs == [] {
      assert [c][1..] == [] && c + [] == c;
    } else {
      assert (cs + [c])[1..] == cs[1..] + [c];
      FlatAppend(cs[1..], c);
      assert cs[0] + (Flat(cs[1..]) + c) == (cs[0] + Flat(cs[1..])) + c;
    }
  }

  /** One more whole character. */
  lemma OneMore(s: Bytes, cs: seq<Bytes>, next: nat)
    requires StartsWithCharacters(s, cs) && |Flat(cs)| < next <= |s|
    requires FirstLength(s[|Flat(cs)|..]) == Ok(next - |Flat(cs)|)
    ensures var more := cs + [s[|Flat(cs)|..next]]; StartsWithCharacters(s, more) && |Flat(more)| == next
  {
    var c := |Flat(cs)|;
    FirstLengthIsFirstCharacter(s[c..]);
    assert s[c..][..next - c] == s[c..next];
    FlatAppend(cs, s[c..next]);
    assert s[..c] + s[c..next] == s[..next];
  }

  method Utf8Substr(s: Bytes, length: nat) returns (r: Result<Bytes>)
    ensures r == Prefix(s, length)
  {
    var count := 0;
    var c := 0;
    ghost var cs: seq<Bytes> := [];
    while c < |s| && count < length
      invariant 0 <= c <= |s| && count <= length
      invariant StartsWithCharacters(s, cs) && |Flat(cs)| == c && |cs| == count
    {
      var next := NextUtf8Character(s, c, |s|);
      if next.Thrown? {
        FirstLengthIsFirstCharacter(s[c..]);
        PrefixBreaks(s, length, cs);
        return Thrown(next.error);
      }
      OneMore(s, cs, next.value);
      cs := cs + [s[c..next.value]];
      c := next.value;
      count := count + 1;
    }
    assert s[..c] == Flat(cs);
    PrefixIsCut(s, length, cs);
    return Ok(s[..c]);
  }

  // ---- text that is well-formed under section 2 of RFC 2279 ----

  type Ucs4 = v: int | 0 <= v < 0x8000_0000

  /** The octets of the table in section 2: the value's bits, six to a continuation octet. */
  function Encode(v: Ucs4): (c: Bytes)
    ensures IsCharacter(c)
  {
    if v < 0x80 then [v]
    else if v < 0x800 then [0xc0 + v / 0x40, Six(v)]
    else if v < 0x1_0000 then [0xe0 + v / 0x1000, Six(v / 0x40), Six(v)]
    else if v < 0x20_0000 then [0xf0 + v / 0x4_0000, Six(v / 0x1000), Six(v / 0x40), Six(v)]
    else if v < 0x400_0000 then [0xf8 + v / 0x100_0000, Six(v / 0x4_0000), Six(v / 0x1000), Six(v / 0x40), Six(v)]
    else [0xfc + v / 0x4000_0000, Six(v / 0x100_0000), Six(v / 0x4_0000), Six(v / 0x1000), Six(v / 0x40), Six(v)]
  }

  function Six(v: nat): (b: Byte)
    ensures IsContinuation(b)
  {
    0x80 + v % 0x40
  }

  function EncodeAll(vs: seq<Ucs4>): Bytes {
    if vs == [] then [] else Encode(vs[0]) + EncodeAll(vs[1..])
  }

  /** On well-formed text nothing is thrown and exactly min(n, character count) whole characters are kept. */
  lemma {:induction false} WellFormedPrefix(vs: seq<Ucs4>, n: nat)
    ensures Prefix(EncodeAll(vs), n) == Ok(EncodeAll(vs[..if n <= |vs| then n else |vs|]))
  {
    if vs != [] && n > 0 {
      var s := EncodeAll(vs);
      var k := |Encode(vs[0])|;
      assert s[..k] == Encode(vs[0]) && s[k..] == EncodeAll(vs[1..]);
      OneCharacterStarts(s, Encode(vs[0]));
      WellFormedPrefix(vs[1..], n - 1);
      var kept := if n <= |vs| then n else |vs|;
      assert vs[..kept][1..] == vs[1..][..kept - 1];
    }
  }
}
