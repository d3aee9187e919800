/**
  Decimal strings with at least five digits, and how their byte order goes with the order of their values.
 */
module Decimals {
  import opened Strings

  predicate IsDigit(c: char) { '0' <= c <= '9' }

  predicate AllDigits(s: string) {
    forall k :: 0 <= k < |s| ==> IsDigit(s[k])
  }

  predicate AllNines(s: string) {
    forall k :: 0 <= k < |s| ==> s[k] == '9'
  }

  function DigitOf(c: char): nat
    requires IsDigit(c)
  {
    (c - '0') as nat
  }

  function CharOf(d: nat): (c: char)
    requires d < 10
    ensures IsDigit(c) && DigitOf(c) == d
  {
    '0' + d as char
  }

  function Value(s: string): nat
    requires AllDigits(s)
  {
    if s == [] then 0 else 10 * Value(s[..|s| - 1]) + DigitOf(s[|s| - 1])
  }

  function Decimal(n: nat): (s: string)
    ensures |s| > 0
  {
    if n < 10 then [CharOf(n)] else Decimal(n / 10) + [CharOf(n % 10)]
  }

  function Zeros(k: nat): (s: string)
    ensures |s| == k
  {
    if k == 0 then [] else ['0'] + Zeros(k - 1)
  }

  const WIDTH := 5

  /** std::setw(5) with '0' as fill: at least five characters. */
  function Padded(n: nat): string {
    var s := Decimal(n);
    if |s| < WIDTH then Zeros(WIDTH - |s|) + s else s
  }

  lemma {:induction false} DecimalIsDigits(n: nat)
    ensures AllDigits(Decimal(n))
  {
    if n >= 10 {
      DecimalIsDigits(n / 10);
    }
  }

  lemma PaddedIsDigits(n: nat)
    ensures AllDigits(Padded(n)) && |Padded(n)| >= WIDTH
  {
    DecimalIsDigits(n);
    if |Decimal(n)| < WIDTH {
      ZerosAreDigits(WIDTH - |Decimal(n)|);
    }
  }

  // ---- reading back what was written ----

  lemma {:induction false} LeadingZeroAddsNothing(s: string)
    requires AllDigits(s)
    ensures AllDigits(['0'] + s) && Value(['0'] + s) == Value(s)
  {
    var t := ['0'] + s;
    if s == [] {
      assert t[..0] == [];
      assert Value(t[..0]) == 0;
    } else {
      LeadingZeroAddsNothing(s[..|s| - 1]);
      assert t[..|t| - 1] == ['0'] + s[..|s| - 1];
    }
  }

  lemma {:induction false} CanonicalIsDecimal(s: string)
    requires AllDigits(s) && |s| > 0 && (s[0] != '0' || |s| == 1)
    ensures Decimal(Value(s)) == s
    ensures s[0] != '0' ==> Value(s) > 0
  {
    var last := |s| - 1;
    if last == 0 {
      assert s[..0] == [];
      assert Value(s) == DigitOf(s[0]);
    } else {
      var front := s[..last];
      CanonicalIsDecimal(front);
      assert Value(s) / 10 == Value(front) && Value(s) % 10 == DigitOf(s[last]);
      assert CharOf(DigitOf(s[last])) == s[last];
      assert s == front + [s[last]];
    }
  }

  /** A digit string is the decimal of its value behind some zeros. */
  lemma {:induction false} ZerosThenDecimal(s: string)
    requires AllDigits(s) && |s| > 0
    ensures |Decimal(Value(s))| <= |s|
    ensures s == Zeros(|s| - |Decimal(Value(s))|) + Decimal(Value(s))
    decreases |s|
  {
    if s[0] != '0' || |s| == 1 {
      CanonicalIsDecimal(s);
    } else {
      var rest := s[1..];
      assert s == ['0'] + rest;
      LeadingZeroAddsNothing(rest);
      ZerosThenDecimal(rest);
    }
  }

  /** Five digits are written back as they are. */
  lemma PaddedOfFive(s: string)
    requires AllDigits(s) && |s| == WIDTH
    ensures Padded(Value(s)) == s
  {
    ZerosThenDecimal(s);
  }

  // ---- the order ----

  lemma {:induction false} BelowExtends(a: string, b: string, x: string, y: string)
    requires |a| == |b| && Below(a, b)
    ensures Below(a + x, b + y)
  {
    assert (a + x)[1..] == a[1..] + x && (b + y)[1..] == b[1..] + y;
    if a[0] == b[0] {
      BelowExtends(a[1..], b[1..], x, y);
    }
  }

  lemma {:induction false} BelowBehind(p: string, a: string, b: string)
    requires Below(a, b)
    ensures Below(p + a, p + b)
  {
    if p == [] {
      assert p + a == a && p + b == b;
    } else {
      BelowBehind(p[1..], a, b);
      assert (p + a)[1..] == p[1..] + a && (p + b)[1..] == p[1..] + b;
    }
  }

  lemma {:induction false} BelowExtension(a: string, x: string)
    requires x != []
    ensures Below(a, a + x)
  {
    BelowBehind(a, [], x);
    assert a + [] == a;
  }

  /** The next digit string of the same length. */
  function Successor(s: string): (t: string)
    requires AllDigits(s) && !AllNines(s)
    ensures |t| == |s| && AllDigits(t)
  {
    var last := |s| - 1;
    if s[last] != '9' then s[..last] + [s[last] + 1 as char]
    else
      assert s == s[..last] + ['9'];
      Successor(s[..last]) + ['0']
  }

  lemma {:induction false} SuccessorValue(s: string)
    requires AllDigits(s) && !AllNines(s)
    ensures Value(Successor(s)) == Value(s) + 1
  {
    var last := |s| - 1;
    var t := Successor(s);
    if s[last] != '9' {
      assert t[..last] == s[..last];
    } else {
      assert s == s[..last] + ['9'];
      SuccessorValue(s[..last]);
      assert t[..last] == Successor(s[..last]);
    }
  }

  lemma {:induction false} SuccessorAbove(s: string)
    requires AllDigits(s) && !AllNines(s)
    ensures Below(s, Successor(s))
  {
    var last := |s| - 1;
    assert s == s[..last] + [s[last]];
    if s[last] != '9' {
      assert Below([s[last]], [s[last] + 1 as char]);
      BelowBehind(s[..last], [s[last]], [s[last] + 1 as char]);
    } else {
      SuccessorAbove(s[..last]);
      BelowExtends(s[..last], Successor(s[..last]), ['9'], ['0']);
    }
  }

  /** Dropping a leading zero of a number above zero does not lower the string. */
  lemma {:induction false} ZeroIsBelow(s: string)
    requires AllDigits(s) && Value(s) > 0
    ensures Below(['0'] + s, s)
  {
    assert s != [];
    assert (['0'] + s)[1..] == s;
    if s[0] == '0' {
      assert s == ['0'] + s[1..];
      LeadingZeroAddsNothing(s[1..]);
      ZeroIsBelow(s[1..]);
    }
  }

  lemma {:induction false} PaddedNotBelow(s: string)
    requires AllDigits(s) && |s| >= WIDTH && Value(s) > 0
    ensures s == Padded(Value(s)) || Below(s, Padded(Value(s)))
    decreases |s|
  {
    if |s| == WIDTH {
      PaddedOfFive(s);
    } else if s[0] != '0' {
      CanonicalIsDecimal(s);
    } else {
      var rest := s[1..];
      assert s == ['0'] + rest;
      LeadingZeroAddsNothing(rest);
      ZeroIsBelow(rest);
      PaddedNotBelow(rest);
      if Below(rest, Padded(Value(rest))) {
        BelowTransitive(s, rest, Padded(Value(rest)));
      }
    }
  }

  /** Counting up raises the written string, unless it is all nines. */
  lemma NextIsAbove(s: string)
    requires AllDigits(s) && |s| >= WIDTH && !AllNines(s)
    ensures Below(s, Padded(Value(s) + 1))
  {
    var t := Successor(s);
    SuccessorValue(s);
    SuccessorAbove(s);
    PaddedNotBelow(t);
    if Below(t, Padded(Value(t))) {
      BelowTransitive(s, t, Padded(Value(t)));
    }
  }

  lemma {:induction false} ValueOfNines(s: string)
    requires AllNines(s)
    ensures AllDigits(s) && AllDigits(['1'] + Zeros(|s|))
    ensures Value(['1'] + Zeros(|s|)) == Value(s) + 1
  {
    ZerosAreDigits(|s|);
    var t := ['1'] + Zeros(|s|);
    if s == [] {
      assert t[..0] == [];
      assert Value(t[..0]) == 0;
    } else {
      ValueOfNines(s[..|s| - 1]);
      ZerosAreDigits(|s| - 1);
      assert t[..|s|] == ['1'] + Zeros(|s| - 1);
      assert t[|s|] == '0';
    }
  }

  lemma {:induction false} ZerosAreDigits(k: nat)
    ensures forall i :: 0 <= i < k ==> Zeros(k)[i] == '0'
    ensures k > 0 ==> Zeros(k)[..k - 1] == Zeros(k - 1)
  {
    if k > 0 {
      ZerosAreDigits(k - 1);
    }
  }

  /** All nines count up to a one and zeros, which is a lower string. */
  lemma NinesWrap(s: string)
    requires AllNines(s) && |s| >= WIDTH
    ensures AllDigits(s) && Padded(Value(s) + 1) == ['1'] + Zeros(|s|)
    ensures Below(Padded(Value(s) + 1), s)
  {
    var t := ['1'] + Zeros(|s|);
    ValueOfNines(s);
    CanonicalIsDecimal(t);
    LongIsNotPadded(Value(s) + 1, t);
    assert t[0] == '1' && s[0] == '9';
  }

  lemma LongIsNotPadded(n: nat, s: string)
    requires Decimal(n) == s && |s| >= WIDTH
    ensures Padded(n) == s
  {
  }

  lemma ValueBound(s: string)
    requires AllDigits(s) && |s| <= 19
    ensures Value(s) < 10_000_000_000_000_000_000
  {
    ValueBelowPower(s);
    PowerMonotonic(|s|, 19);
    Powers();
  }

  function Power(k: nat): nat {
    if k == 0 then 1 else 10 * Power(k - 1)
  }

  lemma Powers()
    ensures Power(19) == 10_000_000_000_000_000_000
  {
    assert Power(6) == 1_000_000;
    assert Power(12) == 1_000_000_000_000;
    assert Power(18) == 1_000_000_000_000_000_000;
  }

  lemma {:induction false} PowerMonotonic(j: nat, k: nat)
    requires j <= k
    ensures 1 <= Power(j) <= Power(k)
  {
    if j > 0 {
      PowerMonotonic(j - 1, k - 1);
    } else if k > 0 {
      PowerMonotonic(0, k - 1);
    }
  }

  lemma {:induction false} ValueBelowPower(s: string)
    requires AllDigits(s)
    ensures Value(s) < Power(|s|)
  {
    if s != [] {
      ValueBelowPower(s[..|s| - 1]);
    }
  }

  // ---- short strings ----

  lemma FiveDigits(k: nat) returns (s: string)
    requires k < 100000
    ensures |s| == 5 && AllDigits(s) && Value(s) == k
  {
    s := [CharOf(k / 10000), CharOf(k / 1000 % 10), CharOf(k / 100 % 10), CharOf(k / 10 % 10), CharOf(k % 10)];
    FiveDigitValue(s);
    Digits(k);
  }

  lemma PaddedIsFiveDigits(k: nat)
    requires k < 100000
    ensures AllDigits(Padded(k)) && |Padded(k)| == 5 && Value(Padded(k)) == k
    ensures AllNines(Padded(k)) <==> k == 99999
  {
    var s := FiveDigits(k);
    PaddedOfFive(s);
    FiveNines(s);
  }

  lemma FiveNines(s: string)
    requires |s| == 5 && AllDigits(s)
    ensures AllNines(s) <==> Value(s) == 99999
  {
    FiveDigitValue(s);
  }

  lemma FiveDigitValue(s: string)
    requires |s| == 5 && AllDigits(s)
    ensures Value(s) ==
      10000 * DigitOf(s[0]) + 1000 * DigitOf(s[1]) + 100 * DigitOf(s[2]) + 10 * DigitOf(s[3]) + DigitOf(s[4])
  {
    assert s[..4][..3] == s[..3] && s[..3][..2] == s[..2] && s[..2][..1] == s[..1] && s[..1][..0] == [];
    assert Value(s[..1]) == DigitOf(s[0]);
    assert Value(s[..2]) == 10 * Value(s[..1]) + DigitOf(s[1]);
    assert Value(s[..3]) == 10 * Value(s[..2]) + DigitOf(s[2]);
    assert Value(s[..4]) == 10 * Value(s[..3]) + DigitOf(s[3]);
  }

  lemma Digits(k: nat)
    requires k < 100000
    ensures 10000 * (k / 10000) + 1000 * (k / 1000 % 10) + 100 * (k / 100 % 10) + 10 * (k / 10 % 10) + k % 10 == k
  {
    assert k == 10 * (k / 10) + k % 10;
    assert k / 10 == 10 * (k / 100) + k / 10 % 10;
    assert k / 100 == 10 * (k / 1000) + k / 100 % 10;
    assert k / 1000 == 10 * (k / 10000) + k / 1000 % 10;
  }

  predicate AllZeros(s: string) {
    forall k :: 0 <= k < |s| ==> s[k] == '0'
  }

  lemma {:induction false} ZeroValue(s: string)
    requires AllDigits(s)
    ensures Value(s) == 0 <==> AllZeros(s)
  {
    if s != [] {
      var front := s[..|s| - 1];
      ZeroValue(front);
      assert s == front + [s[|s| - 1]];
    }
  }

  lemma {:induction false} SameValue(a: string, b: string)
    requires AllDigits(a) && AllDigits(b) && |a| == |b| && Value(a) == Value(b)
    ensures a == b
  {
    if a != [] {
      var last := |a| - 1;
      SameValue(a[..last], b[..last]);
      assert a == a[..last] + [a[last]] && b == b[..last] + [b[last]];
    }
  }

  /** Among digit strings of one length, byte order is numeric order. */
  lemma {:induction false} SmallerIsBelow(a: string, b: string)
    requires AllDigits(a) && AllDigits(b) && |a| == |b| && Value(a) < Value(b)
    ensures Below(a, b)
  {
    var last := |a| - 1;
    assert a == a[..last] + [a[last]] && b == b[..last] + [b[last]];
    if Value(a[..last]) < Value(b[..last]) {
      SmallerIsBelow(a[..last], b[..last]);
      BelowExtends(a[..last], b[..last], [a[last]], [b[last]]);
    } else {
      SameValue(a[..last], b[..last]);
      assert Below([a[last]], [b[last]]);
      BelowBehind(a[..last], [a[last]], [b[last]]);
    }
  }

  lemma {:induction false} PrefixValue(s: string, k: nat)
    requires AllDigits(s) && k < |s|
    ensures 10 * Value(s[..k]) <= Value(s)
  {
    var front := s[..|s| - 1];
    if k < |front| {
      PrefixValue(front, k);
      assert front[..k] == s[..k];
    } else {
      assert front == s[..k];
    }
  }

  /** Counting up from fewer than five digits, unless they are zeros, falls behind: the padding moves the digits
      back. */
  lemma ShortFallsBehind(s: string)
    requires AllDigits(s) && 0 < |s| < WIDTH && !AllZeros(s)
    ensures Below(Padded(Value(s) + 1), s)
  {
    ZeroValue(s);
    ShortValue(s);
    PaddedIsFiveDigits(Value(s) + 1);
    LongerFallsBehind(s, Padded(Value(s) + 1));
  }

  lemma LongerFallsBehind(s: string, p: string)
    requires AllDigits(s) && AllDigits(p) && |s| < |p| && 0 < Value(s) && Value(p) == Value(s) + 1
    ensures Below(p, s)
  {
    PrefixValue(p, |s|);
    SmallerIsBelow(p[..|s|], s);
    BelowExtends(p[..|s|], s, p[|s|..], []);
    assert p == p[..|s|] + p[|s|..] && s == s + [];
  }

  lemma ShortValue(s: string)
    requires AllDigits(s) && |s| < WIDTH
    ensures Value(s) < 10000
  {
    ValueBelowPower(s);
    PowerMonotonic(|s|, 4);
    assert Power(4) == 10000;
  }

  lemma ZerosBelowOne(s: string, one: string)
    requires AllZeros(s) && 0 < |s| < WIDTH
    requires AllDigits(one) && |one| == WIDTH && Value(one) == 1
    ensures Below(s, one)
  {
    PrefixValue(one, |s|);
    ZeroValue(one[..|s|]);
    assert one[..|s|] == s;
    BelowExtension(s, one[|s|..]);
    assert one == s + one[|s|..];
  }

  lemma ShortZerosCountUp(s: string)
    requires AllZeros(s) && 0 < |s| < WIDTH
    ensures AllDigits(s) && Below(s, Padded(Value(s) + 1))
  {
    ZeroValue(s);
    var n := Value(s) + 1;
    PaddedIsFiveDigits(n);
    ZerosBelowOne(s, Padded(n));
  }

  /** What counting up does to a digit string, at any length. */
  lemma CountingUp(s: string)
    requires AllDigits(s) && s != []
    ensures Below(s, Padded(Value(s) + 1)) <==> (if |s| >= WIDTH then !AllNines(s) else AllZeros(s))
    ensures Below(s, Padded(Value(s) + 1)) || Below(Padded(Value(s) + 1), s)
  {
    var next := Padded(Value(s) + 1);
    if |s| >= WIDTH && !AllNines(s) {
      NextIsAbove(s);
    } else if |s| >= WIDTH {
      NinesWrap(s);
    } else if AllZeros(s) {
      ShortZerosCountUp(s);
    } else {
      ShortFallsBehind(s);
    }
    if Below(s, next) && Below(next, s) {
      BelowTransitive(s, next, s);
      BelowIrreflexive(s);
    }
  }
}
