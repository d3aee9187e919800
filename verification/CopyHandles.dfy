/**
  Handles for copies of blocked owners: the handle of the owner, a fixed suffix and a number one above the highest
  handle of that shape in the registry, as an SQL query finds it.
 */
module CopyHandles {
  import opened Strings
  import opened Options
  import opened Decimals
  import opened SqlLike

  const SUFFIX := "-ABC_"
  const ZERO_INDEX := "00000"
  const TWO_64: nat := 0x1_0000_0000_0000_0000

  /** Registered handles are in upper case and have no special characters of LIKE except the underscore. */
  predicate IsHandle(s: string) {
    forall k :: 0 <= k < |s| ==> '\0' < s[k] <= '_' && s[k] != '%' && s[k] != '\\'
  }

  /** The WHERE clause: above the stem and like the stem, whose underscore is a wildcard. */
  predicate Candidate(name: string, stem: string) {
    Below(stem, name) && Like(name, stem + "%")
  }

  /** ORDER BY name DESC LIMIT 1, names being ordered by their bytes. */
  ghost predicate IsLast(names: set<string>, stem: string, last: Option<string>) {
    match last
    case None => forall n :: n in names ==> !Candidate(n, stem)
    case Some(l) =>
      && l in names && Candidate(l, stem)
      && forall n :: n in names && Candidate(n, stem) ==> n == l || Below(n, l)
  }

  function Tail(owner: string, name: string): string
    requires |owner + SUFFIX| <= |name|
  {
    name[|owner + SUFFIX|..]
  }

  function NextHandle(owner: string, last: Option<string>): string
    requires last.Some? ==> |owner + SUFFIX| <= |last.value|
  {
    var stem := owner + SUFFIX;
    if last.None? then stem + ZERO_INDEX
    else
      var tail := Tail(owner, last.value);
      if AllDigits(tail) then stem + Padded((Value(tail) + 1) % TWO_64)
      else last.value + SUFFIX + ZERO_INDEX
  }

  /** get_copy_owner_handle, after its query; the index is a 64-bit number that wraps. */
  method GetCopyOwnerHandle(owner: string, last: Option<string>) returns (handle: string)
    requires last.Some? ==> |owner + SUFFIX| <= |last.value|
    ensures handle == NextHandle(owner, last)
  {
    handle := owner + SUFFIX;
    if last.None? {
      handle := handle + ZERO_INDEX;
      return;
    }
    var tail := last.value[|handle|..];
    var copyIndex := 0;
    for i := 0 to |tail|
      invariant AllDigits(tail[..i])
      invariant copyIndex == Value(tail[..i]) % TWO_64
    {
      var c := tail[i];
      if c < '0' || '9' < c {
        assert !IsDigit(tail[i]);
        handle := last.value + SUFFIX + ZERO_INDEX;
        return;
      }
      OneMoreDigit(tail, i);
      copyIndex := (10 * copyIndex + DigitOf(c)) % TWO_64;
    }
    assert tail[..|tail|] == tail;
    AddWraps(Value(tail));
    copyIndex := (copyIndex + 1) % TWO_64;
    handle := handle + Padded(copyIndex);
  }

  lemma OneMoreDigit(tail: string, i: nat)
    requires i < |tail| && AllDigits(tail[..i]) && IsDigit(tail[i])
    ensures AllDigits(tail[..i + 1])
    ensures Value(tail[..i + 1]) % TWO_64 == (10 * (Value(tail[..i]) % TWO_64) + DigitOf(tail[i])) % TWO_64
  {
    assert tail[..i + 1][..i] == tail[..i];
    ShiftWraps(Value(tail[..i]), DigitOf(tail[i]));
  }

  lemma ShiftWraps(v: nat, d: nat)
    ensures (10 * v + d) % TWO_64 == (10 * (v % TWO_64) + d) % TWO_64
  {
    var q := v / TWO_64;
    assert 10 * v + d == 10 * (v % TWO_64) + d + TWO_64 * (10 * q);
    ModDropsMultiples(10 * (v % TWO_64) + d, 10 * q);
  }

  lemma AddWraps(v: nat)
    ensures (v + 1) % TWO_64 == (v % TWO_64 + 1) % TWO_64
  {
    var q := v / TWO_64;
    assert v + 1 == v % TWO_64 + 1 + TWO_64 * q;
    ModDropsMultiples(v % TWO_64 + 1, q);
  }

  lemma ModDropsMultiples(a: nat, q: nat)
    ensures (a + TWO_64 * q) % TWO_64 == a % TWO_64
  {
  }

  // ---- freshness ----

  /** Among registered handles a candidate starts with the stem: what the wildcard lets through is not above the
      stem. */
  lemma {:induction false} CandidateStartsWithStem(name: string, stem: string)
    requires IsHandle(name) && IsHandle(stem) && Candidate(name, stem)
    ensures stem < name
    decreases |stem|
  {
    if stem != [] {
      assert (stem + "%")[1..] == stem[1..] + "%";
      assert name != [];
      assert name[0] == stem[0];
      CandidateStartsWithStem(name[1..], stem[1..]);
      assert name == [name[0]] + name[1..] && stem == [stem[0]] + stem[1..];
    }
  }

  lemma ExtensionIsCandidate(stem: string, more: string)
    requires IsHandle(stem) && more != []
    ensures Candidate(stem + more, stem)
  {
    BelowExtension(stem, more);
    LikeItself(stem);
    LikeExtends(stem, stem, more);
  }

  lemma StemIsHandle(owner: string)
    requires IsHandle(owner)
    ensures IsHandle(owner + SUFFIX)
  {
  }

  /** A tail that counting up, or restarting behind it, raises: no number, a number with room at its length, or
      zeros. */
  predicate Grows(tail: string) {
    !AllDigits(tail) || (if |tail| >= WIDTH then !AllNines(tail) else AllZeros(tail))
  }

  /** The index of the tail can be counted up in 64 bits. */
  predicate Fits(tail: string) {
    AllDigits(tail) ==> Value(tail) + 1 < TWO_64
  }

  lemma NineteenDigitsFit(tail: string)
    requires |tail| <= 19
    ensures Fits(tail)
  {
    if AllDigits(tail) {
      ValueBound(tail);
    }
  }

  /** The next handle is a new highest one, and so unused, exactly if there is none yet or the tail of the last
      grows. */
  lemma NextIsAboveAll(names: set<string>, owner: string, last: Option<string>)
    requires IsHandle(owner) && (forall n :: n in names ==> IsHandle(n)) && IsLast(names, owner + SUFFIX, last)
    ensures last.Some? ==> owner + SUFFIX < last.value
    ensures Candidate(NextHandle(owner, last), owner + SUFFIX)
    ensures last.None? ==> NextHandle(owner, last) !in names
    ensures last.Some? && Fits(Tail(owner, last.value)) ==>
      (AboveAll(names, owner + SUFFIX, NextHandle(owner, last)) <==> Grows(Tail(owner, last.value)))
    ensures last.Some? && Grows(Tail(owner, last.value)) && Fits(Tail(owner, last.value)) ==>
      NextHandle(owner, last) !in names
  {
    var stem := owner + SUFFIX;
    StemIsHandle(owner);
    if last.Some? {
      CandidateStartsWithStem(last.value, stem);
      NextIsCandidate(owner, last.value);
      if Fits(Tail(owner, last.value)) {
        NextAgainstLast(owner, last.value);
        AboveLastIsAboveAll(names, stem, last.value, NextHandle(owner, last));
      }
    } else {
      ExtensionIsCandidate(stem, ZERO_INDEX);
    }
  }

  ghost predicate AboveAll(names: set<string>, stem: string, next: string) {
    forall n :: n in names && Candidate(n, stem) ==> Below(n, next)
  }

  lemma WrapsNot(v: nat)
    requires v + 1 < TWO_64
    ensures (v + 1) % TWO_64 == v + 1
  {
  }

  lemma NumericNext(owner: string, last: string)
    requires |owner + SUFFIX| <= |last| && AllDigits(Tail(owner, last)) && Fits(Tail(owner, last))
    ensures NextHandle(owner, Some(last)) == owner + SUFFIX + Padded(Value(Tail(owner, last)) + 1)
  {
    WrapsNot(Value(Tail(owner, last)));
  }

  lemma NextExtendsStem(owner: string, last: string) returns (more: string)
    requires owner + SUFFIX < last
    ensures more != [] && NextHandle(owner, Some(last)) == owner + SUFFIX + more
  {
    var tail := Tail(owner, last);
    if AllDigits(tail) {
      more := Padded((Value(tail) + 1) % TWO_64);
    } else {
      more := tail + (SUFFIX + ZERO_INDEX);
      assert last == owner + SUFFIX + tail;
      Associative(owner + SUFFIX, tail, SUFFIX + ZERO_INDEX);
      Associative(last, SUFFIX, ZERO_INDEX);
    }
  }

  lemma NextIsCandidate(owner: string, last: string)
    requires IsHandle(owner) && owner + SUFFIX < last
    ensures Candidate(NextHandle(owner, Some(last)), owner + SUFFIX)
  {
    StemIsHandle(owner);
    var more := NextExtendsStem(owner, last);
    ExtensionIsCandidate(owner + SUFFIX, more);
  }

  /** The next handle is above the last one exactly if the tail grows, and below it otherwise. */
  lemma NextAgainstLast(owner: string, last: string)
    requires owner + SUFFIX < last && Fits(Tail(owner, last))
    ensures Below(last, NextHandle(owner, Some(last))) <==> Grows(Tail(owner, last))
    ensures !Grows(Tail(owner, last)) ==> Below(NextHandle(owner, Some(last)), last)
  {
    if AllDigits(Tail(owner, last)) {
      NumericAgainstLast(owner, last);
    } else {
      Associative(last, SUFFIX, ZERO_INDEX);
      BelowExtension(last, SUFFIX + ZERO_INDEX);
    }
  }

  lemma NumericAgainstLast(owner: string, last: string)
    requires owner + SUFFIX < last && Fits(Tail(owner, last)) && AllDigits(Tail(owner, last))
    ensures Below(last, NextHandle(owner, Some(last))) <==> Grows(Tail(owner, last))
    ensures !Grows(Tail(owner, last)) ==> Below(NextHandle(owner, Some(last)), last)
  {
    var stem, tail := owner + SUFFIX, Tail(owner, last);
    assert last == stem + tail;
    NumericNext(owner, last);
    CountingUp(tail);
    SameStem(stem, tail, Padded(Value(tail) + 1));
  }

  lemma SameStem(stem: string, a: string, b: string)
    requires Below(a, b) || Below(b, a)
    ensures Below(stem + a, stem + b) <==> Below(a, b)
    ensures Below(b, a) ==> Below(stem + b, stem + a)
  {
    if Below(a, b) {
      BelowBehind(stem, a, b);
    }
    if Below(b, a) {
      BelowBehind(stem, b, a);
      if Below(a, b) {
        BelowTransitive(a, b, a);
        BelowIrreflexive(a);
      }
      if Below(stem + a, stem + b) {
        BelowTransitive(stem + a, stem + b, stem + a);
        BelowIrreflexive(stem + a);
      }
    }
  }

  lemma AboveLastIsAboveAll(names: set<string>, stem: string, last: string, next: string)
    requires IsLast(names, stem, Some(last)) && Candidate(next, stem)
    ensures AboveAll(names, stem, next) <==> Below(last, next)
    ensures Below(last, next) ==> next !in names
  {
    if Below(last, next) {
      forall n | n in names && Candidate(n, stem) ensures Below(n, next) {
        if n != last {
          BelowTransitive(n, last, next);
        }
      }
      BelowIrreflexive(next);
    }
  }

  /** With nothing but nines the next handle is a one and zeros. */
  lemma NinesFallBehind(owner: string, last: string)
    requires owner + SUFFIX < last && Fits(Tail(owner, last))
    requires AllNines(Tail(owner, last)) && |Tail(owner, last)| >= WIDTH
    ensures NextHandle(owner, Some(last)) == owner + SUFFIX + (['1'] + Zeros(|Tail(owner, last)|))
    ensures Below(NextHandle(owner, Some(last)), last)
  {
    NinesWrap(Tail(owner, last));
    NumericNext(owner, last);
    NextAgainstLast(owner, last);
  }

  /** Where the tail does not grow the generator is stuck after one more copy: it finds the same last handle again. */
  lemma StuckBehind(names: set<string>, owner: string, last: string)
    requires IsHandle(owner) && IsLast(names, owner + SUFFIX, Some(last)) && owner + SUFFIX < last
    requires Fits(Tail(owner, last)) && !Grows(Tail(owner, last))
    ensures var next := NextHandle(owner, Some(last));
      IsLast(names + {next}, owner + SUFFIX, Some(last)) && NextHandle(owner, Some(last)) in names + {next}
  {
    NextAgainstLast(owner, last);
  }

  lemma SevenCountsToEight()
    ensures NextHandle("FOO", Some("FOO" + SUFFIX + "7")) == "FOO" + SUFFIX + "00008"
  {
    var last := "FOO" + SUFFIX + "7";
    assert Tail("FOO", last) == "7";
    assert "7"[..0] == [];
    assert Value("7") == 7;
    NineteenDigitsFit("7");
    NumericNext("FOO", last);
    FiveDigitValue("00008");
    PaddedOfFive("00008");
  }

  /** Someone has registered FOO-ABC_7: the second copy of FOO already gets a taken handle. */
  lemma ShortIndexIsStuck()
    ensures var stem := "FOO" + SUFFIX;
      var names := {"FOO", stem + "7", stem + "00008"};
      IsLast(names, stem, Some(stem + "7")) && NextHandle("FOO", Some(stem + "7")) in names
  {
    var stem := "FOO" + SUFFIX;
    SevenCountsToEight();
    ExtensionIsCandidate(stem, "7");
    assert Below("00008", "7");
    BelowBehind(stem, "00008", "7");
    PrefixIsNotAbove("FOO", stem);
  }

  lemma {:induction false} PrefixIsNotAbove(a: string, b: string)
    requires a <= b
    ensures !Below(b, a)
  {
    if a != [] {
      assert b == a + b[|a|..];
      PrefixIsNotAbove(a[1..], b[1..]);
    }
  }

  /** An index beyond 64 bits wraps: if little is left of it, the next handle falls behind. */
  lemma WrappedFallsBehind(owner: string, last: string)
    requires owner + SUFFIX < last && AllDigits(Tail(owner, last)) && Tail(owner, last)[0] != '0'
    requires (Value(Tail(owner, last)) + 1) % TWO_64 < 10000
    ensures Below(NextHandle(owner, Some(last)), last)
  {
    var tail := Tail(owner, last);
    var w := (Value(tail) + 1) % TWO_64;
    PaddedIsFiveDigits(w);
    StartsWithZero(w);
    assert last == owner + SUFFIX + tail;
    BelowBehind(owner + SUFFIX, Padded(w), tail);
  }

  lemma StartsWithZero(w: nat)
    requires w < 10000
    ensures |Padded(w)| == WIDTH && Padded(w)[0] == '0'
  {
    PaddedIsFiveDigits(w);
    FiveDigitValue(Padded(w));
  }

  // ---- runs of copies ----

  /** A copy registers the next handle of its owner, given what the query found; others register other handles. */
  datatype Event = Copy(last: Option<string>) | Other(name: string)

  function Numbered(owner: string, k: nat): string {
    owner + SUFFIX + Padded(k)
  }

  /** The handles of this shape are those of the first copies, and no others. */
  ghost predicate FirstCopies(names: set<string>, owner: string, count: nat) {
    && (forall n :: n in names ==> IsHandle(n))
    && (forall k :: 0 <= k < count ==> Numbered(owner, k) in names)
    && (forall n :: n in names && Candidate(n, owner + SUFFIX) ==>
          exists k :: 0 <= k < count && n == Numbered(owner, k))
  }

  /** Up to five digits, byte order is numeric order. */
  lemma {:induction false} NumberedIncrease(owner: string, j: nat, k: nat)
    requires j < k < 100000
    ensures Below(Numbered(owner, j), Numbered(owner, k))
    decreases k
  {
    PaddedIsFiveDigits(k - 1);
    NextIsAbove(Padded(k - 1));
    BelowBehind(owner + SUFFIX, Padded(k - 1), Padded(k));
    if j < k - 1 {
      NumberedIncrease(owner, j, k - 1);
      BelowTransitive(Numbered(owner, j), Numbered(owner, k - 1), Numbered(owner, k));
    }
  }

  lemma NextOfNumbered(owner: string, k: nat)
    requires k < 100000
    ensures |owner + SUFFIX| <= |Numbered(owner, k)|
    ensures NextHandle(owner, Some(Numbered(owner, k))) == Numbered(owner, k + 1)
  {
    PaddedIsFiveDigits(k);
    assert Tail(owner, Numbered(owner, k)) == Padded(k);
    NineteenDigitsFit(Padded(k));
    NumericNext(owner, Numbered(owner, k));
  }

  lemma NextOfNone(owner: string)
    ensures NextHandle(owner, None) == Numbered(owner, 0)
  {
    PaddedOfFive(ZERO_INDEX);
    FiveDigitValue(ZERO_INDEX);
  }

  /** The handle made after some copies is the next number. */
  lemma NextIsNumbered(names: set<string>, owner: string, count: nat, last: Option<string>)
    requires IsHandle(owner) && FirstCopies(names, owner, count) && count <= 100000
    requires IsLast(names, owner + SUFFIX, last)
    ensures last.Some? ==> |owner + SUFFIX| <= |last.value|
    ensures NextHandle(owner, last) == Numbered(owner, count) && Numbered(owner, count) !in names
  {
    if count == 0 {
      NextOfNone(owner);
      NextIsAboveAll(names, owner, last);
    } else {
      LastIsHighest(names, owner, count, last);
      NextOfNumbered(owner, count - 1);
      if count < 100000 {
        PaddedIsFiveDigits(count - 1);
        assert Tail(owner, last.value) == Padded(count - 1);
        NineteenDigitsFit(Padded(count - 1));
        NextIsAboveAll(names, owner, last);
      } else {
        HundredThousandthIsNew(names, owner);
      }
    }
  }

  lemma LastIsHighest(names: set<string>, owner: string, count: nat, last: Option<string>)
    requires IsHandle(owner) && FirstCopies(names, owner, count) && 0 < count <= 100000
    requires IsLast(names, owner + SUFFIX, last)
    ensures last == Some(Numbered(owner, count - 1))
  {
    var highest := Numbered(owner, count - 1);
    PaddedIsFiveDigits(count - 1);
    StemIsHandle(owner);
    ExtensionIsCandidate(owner + SUFFIX, Padded(count - 1));
    assert highest in names && Candidate(highest, owner + SUFFIX);
    var k :| 0 <= k < count && last.value == Numbered(owner, k);
    if k < count - 1 {
      NumberedIncrease(owner, k, count - 1);
      BelowTransitive(last.value, highest, last.value);
      BelowIrreflexive(last.value);
    }
  }

  lemma HundredThousandthIsNew(names: set<string>, owner: string)
    requires IsHandle(owner) && FirstCopies(names, owner, 100000)
    ensures Numbered(owner, 100000) !in names
  {
    SixDigits();
    StemIsHandle(owner);
    ExtensionIsCandidate(owner + SUFFIX, "100000");
    if Numbered(owner, 100000) in names {
      var k :| 0 <= k < 100000 && Numbered(owner, 100000) == Numbered(owner, k);
      PaddedIsFiveDigits(k);
    }
  }

  /** A run in which every query is answered by the state at its time and no one else takes handles of this shape. */
  ghost predicate IsRun(names: set<string>, owner: string, events: seq<Event>)
    decreases |events|
  {
    events == [] ||
    match events[0]
    case Copy(last) =>
      && IsLast(names, owner + SUFFIX, last)
      && (last.Some? ==> |owner + SUFFIX| <= |last.value|)
      && IsRun(names + {NextHandle(owner, last)}, owner, events[1..])
    case Other(name) =>
      IsHandle(name) && !Candidate(name, owner + SUFFIX) && IsRun(names + {name}, owner, events[1..])
  }

  ghost function Names(names: set<string>, owner: string, events: seq<Event>): set<string>
    requires IsRun(names, owner, events)
    decreases |events|
  {
    if events == [] then names
    else
      match events[0]
      case Copy(last) => Names(names + {NextHandle(owner, last)}, owner, events[1..])
      case Other(name) => Names(names + {name}, owner, events[1..])
  }

  /** The handles given to the copies, in order. */
  ghost function Given(names: set<string>, owner: string, events: seq<Event>): seq<string>
    requires IsRun(names, owner, events)
    decreases |events|
  {
    if events == [] then []
    else
      match events[0]
      case Copy(last) => [NextHandle(owner, last)] + Given(names + {NextHandle(owner, last)}, owner, events[1..])
      case Other(name) => Given(names + {name}, owner, events[1..])
  }

  lemma PaddedIsHandle(k: nat)
    requires k <= 100000
    ensures IsHandle(Padded(k))
  {
    if k < 100000 {
      PaddedIsFiveDigits(k);
      assert forall i :: 0 <= i < 5 ==> IsDigit(Padded(k)[i]);
    } else {
      SixDigits();
    }
  }

  lemma SixDigits()
    ensures Padded(100000) == "100000"
  {
    var six := "100000";
    assert six[..5] == "10000";
    FiveDigitValue(six[..5]);
    CanonicalIsDecimal(six);
    assert Value(six) == 100000;
  }

  lemma OneCopyMore(names: set<string>, owner: string, count: nat)
    requires IsHandle(owner) && FirstCopies(names, owner, count) && count <= 100000
    ensures FirstCopies(names + {Numbered(owner, count)}, owner, count + 1)
  {
    var more := names + {Numbered(owner, count)};
    PaddedIsHandle(count);
    StemIsHandle(owner);
    forall n | n in more && Candidate(n, owner + SUFFIX)
      ensures exists k :: 0 <= k < count + 1 && n == Numbered(owner, k)
    {
      if n == Numbered(owner, count) {
      } else {
        var k :| 0 <= k < count && n == Numbered(owner, k);
      }
    }
  }

  /**
    Over every run from a registry without copies of the owner, the copies get the numbers from zero on, each handle new
    when it is given; up to the hundred thousandth they also increase.
   */
  lemma {:induction false} CopiesAreNumbered(names: set<string>, owner: string, count: nat, events: seq<Event>)
    requires IsHandle(owner) && FirstCopies(names, owner, count) && IsRun(names, owner, events)
    requires count + |Given(names, owner, events)| <= 100001
    ensures FirstCopies(Names(names, owner, events), owner, count + |Given(names, owner, events)|)
    ensures forall k :: 0 <= k < |Given(names, owner, events)| ==>
      Given(names, owner, events)[k] == Numbered(owner, count + k) && Given(names, owner, events)[k] !in names
    decreases |events|
  {
    if events != [] {
      match events[0] {
        case Copy(last) =>
          NextIsNumbered(names, owner, count, last);
          OneCopyMore(names, owner, count);
          CopiesAreNumbered(names + {Numbered(owner, count)}, owner, count + 1, events[1..]);
        case Other(name) =>
          CopiesAreNumbered(names + {name}, owner, count, events[1..]);
      }
    }
  }

  /** After one hundred thousand and one copies the generator is stuck: the next handle is already taken. */
  lemma StuckAfterSixDigits(names: set<string>, owner: string, last: Option<string>)
    requires IsHandle(owner) && FirstCopies(names, owner, 100001) && IsLast(names, owner + SUFFIX, last)
    ensures last == Some(Numbered(owner, 99999))
    ensures |owner + SUFFIX| <= |last.value|
    ensures NextHandle(owner, last) == Numbered(owner, 100000) && Numbered(owner, 100000) in names
  {
    var highest := Numbered(owner, 99999);
    StemIsHandle(owner);
    PaddedIsFiveDigits(99999);
    ExtensionIsCandidate(owner + SUFFIX, Padded(99999));
    assert highest in names && Candidate(highest, owner + SUFFIX);
    var k :| 0 <= k < 100001 && last.value == Numbered(owner, k);
    if k != 99999 {
      NinesAreHighest(owner, k);
      BelowTransitive(last.value, highest, last.value);
      BelowIrreflexive(last.value);
    }
    NextOfNumbered(owner, 99999);
  }

  lemma NinesAreHighest(owner: string, k: nat)
    requires k <= 100000 && k != 99999
    ensures Below(Numbered(owner, k), Numbered(owner, 99999))
  {
    if k < 99999 {
      NumberedIncrease(owner, k, 99999);
    } else {
      PaddedIsFiveDigits(99999);
      NinesWrap(Padded(99999));
      BelowBehind(owner + SUFFIX, Padded(100000), Padded(99999));
    }
  }
}
