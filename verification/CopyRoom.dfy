/**
  Whether the generator finds an unused handle for an owner, and what copying one owner means for the others.
 */
module CopyRoom {
  import opened Options
  import opened Strings
  import opened Decimals
  import opened CopyHandles

  ghost predicate AllHandles(names: set<string>) {
    forall n :: n in names ==> IsHandle(n)
  }

  /** The next handle of the owner is not taken. */
  ghost predicate Available(names: set<string>, owner: string) {
    forall last :: IsLast(names, owner + SUFFIX, last) && LongEnough(owner, last) ==> NextHandle(owner, last) !in names
  }

  predicate LongEnough(owner: string, last: Option<string>) {
    last.Some? ==> |owner + SUFFIX| <= |last.value|
  }

  lemma LastIsUnique(names: set<string>, stem: string, a: Option<string>, b: Option<string>)
    requires IsLast(names, stem, a) && IsLast(names, stem, b)
    ensures a == b
  {
    if a.Some? && b.Some? && a != b {
      BelowTransitive(a.value, b.value, a.value);
      BelowIrreflexive(a.value);
    }
  }

  lemma AvailableIs(names: set<string>, owner: string, last: Option<string>)
    requires IsLast(names, owner + SUFFIX, last) && LongEnough(owner, last)
    ensures Available(names, owner) <==> NextHandle(owner, last) !in names
  {
    forall other | IsLast(names, owner + SUFFIX, other) ensures other == last {
      LastIsUnique(names, owner + SUFFIX, last, other);
    }
  }

  // ---- two stems in one handle ----

  /** The suffix does not overlap itself. */
  lemma SuffixesApart(h: string, i: nat, j: nat)
    requires i < j && j + |SUFFIX| <= |h|
    requires h[i..i + |SUFFIX|] == SUFFIX && h[j..j + |SUFFIX|] == SUFFIX
    ensures i + |SUFFIX| <= j
  {
    DashesOf(h, i);
    DashesOf(h, j);
  }

  lemma DashesOf(h: string, i: nat)
    requires i + |SUFFIX| <= |h| && h[i..i + |SUFFIX|] == SUFFIX
    ensures h[i] == '-' && forall k :: i < k < i + |SUFFIX| ==> h[k] != '-'
  {
    assert h[i] == SUFFIX[0];
    forall k | i < k < i + |SUFFIX| ensures h[k] != '-' {
      assert h[k] == SUFFIX[k - i];
    }
  }

  lemma StemAt(owner: string, h: string)
    requires owner + SUFFIX <= h
    ensures |owner| + |SUFFIX| <= |h| && h[|owner|..|owner| + |SUFFIX|] == SUFFIX && h[..|owner|] == owner
    ensures h[|owner|] == '-'
  {
    assert h[..|owner| + |SUFFIX|] == owner + SUFFIX;
    assert h[|owner|] == (owner + SUFFIX)[|owner|];
  }

  /** A handle with the stems of two owners: the longer owner extends the stem of the shorter. */
  lemma TwoStems(a: string, b: string, h: string)
    requires a + SUFFIX <= h && b + SUFFIX <= h && a != b && |a| <= |b|
    ensures a + SUFFIX <= b
  {
    StemAt(a, h);
    StemAt(b, h);
    if |a| < |b| {
      SuffixesApart(h, |a|, |b|);
      assert h[..|b|][..|a| + |SUFFIX|] == h[..|a| + |SUFFIX|];
    }
  }

  /** The tail has a dash, so it is no number, if another stem ends later. */
  lemma DashInTail(a: string, b: string, h: string)
    requires a + SUFFIX <= h && b + SUFFIX <= h && |a| + |SUFFIX| <= |b|
    ensures !AllDigits(Tail(a, h))
  {
    StemAt(b, h);
    assert Tail(a, h)[|b| - |a + SUFFIX|] == '-';
  }

  /** What the handle given to one owner looks like to another: no number, or the first copy of the last one. */
  lemma SeenByOther(a: string, last: Option<string>, b: string)
    requires last.Some? ==> a + SUFFIX < last.value
    requires a != b && b + SUFFIX < NextHandle(a, last)
    ensures !AllDigits(Tail(b, NextHandle(a, last))) || (last == Some(b) && Tail(b, NextHandle(a, last)) == ZERO_INDEX)
  {
    var h := NextHandle(a, last);
    NextStartsWithStem(a, last);
    if |b| < |a| {
      TwoStems(b, a, h);
      DashInTail(b, a, h);
    } else {
      TwoStems(a, b, h);
      DashInTail(a, b, h);
      if last.None? || AllDigits(Tail(a, last.value)) {
        NumericTail(a, last);
      } else {
        Associative(last.value, SUFFIX, ZERO_INDEX);
        LastStemIs(last.value, b, h);
      }
    }
  }

  lemma NextStartsWithStem(a: string, last: Option<string>)
    requires last.Some? ==> a + SUFFIX < last.value
    ensures a + SUFFIX < NextHandle(a, last)
  {
    if last.Some? {
      var more := NextExtendsStem(a, last.value);
    }
  }

  /** Without a restart the tail of the next handle is a number. */
  lemma NumericTail(a: string, last: Option<string>)
    requires last.Some? ==> a + SUFFIX < last.value && AllDigits(Tail(a, last.value))
    ensures a + SUFFIX < NextHandle(a, last) && AllDigits(Tail(a, NextHandle(a, last)))
  {
    NextStartsWithStem(a, last);
    var h := NextHandle(a, last);
    if last.None? {
      assert Tail(a, h) == ZERO_INDEX;
    } else {
      var p := Padded((Value(Tail(a, last.value)) + 1) % TWO_64);
      PaddedIsDigits((Value(Tail(a, last.value)) + 1) % TWO_64);
      assert Tail(a, h) == p;
    }
  }

  /** After a restart only the last handle itself is a stem with a number behind it. */
  lemma LastStemIs(last: string, b: string, h: string)
    requires h == last + (SUFFIX + ZERO_INDEX) && b + SUFFIX <= h
    ensures AllDigits(Tail(b, h)) ==> last == b && Tail(b, h) == ZERO_INDEX
  {
    assert last + SUFFIX <= h;
    StemAt(last, h);
    StemAt(b, h);
    DashesOf(h, |last|);
    DashesOf(h, |b|);
    assert forall k :: |last| + |SUFFIX| <= k < |h| ==> h[k] == ZERO_INDEX[k - |last| - |SUFFIX|];
    if AllDigits(Tail(b, h)) {
      assert forall k :: |b| + |SUFFIX| <= k < |h| ==> h[k] == Tail(b, h)[k - |b| - |SUFFIX|];
      assert |b| == |last|;
    }
  }

  // ---- copying one owner and then another ----

  lemma NotSeen(names: set<string>, h: string, owner: string)
    requires IsHandle(owner) && AllHandles(names) && !Candidate(h, owner + SUFFIX)
    ensures Available(names + {h}, owner) <==> Available(names, owner)
  {
    var stem := owner + SUFFIX;
    forall last ensures IsLast(names + {h}, stem, last) <==> IsLast(names, stem, last) {
    }
    forall last | IsLast(names, stem, last) ensures LongEnough(owner, last) && NextHandle(owner, last) != h {
      NextIsAboveAll(names, owner, last);
    }
  }

  /** If the owner could be copied before, it can be copied after another owner was. */
  lemma AvailableStays(names: set<string>, a: string, last: Option<string>, b: string)
    requires AllHandles(names) && IsHandle(a) && IsHandle(b) && a != b && IsLast(names, a + SUFFIX, last)
    requires LongEnough(a, last) && IsHandle(NextHandle(a, last))
    requires Available(names, b)
    ensures Available(names + {NextHandle(a, last)}, b)
  {
    var h := NextHandle(a, last);
    var stem := b + SUFFIX;
    NextIsAboveAll(names, a, last);
    if !Candidate(h, stem) {
      NotSeen(names, h, b);
    } else {
      StemIsHandle(b);
      CandidateStartsWithStem(h, stem);
      SeenByOther(a, last, b);
      forall now | IsLast(names + {h}, stem, now) && LongEnough(b, now) ensures NextHandle(b, now) !in names + {h} {
        if now == Some(h) {
          SeenIsLast(names, b, h);
        } else {
          SeenIsNotLast(names, a, last, b, now);
        }
      }
    }
  }

  lemma SeenIsLast(names: set<string>, b: string, h: string)
    requires AllHandles(names) && IsHandle(b) && IsHandle(h) && b + SUFFIX < h
    requires IsLast(names + {h}, b + SUFFIX, Some(h))
    requires !AllDigits(Tail(b, h)) || Tail(b, h) == ZERO_INDEX
    ensures NextHandle(b, Some(h)) !in names + {h}
  {
    if AllDigits(Tail(b, h)) {
      NineteenDigitsFit(Tail(b, h));
    }
    NextIsAboveAll(names + {h}, b, Some(h));
  }

  lemma SeenIsNotLast(names: set<string>, a: string, last: Option<string>, b: string, now: Option<string>)
    requires AllHandles(names) && IsHandle(a) && IsHandle(b) && a != b
    requires IsLast(names, a + SUFFIX, last) && (last.Some? ==> a + SUFFIX < last.value)
    requires var h := NextHandle(a, last);
      IsHandle(h) && b + SUFFIX < h && Candidate(h, b + SUFFIX)
      && IsLast(names + {h}, b + SUFFIX, now) && now != Some(h)
    requires Available(names, b)
    ensures LongEnough(b, now) && NextHandle(b, now) !in names + {NextHandle(a, last)}
  {
    var h := NextHandle(a, last);
    var stem := b + SUFFIX;
    StemIsHandle(b);
    assert now.Some? && now.value in names && Candidate(now.value, stem);
    CandidateStartsWithStem(now.value, stem);
    assert IsLast(names, stem, now);
    SeenByOther(a, last, b);
    if NextHandle(b, now) == h {
      NextGivenTwice(names, a, last, b, now.value);
      BelowTransitive(h, now.value, h);
      BelowIrreflexive(h);
    }
  }

  /** The same handle is not next for two owners unless it is above all candidates of both. */
  lemma NextGivenTwice(names: set<string>, a: string, last: Option<string>, b: string, now: string)
    requires AllHandles(names) && IsHandle(a) && IsHandle(b)
    requires IsLast(names, a + SUFFIX, last) && (last.Some? ==> a + SUFFIX < last.value)
    requires b + SUFFIX < now && now in names && b + SUFFIX < NextHandle(a, last)
    requires !AllDigits(Tail(b, NextHandle(a, last))) || (last == Some(b) && Tail(b, NextHandle(a, last)) == ZERO_INDEX)
    requires NextHandle(b, Some(now)) == NextHandle(a, last)
    ensures Below(now, NextHandle(a, last))
  {
    var h := NextHandle(a, last);
    if AllDigits(Tail(b, now)) {
      PaddedIsDigits((Value(Tail(b, now)) + 1) % TWO_64);
      assert Tail(b, h) == Padded((Value(Tail(b, now)) + 1) % TWO_64);
      NothingBehindLast(names, a, b, now);
    } else {
      Associative(now, SUFFIX, ZERO_INDEX);
      BelowExtension(now, SUFFIX + ZERO_INDEX);
    }
  }

  lemma NothingBehindLast(names: set<string>, a: string, last: string, n: string)
    requires IsHandle(a) && IsLast(names, a + SUFFIX, Some(last)) && a + SUFFIX < last && n in names
    ensures !(last + SUFFIX < n)
  {
    if last + SUFFIX < n {
      StemIsHandle(a);
      assert n == (a + SUFFIX) + n[|a + SUFFIX|..];
      ExtensionIsCandidate(a + SUFFIX, n[|a + SUFFIX|..]);
      assert n == last + n[|last|..];
      BelowExtension(last, n[|last|..]);
      BelowTransitive(last, n, last);
      BelowIrreflexive(last);
    }
  }

  /** Neither handle extends the stem of the other. */
  predicate Apart(a: string, b: string) {
    !(a + SUFFIX <= b) && !(b + SUFFIX <= a)
  }

  /** For owners apart, copying one does not change whether the other can be copied. */
  lemma ApartIsIndependent(names: set<string>, a: string, last: Option<string>, b: string)
    requires AllHandles(names) && IsHandle(a) && IsHandle(b) && a != b && Apart(a, b)
    requires IsLast(names, a + SUFFIX, last) && LongEnough(a, last) && IsHandle(NextHandle(a, last))
    ensures Available(names + {NextHandle(a, last)}, b) <==> Available(names, b)
  {
    var h := NextHandle(a, last);
    NextIsAboveAll(names, a, last);
    NextStartsWithStem(a, last);
    if Candidate(h, b + SUFFIX) {
      StemIsHandle(b);
      CandidateStartsWithStem(h, b + SUFFIX);
      if |a| <= |b| {
        TwoStems(a, b, h);
      } else {
        TwoStems(b, a, h);
      }
    }
    NotSeen(names, h, b);
  }
}
