/**
  Which keysets are managed automatically is decided twice: the operations compare the handle with the configured
  prefix, the listings match it against an SQL LIKE pattern after turning both into upper case.
 */
module KeysetPrefix {
  import opened SqlLike

  function Upper(c: char): char {
    if 'a' <= c <= 'z' then c - 'a' + 'A' else c
  }

  function UpperAll(s: string): (r: string)
    ensures |r| == |s|
  {
    if s == [] then [] else [Upper(s[0])] + UpperAll(s[1..])
  }

  /** The test of the operations. */
  predicate OperationTest(handle: string, prefix: string) {
    prefix <= handle
  }

  /** The test of the listings. */
  predicate ListingTest(handle: string, prefix: string) {
    Like(UpperAll(handle), UpperAll(prefix + "%"))
  }

  predicate PlainChar(c: char) {
    c != '%' && c != '_' && c != '\\' && Upper(c) == c
  }

  /** In upper case and without wildcards. */
  predicate Plain(prefix: string) {
    forall k :: 0 <= k < |prefix| ==> PlainChar(prefix[k])
  }

  predicate IsUpper(s: string) {
    UpperAll(s) == s
  }

  lemma {:induction false} UpperTail(s: string)
    requires s != []
    ensures UpperAll(s)[0] == Upper(s[0]) && UpperAll(s)[1..] == UpperAll(s[1..])
  {
  }

  lemma {:induction false} UpperAppend(a: string, b: string)
    ensures UpperAll(a + b) == UpperAll(a) + UpperAll(b)
  {
    if a == [] {
      assert a + b == b;
    } else {
      UpperAppend(a[1..], b);
      assert (a + b)[1..] == a[1..] + b;
    }
  }

  lemma {:induction false} PlainMatches(text: string, prefix: string)
    requires Plain(prefix)
    ensures Like(text, prefix + "%") <==> prefix <= text
    decreases |prefix|
  {
    if prefix == [] {
      assert prefix + "%" == "%";
      PercentTakesAll(text);
    } else {
      assert PlainChar(prefix[0]);
      assert (prefix + "%")[1..] == prefix[1..] + "%";
      if text != [] {
        PlainMatches(text[1..], prefix[1..]);
        assert prefix <= text <==> prefix[0] == text[0] && prefix[1..] <= text[1..] by {
          assert text == [text[0]] + text[1..] && prefix == [prefix[0]] + prefix[1..];
        }
      }
    }
  }

  lemma {:induction false} PlainIsUpper(prefix: string)
    requires Plain(prefix)
    ensures IsUpper(prefix)
  {
    if prefix != [] {
      assert PlainChar(prefix[0]);
      PlainIsUpper(prefix[1..]);
      assert prefix == [prefix[0]] + prefix[1..];
    }
  }

  /** For an upper-case handle and a plain prefix the two tests agree. */
  lemma PlainPrefixAgrees(handle: string, prefix: string)
    requires Plain(prefix) && IsUpper(handle)
    ensures ListingTest(handle, prefix) <==> OperationTest(handle, prefix)
  {
    PlainIsUpper(prefix);
    UpperAppend(prefix, "%");
    assert UpperAll("%") == "%" by { UpperTail("%"); }
    PlainMatches(handle, prefix);
  }

  /** An upper-case handle the pattern of a prefix accepts, though it need not start with the prefix. */
  function Accepted(prefix: string): (h: string) {
    if prefix == [] then []
    else if prefix[0] == '%' then Accepted(prefix[1..])
    else if prefix[0] == '_' then ['X'] + Accepted(prefix[1..])
    else if prefix[0] == '\\' && |prefix| > 1 then [Upper(prefix[1])] + Accepted(prefix[2..])
    else if prefix[0] == '\\' then ['%']
    else [Upper(prefix[0])] + Accepted(prefix[1..])
  }

  lemma {:induction false} AcceptedIsUpper(prefix: string)
    ensures IsUpper(Accepted(prefix))
    decreases |prefix|
  {
    var h := Accepted(prefix);
    if prefix == [] {
    } else if prefix[0] == '\\' && |prefix| > 1 {
      AcceptedIsUpper(prefix[2..]);
      assert h[1..] == Accepted(prefix[2..]);
    } else if prefix[0] == '\\' {
      UpperTail("%");
    } else {
      AcceptedIsUpper(prefix[1..]);
      if prefix[0] != '%' {
        assert h[1..] == Accepted(prefix[1..]);
      }
    }
  }

  lemma {:induction false} AcceptedMatches(prefix: string)
    ensures Like(Accepted(prefix), UpperAll(prefix) + "%")
    decreases |prefix|
  {
    var h := Accepted(prefix);
    var pattern := UpperAll(prefix) + "%";
    if prefix == [] {
      assert pattern == "%";
      PercentTakesAll(h);
    } else {
      UpperTail(prefix);
      assert pattern[0] == Upper(prefix[0]);
      assert pattern[1..] == UpperAll(prefix[1..]) + "%";
      if prefix[0] == '\\' && |prefix| > 1 {
        UpperTail(prefix[1..]);
        assert prefix[1..][1..] == prefix[2..];
        assert pattern[1] == Upper(prefix[1]);
        assert pattern[2..] == UpperAll(prefix[2..]) + "%";
        AcceptedMatches(prefix[2..]);
        assert h[1..] == Accepted(prefix[2..]);
      } else if prefix[0] == '\\' {
        assert prefix[1..] == [];
        assert pattern == "\\%";
        assert h == "%";
        assert pattern[2..] == [] && h[1..] == [];
      } else {
        AcceptedMatches(prefix[1..]);
        if prefix[0] != '%' {
          assert h[1..] == Accepted(prefix[1..]);
          assert !('a' <= Upper(prefix[0]) <= 'z');
        }
      }
    }
  }

  lemma {:induction false} AcceptedLength(prefix: string)
    ensures |Accepted(prefix)| <= |prefix|
    decreases |prefix|
  {
    if prefix != [] {
      AcceptedLength(prefix[1..]);
      if |prefix| > 1 {
        AcceptedLength(prefix[2..]);
      }
    }
  }

  lemma {:induction false} AcceptedDiffers(prefix: string)
    ensures prefix <= Accepted(prefix) ==> Plain(prefix)
    decreases |prefix|
  {
    if prefix != [] {
      AcceptedLength(prefix[1..]);
      if |prefix| > 1 {
        AcceptedLength(prefix[2..]);
      }
      AcceptedDiffers(prefix[1..]);
      var h := Accepted(prefix);
      if prefix <= h {
        assert h[0] == prefix[0];
        assert PlainChar(prefix[0]);
        assert h[1..] == Accepted(prefix[1..]);
        assert prefix[1..] <= h[1..];
        assert Plain(prefix[1..]);
        assert forall k :: 0 < k < |prefix| ==> prefix[k] == prefix[1..][k - 1];
      }
    }
  }

  ghost predicate TestsAgree(prefix: string) {
    forall handle :: IsUpper(handle) ==> (ListingTest(handle, prefix) <==> OperationTest(handle, prefix))
  }

  /** The two tests agree on every upper-case handle exactly when the prefix is in upper case and free of wildcards. */
  lemma TestsAgreeExactlyWhenPlain(prefix: string)
    ensures TestsAgree(prefix) <==> Plain(prefix)
  {
    if Plain(prefix) {
      forall handle | IsUpper(handle) ensures ListingTest(handle, prefix) <==> OperationTest(handle, prefix) {
        PlainPrefixAgrees(handle, prefix);
      }
    } else {
      var h := Accepted(prefix);
      AcceptedIsUpper(prefix);
      AcceptedMatches(prefix);
      UpperAppend(prefix, "%");
      UpperTail("%");
      assert UpperAll("%") == "%";
      AcceptedDiffers(prefix);
      assert ListingTest(h, prefix) && !OperationTest(h, prefix);
    }
  }
}
