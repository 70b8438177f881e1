/**
 * Worked inputs for `parse_amount`: a rupee-prefixed amount with a thousands
 * separator, the rupee sign with a fraction, and text without a numeral.
 */
module AmountExamples {
  import opened Wrappers
  import opened Amounts

  /** Text before the first character of `pat` passes through `replace` unchanged. */
  lemma {:induction false} RemoveAllSkip(p: string, s: string, pat: string)
    requires pat != [] && forall k :: 0 <= k < |p| ==> p[k] != pat[0]
    ensures RemoveAll(p + s, pat) == p + RemoveAll(s, pat)
    decreases |p|
  {
    if p != [] {
      var ps := p + s;
      RemoveAllSkip(p[1..], s, pat);
      assert ps[1..] == p[1..] + s;
      if |ps| < |pat| {
        assert RemoveAll(s, pat) == s;
      } else {
        assert ps[..|pat|] != pat by { assert ps[..|pat|][0] == p[0]; }
        assert RemoveAll(ps, pat) == [p[0]] + RemoveAll(ps[1..], pat);
        assert [p[0]] + (p[1..] + RemoveAll(s, pat)) == p + RemoveAll(s, pat);
      }
    } else {
      assert p + s == s;
    }
  }

  /** An occurrence of `pat` at the front is deleted. */
  lemma RemoveAllHit(s: string, pat: string)
    requires pat != []
    ensures RemoveAll(pat + s, pat) == RemoveAll(s, pat)
  {
    assert (pat + s)[..|pat|] == pat;
    assert (pat + s)[|pat|..] == s;
  }

  // "Rs. 1,000"

  lemma RsSplit()
    ensures "Rs. 1,000" == "Rs. 1" + ("," + "000") && "Rs. 1" + "000" == "Rs. 1000"
  {
  }

  lemma RsCommaRemoved()
    ensures RemoveAll("Rs. 1,000", ",") == "Rs. 1000"
  {
    RsSplit();
    RemoveAllSkip("Rs. 1", "," + "000", ",");
    RemoveAllHit("000", ",");
    RemoveAllFacts("000", ",");
  }

  lemma RsMarkerRemoved()
    ensures RemoveAll("Rs. 1000", "Rs") == ". 1000"
  {
    assert "Rs. 1000" == "Rs" + ". 1000";
    RemoveAllHit(". 1000", "Rs");
  }

  lemma RsNoInr()
    ensures RemoveAll(". 1000", "INR") == ". 1000"
  {
    RemoveAllFacts(". 1000", "INR");
  }

  lemma RsNoSign()
    ensures RemoveAll(". 1000", "\U{20B9}") == ". 1000"
  {
    RemoveAllFacts(". 1000", "\U{20B9}");
  }

  lemma RsStripped()
    ensures Strip(". 1000") == ". 1000"
  {
    assert StripStart(". 1000", 0) == 0;
    assert StripEnd(". 1000", 0, 6) == 6;
  }

  lemma RsCleaned()
    ensures Clean("Rs. 1,000") == ". 1000"
  {
    RsCommaRemoved();
    RsMarkerRemoved();
    RsNoInr();
    RsNoSign();
    RsStripped();
    CleanSteps("Rs. 1,000", "Rs. 1000", ". 1000", ". 1000", ". 1000");
  }

  lemma RsNumeralFound()
    ensures FindNumeral(". 1000", 0) == Some((2, 6))
  {
    assert DigitRunEnd(". 1000", 2) == 6;
  }

  lemma RsNumeralValue()
    ensures IsNumeral(". 1000"[2..6]) && NumeralValue(". 1000"[2..6]) == 1000.0
  {
    assert ". 1000"[2..6] == "1000";
    DigitsNumeralValue("1000");
    assert "1000"[..3] == "100" && "100"[..2] == "10" && "10"[..1] == "1" && "1"[..0] == "";
  }

  /** `parse_amount("Rs. 1,000") == 1000.0` */
  lemma RupeesWithSeparator()
    ensures ParseAmount(Text("Rs. 1,000")) == 1000.0
  {
    RsCleaned();
    RsNumeralFound();
    RsNumeralValue();
    ParseFound("Rs. 1,000", ". 1000", 2, 6, 1000.0);
  }

  // "₹1,234.50"

  lemma NoCommaInTail()
    ensures RemoveAll("234.50", ",") == "234.50"
  {
    RemoveAllFacts("234.50", ",");
  }

  lemma SignSplit()
    ensures "\U{20B9}1,234.50" == "\U{20B9}1" + ("," + "234.50")
    ensures "\U{20B9}1" + "234.50" == "\U{20B9}1234.50"
  {
  }

  lemma SignCommaRemoved()
    ensures RemoveAll("\U{20B9}1,234.50", ",") == "\U{20B9}1234.50"
  {
    SignSplit();
    RemoveAllSkip("\U{20B9}1", "," + "234.50", ",");
    RemoveAllHit("234.50", ",");
    NoCommaInTail();
  }

  lemma SignNoRs()
    ensures RemoveAll("\U{20B9}1234.50", "Rs") == "\U{20B9}1234.50"
  {
    RemoveAllFacts("\U{20B9}1234.50", "Rs");
  }

  lemma SignNoInr()
    ensures RemoveAll("\U{20B9}1234.50", "INR") == "\U{20B9}1234.50"
  {
    RemoveAllFacts("\U{20B9}1234.50", "INR");
  }

  lemma NoSignInTail()
    ensures RemoveAll("1234.50", "\U{20B9}") == "1234.50"
  {
    RemoveAllFacts("1234.50", "\U{20B9}");
  }

  lemma SignRemoved()
    ensures RemoveAll("\U{20B9}1234.50", "\U{20B9}") == "1234.50"
  {
    assert "\U{20B9}1234.50" == "\U{20B9}" + "1234.50";
    RemoveAllHit("1234.50", "\U{20B9}");
    NoSignInTail();
  }

  lemma DigitsStripped()
    ensures Strip("1234.50") == "1234.50"
  {
    assert StripStart("1234.50", 0) == 0;
    assert StripEnd("1234.50", 0, 7) == 7;
  }

  lemma SignCleaned()
    ensures Clean("\U{20B9}1,234.50") == "1234.50"
  {
    SignCommaRemoved();
    SignNoRs();
    SignNoInr();
    SignRemoved();
    DigitsStripped();
    CleanSteps("\U{20B9}1,234.50", "\U{20B9}1234.50", "\U{20B9}1234.50", "\U{20B9}1234.50", "1234.50");
  }

  lemma SignNumeralFound()
    ensures FindNumeral("1234.50", 0) == Some((0, 7))
  {
    assert DigitRunEnd("1234.50", 0) == 4;
    assert DigitRunEnd("1234.50", 5) == 7;
  }

  lemma SignIsNumeral()
    ensures IsUnsignedNumeral("1234.50") && IsNumeral("1234.50")
  {
    var w := "1234.50";
    assert w[..4] == "1234" && w[5..] == "50";
    assert AllDigits(w[..4]) && AllDigits(w[5..]);
  }

  lemma SignDotIndex()
    ensures DotIndex("1234.50") == 4
  {
    var w := "1234.50";
    assert w[1..] == "234.50" && w[1..][1..] == "34.50";
    assert w[1..][1..][1..] == "4.50" && w[1..][1..][1..][1..] == ".50";
  }

  lemma SignDigitValues()
    ensures DigitsValue("1234") == 1234 && DigitsValue("50") == 50
  {
    assert "1234"[..3] == "123" && "123"[..2] == "12" && "12"[..1] == "1" && "1"[..0] == "";
    assert "50"[..1] == "5" && "5"[..0] == "";
  }

  lemma SignNumeralValue()
    ensures IsNumeral("1234.50"[0..7]) && NumeralValue("1234.50"[0..7]) == 1234.5
  {
    var w := "1234.50";
    assert w[0..7] == w;
    SignIsNumeral();
    SignDotIndex();
    SignDigitValues();
    assert w[..4] == "1234" && w[5..] == "50";
    assert Pow10(2) == 100;
    assert UnsignedValue(w) == 1234.0 + 50.0 / 100.0;
  }

  /** `parse_amount("₹1,234.50") == 1234.5` */
  lemma RupeeSignWithFraction()
    ensures ParseAmount(Text("\U{20B9}1,234.50")) == 1234.5
  {
    SignCleaned();
    SignNumeralFound();
    SignNumeralValue();
    ParseFound("\U{20B9}1,234.50", "1234.50", 0, 7, 1234.5);
  }

  /** `parse_amount("garbage") == 0.0` */
  lemma TextWithoutNumeral()
    ensures ParseAmount(Text("garbage")) == 0.0
  {
    NoDigitParsesToZero("garbage");
  }
}
