/**
 * Amount normalisation: `parse_amount` turns a raw table cell into a number and
 * never fails. Text is cleaned (thousands separators and currency markers
 * deleted, white space stripped) and the leftmost signed decimal numeral in it,
 * in the sense of the pattern `[-+]?\d+(\.\d+)?`, gives the value.
 * Amounts are exact reals; floating-point rounding is not modelled.
 */
module Amounts {
  import opened Wrappers

  /** A raw cell as handed to `parse_amount`. */
  datatype Cell =
    | Missing            // None, or a NaN float: `pd.isna` holds
    | Num(value: real)   // an int, float or bool
    | Text(text: string) // any other value, by its `str()` rendering
    | Faulty             // a value whose NaN test or text rendering raises

  predicate IsDigit(c: char) { '0' <= c <= '9' }

  predicate IsSign(c: char) { c == '-' || c == '+' }

  /** The characters Python's `str.strip()` removes. */
  predicate IsSpace(c: char) {
    c == ' ' || '\t' <= c <= '\r' || '\U{1C}' <= c <= '\U{1F}' || c == '\U{85}' || c == '\U{A0}'
    || c == '\U{1680}' || '\U{2000}' <= c <= '\U{200A}' || c == '\U{2028}' || c == '\U{2029}'
    || c == '\U{202F}' || c == '\U{205F}' || c == '\U{3000}'
  }

  predicate AllDigits(w: string) {
    forall k :: 0 <= k < |w| ==> IsDigit(w[k])
  }

  // ---------------------------------------------------------------------------
  // Cleaning: `str.replace(pat, "")` and `str.strip()`

  /**
   * `s.replace(pat, "")`: one left-to-right pass that deletes non-overlapping
   * occurrences of `pat`. Deletion can join two halves into a new occurrence,
   * which stays (`"RRss"` becomes `"Rs"`).
   */
  function RemoveAll(s: string, pat: string): (r: string)
    requires pat != []
    ensures |r| <= |s|
    decreases |s|
  {
    if |s| < |pat| then s
    else if s[0] == pat[0] && s[..|pat|] == pat then RemoveAll(s[|pat|..], pat)
    else [s[0]] + RemoveAll(s[1..], pat)
  }

  /**
   * `replace` adds no character, leaves text without the pattern's first
   * character as it is, and removes every occurrence of a one-character pattern.
   */
  lemma {:induction false} RemoveAllFacts(s: string, pat: string)
    requires pat != []
    ensures forall c :: c in RemoveAll(s, pat) ==> c in s
    ensures (forall k :: 0 <= k < |s| ==> s[k] != pat[0]) ==> RemoveAll(s, pat) == s
    ensures |pat| == 1 ==> pat[0] !in RemoveAll(s, pat)
    decreases |s|
  {
    if |s| < |pat| {
    } else if s[0] == pat[0] && s[..|pat|] == pat {
      RemoveAllFacts(s[|pat|..], pat);
      forall c | c in s[|pat|..] ensures c in s {
        var k :| 0 <= k < |s[|pat|..]| && s[|pat|..][k] == c;
        assert s[k + |pat|] == c;
      }
    } else {
      RemoveAllFacts(s[1..], pat);
      assert s == [s[0]] + s[1..];
      if |pat| == 1 {
        assert s[..1] == [s[0]];
      }
    }
  }

  /** `s` with every `c` dropped and the rest kept in order. */
  function Without(s: string, c: char): (r: string)
    ensures c !in r
    decreases |s|
  {
    if s == [] then [] else if s[0] == c then Without(s[1..], c) else [s[0]] + Without(s[1..], c)
  }

  /** Replacing a one-character pattern drops that character and keeps the rest in order. */
  lemma {:induction false} RemoveOneChar(s: string, c: char)
    ensures RemoveAll(s, [c]) == Without(s, c)
    decreases |s|
  {
    if s != [] {
      RemoveOneChar(s[1..], c);
      assert s[..1] == [s[0]];
    }
  }

  /** `replace` keeps every character that is not in the pattern, as often as it occurs. */
  lemma {:induction false} RemoveAllCount(s: string, pat: string, c: char)
    requires pat != [] && c !in pat
    ensures multiset(RemoveAll(s, pat))[c] == multiset(s)[c]
    decreases |s|
  {
    if |s| < |pat| {
    } else if s[0] == pat[0] && s[..|pat|] == pat {
      RemoveAllCount(s[|pat|..], pat, c);
      assert s == s[..|pat|] + s[|pat|..];
    } else {
      RemoveAllCount(s[1..], pat, c);
      assert s == [s[0]] + s[1..];
    }
  }

  /** `r` can be obtained from `s` by deleting characters. */
  ghost predicate IsSubsequence(r: string, s: string)
    decreases |s|
  {
    r == [] || (s != [] && ((r[0] == s[0] && IsSubsequence(r[1..], s[1..])) || IsSubsequence(r, s[1..])))
  }

  lemma {:induction false} SubsequencePrepend(p: string, t: string, x: string)
    requires IsSubsequence(x, t)
    ensures IsSubsequence(x, p + t)
    decreases |p|
  {
    if p != [] {
      SubsequencePrepend(p[1..], t, x);
      assert (p + t)[1..] == p[1..] + t;
    } else {
      assert p + t == t;
    }
  }

  lemma {:induction false} SubsequencePrefix(w: string, j: nat)
    requires j <= |w|
    ensures IsSubsequence(w[..j], w)
    decreases |w|
  {
    if j > 0 {
      SubsequencePrefix(w[1..], j - 1);
      assert w[..j][1..] == w[1..][..j - 1];
    }
  }

  lemma {:induction false} SubsequenceTrans(a: string, b: string, c: string)
    requires IsSubsequence(a, b) && IsSubsequence(b, c)
    ensures IsSubsequence(a, c)
    decreases |c|
  {
    if a != [] {
      if IsSubsequence(b, c[1..]) {
        SubsequenceTrans(a, b, c[1..]);
      } else if a[0] == b[0] && IsSubsequence(a[1..], b[1..]) {
        SubsequenceTrans(a[1..], b[1..], c[1..]);
      } else {
        SubsequenceTrans(a, b[1..], c[1..]);
      }
    }
  }

  /** `replace` only deletes: what is left is the input's characters in their order. */
  lemma {:induction false} RemoveAllSubsequence(s: string, pat: string)
    requires pat != []
    ensures IsSubsequence(RemoveAll(s, pat), s)
    decreases |s|
  {
    if |s| < |pat| {
      SubsequencePrefix(s, |s|);
      assert s[..|s|] == s;
    } else if s[0] == pat[0] && s[..|pat|] == pat {
      RemoveAllSubsequence(s[|pat|..], pat);
      SubsequencePrepend(s[..|pat|], s[|pat|..], RemoveAll(s, pat));
      assert s == s[..|pat|] + s[|pat|..];
    } else {
      RemoveAllSubsequence(s[1..], pat);
    }
  }

  /** Index of the first non-space character at or after `i`. */
  function StripStart(s: string, i: nat): (k: nat)
    requires i <= |s|
    ensures i <= k <= |s|
    ensures forall m :: i <= m < k ==> IsSpace(s[m])
    ensures k == |s| || !IsSpace(s[k])
    decreases |s| - i
  {
    if i < |s| && IsSpace(s[i]) then StripStart(s, i + 1) else i
  }

  /** Index just past the last non-space character of `s[lo..j]`, or `lo`. */
  function StripEnd(s: string, lo: nat, j: nat): (k: nat)
    requires lo <= j <= |s|
    ensures lo <= k <= j
    ensures forall m :: k <= m < j ==> IsSpace(s[m])
    ensures k == lo || !IsSpace(s[k - 1])
    decreases j
  {
    if lo < j && IsSpace(s[j - 1]) then StripEnd(s, lo, j - 1) else j
  }

  /** `s.strip()`: the middle of `s` left after removing white space at both ends. */
  function Strip(s: string): (r: string)
    ensures var i := StripStart(s, 0);
      && i + |r| <= |s| && r == s[i..i + |r|]
      && forall k :: i + |r| <= k < |s| ==> IsSpace(s[k])
    ensures r != [] ==> !IsSpace(r[0]) && !IsSpace(r[|r| - 1])
  {
    var i := StripStart(s, 0);
    var j := StripEnd(s, i, |s|);
    assert forall k :: j <= k < |s| ==> IsSpace(s[k]);
    s[i..j]
  }

  /** The text after `.replace(",", "").replace("Rs", "").replace("INR", "").replace("₹", "").strip()`. */
  function Clean(s: string): (r: string)
    ensures |r| <= |s|
    ensures forall x :: x in r ==> x in s
    ensures ',' !in r && '\U{20B9}' !in r
  {
    var a := RemoveAll(s, ",");
    var b := RemoveAll(a, "Rs");
    var c := RemoveAll(b, "INR");
    var d := RemoveAll(c, "\U{20B9}");
    RemoveAllFacts(s, ",");
    RemoveAllFacts(a, "Rs");
    RemoveAllFacts(b, "INR");
    RemoveAllFacts(c, "\U{20B9}");
    var r := Strip(d);
    assert forall x :: x in r ==> x in d;
    r
  }

  /** `strip()` keeps every character that is not white space, as often as it occurs. */
  lemma StripCount(s: string, c: char)
    requires !IsSpace(c)
    ensures multiset(Strip(s))[c] == multiset(s)[c]
  {
    var i := StripStart(s, 0);
    var r := Strip(s);
    var j := i + |r|;
    assert s == s[..i] + r + s[j..];
    assert c !in s[..i] && c !in s[j..];
  }

  /** Cleaning keeps every character other than white space and the letters of the four markers. */
  lemma CleanKeeps(s: string, c: char)
    requires !IsSpace(c) && c != ',' && c != 'R' && c != 's' && c != 'I' && c != 'N' && c != '\U{20B9}'
    ensures multiset(Clean(s))[c] == multiset(s)[c]
  {
    var a := RemoveAll(s, ",");
    var b := RemoveAll(a, "Rs");
    var d := RemoveAll(b, "INR");
    RemoveAllCount(s, ",", c);
    RemoveAllCount(a, "Rs", c);
    RemoveAllCount(b, "INR", c);
    RemoveAllCount(d, "\U{20B9}", c);
    StripCount(RemoveAll(d, "\U{20B9}"), c);
  }

  /** Cleaning is the four replacements in source order, then `strip()`. */
  lemma CleanSteps(s: string, a: string, b: string, c: string, d: string)
    requires RemoveAll(s, ",") == a && RemoveAll(a, "Rs") == b
    requires RemoveAll(b, "INR") == c && RemoveAll(c, "\U{20B9}") == d
    ensures Clean(s) == Strip(d)
  {
  }

  /** `strip()` only deletes. */
  lemma StripSubsequence(d: string)
    ensures IsSubsequence(Strip(d), d)
  {
    var i := StripStart(d, 0);
    var r := Strip(d);
    SubsequencePrefix(d[i..], |r|);
    assert d[i..][..|r|] == r;
    SubsequencePrepend(d[..i], d[i..], r);
    assert d == d[..i] + d[i..];
  }

  lemma SubsequenceChain(r: string, d: string, c: string, b: string, a: string, s: string)
    requires IsSubsequence(r, d) && IsSubsequence(d, c) && IsSubsequence(c, b)
    requires IsSubsequence(b, a) && IsSubsequence(a, s)
    ensures IsSubsequence(r, s)
  {
    SubsequenceTrans(r, d, c);
    SubsequenceTrans(r, c, b);
    SubsequenceTrans(r, b, a);
    SubsequenceTrans(r, a, s);
  }

  /** Cleaning only deletes: the cleaned text is the input's characters in their order. */
  lemma CleanSubsequence(s: string)
    ensures IsSubsequence(Clean(s), s)
  {
    var a := RemoveAll(s, ",");
    var b := RemoveAll(a, "Rs");
    var c := RemoveAll(b, "INR");
    var d := RemoveAll(c, "\U{20B9}");
    CleanSteps(s, a, b, c, d);
    RemoveAllSubsequence(s, ",");
    RemoveAllSubsequence(a, "Rs");
    RemoveAllSubsequence(b, "INR");
    RemoveAllSubsequence(c, "\U{20B9}");
    StripSubsequence(d);
    SubsequenceChain(Strip(d), d, c, b, a, s);
  }

  /** On text without `R` and `I`, cleaning drops the commas and rupee signs and strips the rest. */
  lemma CleanPlain(s: string)
    requires forall k :: 0 <= k < |s| ==> s[k] != 'R' && s[k] != 'I'
    ensures Clean(s) == Strip(Without(Without(s, ','), '\U{20B9}'))
  {
    var a := RemoveAll(s, ",");
    RemoveOneChar(s, ',');
    RemoveAllFacts(s, ",");
    assert forall k :: 0 <= k < |a| ==> a[k] != 'R' && a[k] != 'I' by {
      forall k | 0 <= k < |a| ensures a[k] != 'R' && a[k] != 'I' {
        assert a[k] in a;
      }
    }
    RemoveAllFacts(a, "Rs");
    RemoveAllFacts(a, "INR");
    RemoveOneChar(a, '\U{20B9}');
    CleanSteps(s, a, a, a, Without(a, '\U{20B9}'));
  }

  // ---------------------------------------------------------------------------
  // The pattern `[-+]?\d+(\.\d+)?`, stated as a language

  /** `w` is in the language of `\d+(\.\d+)?`. */
  ghost predicate IsUnsignedNumeral(w: string) {
    (|w| > 0 && AllDigits(w))
    || exists k :: 0 < k < |w| - 1 && w[k] == '.' && AllDigits(w[..k]) && AllDigits(w[k + 1..])
  }

  /** `w` is in the language of `[-+]?\d+(\.\d+)?`. */
  ghost predicate IsNumeral(w: string) {
    IsUnsignedNumeral(w) || (|w| > 0 && IsSign(w[0]) && IsUnsignedNumeral(w[1..]))
  }

  /** No substring of `t` is a numeral: `re.search` finds nothing. */
  ghost predicate NoNumeralIn(t: string) {
    forall i, j :: 0 <= i <= j <= |t| ==> !IsNumeral(t[i..j])
  }

  /**
   * `t[i..j]` is what `re.search` returns: the match that starts leftmost and,
   * at that start, the one greedy matching yields, which for this pattern is
   * the longest.
   */
  ghost predicate LeftmostLongest(t: string, i: nat, j: nat) {
    && i <= j <= |t|
    && IsNumeral(t[i..j])
    && (forall a, b :: 0 <= a < i && a <= b <= |t| ==> !IsNumeral(t[a..b]))
    && (forall b :: j < b <= |t| ==> !IsNumeral(t[i..b]))
  }

  lemma LeftmostLongestUnique(t: string, i: nat, j: nat, i': nat, j': nat)
    requires LeftmostLongest(t, i, j) && LeftmostLongest(t, i', j')
    ensures i == i' && j == j'
  {
  }

  // ---------------------------------------------------------------------------
  // The scanner

  /** End of the maximal run of digits that starts at `k`. */
  function DigitRunEnd(t: string, k: nat): (e: nat)
    requires k <= |t|
    ensures k <= e <= |t|
    ensures forall m :: k <= m < e ==> IsDigit(t[m])
    ensures e == |t| || !IsDigit(t[e])
    decreases |t| - k
  {
    if k < |t| && IsDigit(t[k]) then DigitRunEnd(t, k + 1) else k
  }

  /**
   * Greedy end of `\d+(\.\d+)?` matched at `d`, if it matches there: it
   * matches exactly when a digit stands at `d`, and the match ends in a digit.
   */
  function UnsignedEnd(t: string, d: nat): (r: Option<nat>)
    requires d <= |t|
    ensures r.Some? <==> d < |t| && IsDigit(t[d])
    ensures r.Some? ==> d < r.value <= |t| && IsDigit(t[r.value - 1])
  {
    if d < |t| && IsDigit(t[d]) then
      var e := DigitRunEnd(t, d);
      if e + 1 < |t| && t[e] == '.' && IsDigit(t[e + 1]) then Some(DigitRunEnd(t, e + 1)) else Some(e)
    else None
  }

  /**
   * Greedy end of `[-+]?\d+(\.\d+)?` matched at `i`: a sign is taken when
   * digits follow it. It matches exactly when a digit, or a sign and a digit,
   * stand at `i`, and the match ends in a digit.
   */
  function NumeralEnd(t: string, i: nat): (r: Option<nat>)
    requires i <= |t|
    ensures r.Some? <==> (i < |t| && IsDigit(t[i])) || (i + 1 < |t| && IsSign(t[i]) && IsDigit(t[i + 1]))
    ensures r.Some? ==> i < r.value <= |t| && IsDigit(t[r.value - 1])
  {
    if i < |t| && IsSign(t[i]) && UnsignedEnd(t, i + 1).Some? then UnsignedEnd(t, i + 1)
    else UnsignedEnd(t, i)
  }

  /**
   * `re.search` from position `i`: the first start with a match, and the
   * match's end. It finds nothing exactly when no digit follows `i`, and a
   * match it finds is non-empty and ends in a digit.
   */
  function FindNumeral(t: string, i: nat): (r: Option<(nat, nat)>)
    requires i <= |t|
    ensures r.None? <==> forall k :: i <= k < |t| ==> !IsDigit(t[k])
    ensures r.Some? ==> i <= r.value.0 < r.value.1 <= |t| && IsDigit(t[r.value.1 - 1])
    decreases |t| - i
  {
    match NumeralEnd(t, i)
    case Some(e) => Some((i, e))
    case None => if i == |t| then None else FindNumeral(t, i + 1)
  }

  lemma UnsignedStartsWithDigit(w: string)
    requires IsUnsignedNumeral(w)
    ensures |w| > 0 && IsDigit(w[0])
  {
    if !(|w| > 0 && AllDigits(w)) {
      var k :| 0 < k < |w| - 1 && w[k] == '.' && AllDigits(w[..k]) && AllDigits(w[k + 1..]);
      assert w[..k][0] == w[0];
    }
  }

  /** A '.' after a run of digits from `d` sits exactly where that run ends. */
  lemma DotEndsRun(t: string, d: nat, k: nat)
    requires d + k < |t| && t[d + k] == '.'
    requires forall m :: d <= m < d + k ==> IsDigit(t[m])
    ensures d + k == DigitRunEnd(t, d)
  {
  }

  /** The characters of a slice of digits are digits of the whole text. */
  lemma SliceDigits(t: string, i: nat, j: nat)
    requires i <= j <= |t| && AllDigits(t[i..j])
    ensures forall m :: i <= m < j ==> IsDigit(t[m])
  {
    forall m | i <= m < j ensures IsDigit(t[m]) {
      assert t[i..j][m - i] == t[m];
    }
  }

  /** A run of digits from `d` to `b` lies within the maximal run from `d`. */
  lemma RunWithin(t: string, d: nat, b: nat)
    requires d <= b <= |t| && forall m :: d <= m < b ==> IsDigit(t[m])
    ensures b <= DigitRunEnd(t, d)
  {
  }

  /** Facts about a numeral `t[d..b]` that starts at `d`. */
  lemma UnsignedShape(t: string, d: nat, b: nat)
    requires d <= b <= |t| && IsUnsignedNumeral(t[d..b])
    ensures d < DigitRunEnd(t, d)
    ensures || b <= DigitRunEnd(t, d)
            || (&& DigitRunEnd(t, d) + 1 < b && t[DigitRunEnd(t, d)] == '.' && IsDigit(t[DigitRunEnd(t, d) + 1])
                && b <= DigitRunEnd(t, DigitRunEnd(t, d) + 1))
  {
    var w := t[d..b];
    if |w| > 0 && AllDigits(w) {
      SliceDigits(t, d, b);
      RunWithin(t, d, b);
    } else {
      var k :| 0 < k < |w| - 1 && w[k] == '.' && AllDigits(w[..k]) && AllDigits(w[k + 1..]);
      DottedWhole(t, d, b, k);
    }
  }

  lemma DottedWhole(t: string, d: nat, b: nat, k: nat)
    requires d <= b <= |t| && 0 < k < b - d - 1
    requires t[d..b][k] == '.' && AllDigits(t[d..b][..k]) && AllDigits(t[d..b][k + 1..])
    ensures d < DigitRunEnd(t, d) && DigitRunEnd(t, d) + 1 < b && t[DigitRunEnd(t, d)] == '.'
    ensures IsDigit(t[DigitRunEnd(t, d) + 1]) && b <= DigitRunEnd(t, DigitRunEnd(t, d) + 1)
  {
    DottedParts(t, d, b, k);
    DottedShape(t, d, b, k);
  }

  /** The two digit runs and the dot of a numeral `t[d..b]` with its dot at offset `k`. */
  lemma DottedParts(t: string, d: nat, b: nat, k: nat)
    requires d <= b <= |t| && 0 < k < b - d - 1
    requires t[d..b][k] == '.' && AllDigits(t[d..b][..k]) && AllDigits(t[d..b][k + 1..])
    ensures t[d + k] == '.'
    ensures forall m :: d <= m < d + k ==> IsDigit(t[m])
    ensures forall m :: d + k + 1 <= m < b ==> IsDigit(t[m])
  {
    assert t[d..b][..k] == t[d..d + k];
    assert t[d..b][k + 1..] == t[d + k + 1..b];
    SliceDigits(t, d, d + k);
    SliceDigits(t, d + k + 1, b);
  }

  lemma DottedShape(t: string, d: nat, b: nat, k: nat)
    requires d + k + 1 < b <= |t| && 0 < k && t[d + k] == '.'
    requires forall m :: d <= m < d + k ==> IsDigit(t[m])
    requires forall m :: d + k + 1 <= m < b ==> IsDigit(t[m])
    ensures d < DigitRunEnd(t, d) == d + k
    ensures t[d + k + 1] != '.' && IsDigit(t[d + k + 1]) && b <= DigitRunEnd(t, d + k + 1)
  {
    DotEndsRun(t, d, k);
    RunWithin(t, d + k + 1, b);
  }

  /** A stretch of digits, taken as a slice, is all digits. */
  lemma DigitsSlice(t: string, i: nat, j: nat)
    requires i <= j <= |t| && forall m :: i <= m < j ==> IsDigit(t[m])
    ensures AllDigits(t[i..j])
  {
    forall k | 0 <= k < j - i ensures IsDigit(t[i..j][k]) {
      assert t[i..j][k] == t[i + k];
    }
  }

  lemma {:induction false} UnsignedEndSpec(t: string, d: nat)
    requires d <= |t|
    ensures UnsignedEnd(t, d).None? ==> forall b :: d <= b <= |t| ==> !IsUnsignedNumeral(t[d..b])
    ensures UnsignedEnd(t, d).Some? ==>
      var e := UnsignedEnd(t, d).value;
      && d < e <= |t|
      && IsUnsignedNumeral(t[d..e])
      && forall b :: e < b <= |t| ==> !IsUnsignedNumeral(t[d..b])
  {
    forall b | d <= b <= |t| && IsUnsignedNumeral(t[d..b])
      ensures UnsignedEnd(t, d).Some? && b <= UnsignedEnd(t, d).value
    {
      UnsignedShape(t, d, b);
    }
    if UnsignedEnd(t, d).Some? {
      var e0 := DigitRunEnd(t, d);
      var e := UnsignedEnd(t, d).value;
      var w := t[d..e];
      DigitsSlice(t, d, e0);
      if e == e0 {
        assert AllDigits(w);
      } else {
        var k := e0 - d;
        DigitsSlice(t, e0 + 1, e);
        assert w[..k] == t[d..e0];
        assert w[k + 1..] == t[e0 + 1..e];
        assert 0 < k < |w| - 1 && w[k] == '.' && AllDigits(w[..k]) && AllDigits(w[k + 1..]);
      }
    }
  }

  lemma {:induction false} NumeralEndSpec(t: string, i: nat)
    requires i <= |t|
    ensures NumeralEnd(t, i).None? ==> forall b :: i <= b <= |t| ==> !IsNumeral(t[i..b])
    ensures NumeralEnd(t, i).Some? ==>
      var e := NumeralEnd(t, i).value;
      && i < e <= |t|
      && IsNumeral(t[i..e])
      && forall b :: e < b <= |t| ==> !IsNumeral(t[i..b])
  {
    UnsignedEndSpec(t, i);
    if i < |t| {
      UnsignedEndSpec(t, i + 1);
    }
    forall b | i <= b <= |t| && IsNumeral(t[i..b])
      ensures NumeralEnd(t, i).Some? && b <= NumeralEnd(t, i).value
    {
      if IsUnsignedNumeral(t[i..b]) {
        UnsignedStartsWithDigit(t[i..b]);
        assert t[i..b][0] == t[i];
      } else {
        assert t[i..b][1..] == t[i + 1..b];
      }
    }
    if i < |t| && IsSign(t[i]) && UnsignedEnd(t, i + 1).Some? {
      var e := UnsignedEnd(t, i + 1).value;
      assert t[i..e][1..] == t[i + 1..e];
    }
  }

  lemma {:induction false} FindNumeralSpec(t: string, i: nat)
    requires i <= |t|
    ensures FindNumeral(t, i).None? ==> forall a, b :: i <= a <= b <= |t| ==> !IsNumeral(t[a..b])
    ensures FindNumeral(t, i).Some? ==>
      var (a, e) := FindNumeral(t, i).value;
      && i <= a <= e <= |t|
      && IsNumeral(t[a..e])
      && (forall b :: e < b <= |t| ==> !IsNumeral(t[a..b]))
      && (forall a', b :: i <= a' < a && a' <= b <= |t| ==> !IsNumeral(t[a'..b]))
    decreases |t| - i
  {
    NumeralEndSpec(t, i);
    match NumeralEnd(t, i)
    case Some(e) =>
      assert FindNumeral(t, i) == Some((i, e));
    case None =>
      if i < |t| {
        FindNumeralSpec(t, i + 1);
        assert FindNumeral(t, i) == FindNumeral(t, i + 1);
        match FindNumeral(t, i + 1)
        case None => NoNumeralFrom(t, i, |t| + 1);
        case Some(m) => NoNumeralFrom(t, i, m.0);
      }
  }

  /** No numeral starts at `i`, nor anywhere in `i + 1 .. a - 1`: so none starts in `i .. a - 1`. */
  lemma NoNumeralFrom(t: string, i: nat, a: nat)
    requires i < |t|
    requires forall b :: i <= b <= |t| ==> !IsNumeral(t[i..b])
    requires forall a', b :: i + 1 <= a' < a && a' <= b <= |t| ==> !IsNumeral(t[a'..b])
    ensures forall a', b :: i <= a' < a && a' <= b <= |t| ==> !IsNumeral(t[a'..b])
  {
  }

  // ---------------------------------------------------------------------------
  // Values

  function DigitValue(c: char): int { (c as int) - ('0' as int) }

  /** The number a string of decimal digits denotes (most significant first). */
  function DigitsValue(w: string): nat
    requires AllDigits(w)
  {
    if w == [] then 0 else DigitsValue(w[..|w| - 1]) * 10 + DigitValue(w[|w| - 1])
  }

  function Pow10(n: nat): (r: nat)
    ensures r > 0
  {
    if n == 0 then 1 else 10 * Pow10(n - 1)
  }

  /** Position of the first '.' in `w`, or `|w|`. */
  function DotIndex(w: string): (k: nat)
    ensures k <= |w|
    ensures forall m :: 0 <= m < k ==> w[m] != '.'
    ensures k < |w| ==> w[k] == '.'
  {
    if w == [] || w[0] == '.' then 0 else 1 + DotIndex(w[1..])
  }

  /** A number written with `n` digits is below `10^n`. */
  lemma {:induction false} DigitsBelow(w: string)
    requires AllDigits(w)
    ensures DigitsValue(w) < Pow10(|w|)
  {
    if w != [] {
      DigitsBelow(w[..|w| - 1]);
    }
  }

  /** An integer part below `q` plus a proper fraction `x / p` stays below `q`. */
  lemma FractionBelow(a: nat, x: nat, p: nat, q: nat)
    requires a < q && x < p
    ensures 0.0 <= a as real + x as real / p as real < q as real
  {
    assert x as real / p as real < 1.0 by {
      assert (x as real / p as real) * p as real == x as real;
    }
  }

  /**
   * `float(w)` for `w` matching `\d+(\.\d+)?`, as an exact real: never
   * negative, and below ten to the number of digits before the dot.
   */
  function UnsignedValue(w: string): (r: real)
    requires IsUnsignedNumeral(w)
    ensures 0.0 <= r < Pow10(DotIndex(w)) as real
  {
    var k := DotIndex(w);
    UnsignedParts(w);
    DigitsBelow(w[..k]);
    if k < |w| then
      var f := w[k + 1..];
      DigitsBelow(f);
      FractionBelow(DigitsValue(w[..k]), DigitsValue(f), Pow10(|f|), Pow10(k));
      DigitsValue(w[..k]) as real + DigitsValue(f) as real / Pow10(|f|) as real
    else
      assert w[..k] == w;
      DigitsValue(w) as real
  }

  lemma UnsignedParts(w: string)
    requires IsUnsignedNumeral(w)
    ensures var k := DotIndex(w);
      AllDigits(w[..k]) && (k < |w| ==> AllDigits(w[k + 1..])) && (k == |w| ==> AllDigits(w))
  {
    var k := DotIndex(w);
    if !AllDigits(w) {
      var j :| 0 < j < |w| - 1 && w[j] == '.' && AllDigits(w[..j]) && AllDigits(w[j + 1..]);
      forall m | 0 <= m < j ensures w[m] != '.' {
        assert w[..j][m] == w[m];
      }
    }
  }

  /** `float(w)` for `w` matching `[-+]?\d+(\.\d+)?`: negative only with a leading minus, never positive with one. */
  function NumeralValue(w: string): (r: real)
    requires IsNumeral(w)
    ensures r < 0.0 ==> w[0] == '-'
    ensures w[0] == '-' ==> r <= 0.0
  {
    if IsSign(w[0]) then
      assert IsUnsignedNumeral(w[1..]) by {
        if IsUnsignedNumeral(w) { UnsignedStartsWithDigit(w); }
      }
      if w[0] == '-' then -UnsignedValue(w[1..]) else UnsignedValue(w[1..])
    else
      assert IsUnsignedNumeral(w);
      UnsignedValue(w)
  }

  // ---------------------------------------------------------------------------
  // parse_amount

  /**
   * `parse_amount`: total; missing, NaN and failing cells give 0, numbers
   * give themselves, and text gives the value of the leftmost numeral of its
   * cleaned form, or 0 when there is none (`ParseAmountText`).
   */
  function ParseAmount(c: Cell): (r: real)
    ensures c.Missing? || c.Faulty? ==> r == 0.0
    ensures c.Num? ==> r == c.value
  {
    match c
    case Missing => 0.0
    case Faulty => 0.0
    case Num(v) => v
    case Text(s) =>
      var t := Clean(s);
      FindNumeralSpec(t, 0);
      match FindNumeral(t, 0)
      case None => 0.0
      case Some(m) => NumeralValue(t[m.0..m.1])
  }

  /** Text whose cleaned form `t` has its first numeral at `t[i..e]` parses to that numeral's value. */
  lemma ParseFound(s: string, t: string, i: nat, e: nat, v: real)
    requires Clean(s) == t && i <= e <= |t| && FindNumeral(t, 0) == Some((i, e))
    requires IsNumeral(t[i..e]) && NumeralValue(t[i..e]) == v
    ensures ParseAmount(Text(s)) == v
  {
  }

  /** Text parses to the value of the leftmost-longest numeral of its cleaned form, or to 0 without one. */
  lemma ParseAmountText(s: string)
    ensures || (NoNumeralIn(Clean(s)) && ParseAmount(Text(s)) == 0.0)
            || exists i: nat, j: nat :: LeftmostLongest(Clean(s), i, j) && ParseAmount(Text(s)) == NumeralValue(Clean(s)[i..j])
  {
    var t := Clean(s);
    FindNumeralSpec(t, 0);
    match FindNumeral(t, 0)
    case None =>
      assert NoNumeralIn(t);
    case Some(m) =>
      assert LeftmostLongest(t, m.0, m.1);
      ParseFound(s, t, m.0, m.1, NumeralValue(t[m.0..m.1]));
  }

  /** Text without a single digit holds no numeral, so it parses to 0. */
  lemma NoDigitParsesToZero(s: string)
    requires forall k :: 0 <= k < |s| ==> !IsDigit(s[k])
    ensures ParseAmount(Text(s)) == 0.0
  {
    var t := Clean(s);
    forall k | 0 <= k < |t| ensures !IsDigit(t[k]) {
      assert t[k] in s;
    }
    assert FindNumeral(t, 0).None?;
  }

  /** On numbers `parse_amount` is the identity, so applying it again changes nothing. */
  lemma ParseAmountIdempotent(c: Cell)
    ensures ParseAmount(Num(ParseAmount(c))) == ParseAmount(c)
  {
  }

  /** A column of parsed amounts, or all zeros when the column is absent. */
  function ParseColumn(n: nat, cells: Option<seq<Cell>>): (r: seq<real>)
    requires cells.Some? ==> |cells.value| == n
    ensures |r| == n
    ensures forall k :: 0 <= k < n ==> r[k] == if cells.Some? then ParseAmount(cells.value[k]) else 0.0
  {
    if cells.Some? then seq(n, k requires 0 <= k < n => ParseAmount(cells.value[k]))
    else seq(n, k => 0.0)
  }

  /** Distance between amounts. */
  function Abs(x: real): real { if x < 0.0 then -x else x }

  // ---------------------------------------------------------------------------
  // Decimal rendering of row positions (`index.astype(str)`)

  function DigitChar(d: nat): (c: char)
    requires d < 10
    ensures IsDigit(c) && DigitValue(c) == d
  {
    ('0' as int + d) as char
  }

  /** `str(n)` for a natural number: its decimal digits, without leading zeros. */
  function DecimalString(n: nat): (s: string)
    ensures |s| > 0 && AllDigits(s)
    ensures s[0] == '0' <==> n == 0
  {
    if n < 10 then [DigitChar(n)] else DecimalString(n / 10) + [DigitChar(n % 10)]
  }

  lemma {:induction false} DecimalStringValue(n: nat)
    ensures DigitsValue(DecimalString(n)) == n
  {
    var s := DecimalString(n);
    if n >= 10 {
      DecimalStringValue(n / 10);
      assert s[..|s| - 1] == DecimalString(n / 10);
    } else {
      assert s[..|s| - 1] == [];
    }
  }

  /** Distinct row positions render to distinct identifiers. */
  lemma DecimalStringInjective(m: nat, n: nat)
    requires DecimalString(m) == DecimalString(n)
    ensures m == n
  {
    DecimalStringValue(m);
    DecimalStringValue(n);
  }

  /** Parsing the decimal rendering of a natural number gives that number back. */
  lemma ParseDecimalString(n: nat)
    ensures ParseAmount(Text(DecimalString(n))) == n as real
  {
    var s := DecimalString(n);
    CleanDigits(s);
    FindDigits(s);
    DigitsNumeralValue(s);
    DecimalStringValue(n);
    assert s[0..|s|] == s;
    ParseFound(s, s, 0, |s|, n as real);
  }

  lemma CleanDigits(s: string)
    requires |s| > 0 && AllDigits(s)
    ensures Clean(s) == s
  {
    RemoveAllFacts(s, ",");
    RemoveAllFacts(s, "Rs");
    RemoveAllFacts(s, "INR");
    RemoveAllFacts(s, "\U{20B9}");
    assert RemoveAll(s, ",") == s;
    assert RemoveAll(s, "Rs") == s;
    assert RemoveAll(s, "INR") == s;
    assert RemoveAll(s, "\U{20B9}") == s;
    assert StripStart(s, 0) == 0;
    assert StripEnd(s, 0, |s|) == |s|;
  }

  lemma FindDigits(s: string)
    requires |s| > 0 && AllDigits(s)
    ensures FindNumeral(s, 0) == Some((0, |s|))
  {
    assert DigitRunEnd(s, 0) == |s|;
  }

  lemma DigitsNumeralValue(s: string)
    requires |s| > 0 && AllDigits(s)
    ensures IsNumeral(s) && NumeralValue(s) == DigitsValue(s) as real
  {
    assert DotIndex(s) == |s|;
  }
}
