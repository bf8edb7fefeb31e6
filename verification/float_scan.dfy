/** Python 2's `float()` on a string, run the way CPython runs it rather than
    read off a grammar: skip leading whitespace, let `strtod` convert the
    longest prefix it can (an optional sign, then a decimal literal, or else
    `inf`, `infinity` or `nan` in any letter case), skip trailing whitespace,
    and accept only when something was converted and the end of the string
    was reached. Positions index into the one string, as the C code walks
    one buffer. `AcceptsIffFloatLiteral` proves that the scanner accepts
    exactly the strings of the grammar `FloatSyntax.IsFloatLiteral`. */
module FloatScan {
  import opened Ascii
  import FloatSyntax

  /** The first position at or after `i` that is not whitespace. */
  function SkipSpaces(s: string, i: nat): (r: nat)
    requires i <= |s|
    ensures i <= r <= |s|
    ensures forall j :: i <= j < r ==> IsSpace(s[j])
    ensures r < |s| ==> !IsSpace(s[r])
    decreases |s| - i
  {
    if i < |s| && IsSpace(s[i]) then SkipSpaces(s, i + 1) else i
  }

  /** The first position at or after `i` that is not a digit. */
  function SkipDigits(s: string, i: nat): (r: nat)
    requires i <= |s|
    ensures i <= r <= |s|
    ensures forall j :: i <= j < r ==> IsDigit(s[j])
    ensures r < |s| ==> !IsDigit(s[r])
    decreases |s| - i
  {
    if i < |s| && IsDigit(s[i]) then SkipDigits(s, i + 1) else i
  }

  /** Past one `+` or `-` at `i`, if there is one. */
  function SkipSign(s: string, i: nat): nat
    requires i <= |s|
  {
    if i < |s| && (s[i] == '+' || s[i] == '-') then i + 1 else i
  }

  /** After a mantissa ending at `m`: past `e` or `E`, an optional sign and
      at least one digit; an exponent without digits is not consumed. */
  function ExponentEnd(s: string, m: nat): (r: nat)
    requires m <= |s|
    ensures m <= r <= |s|
    ensures forall j :: m <= j < r ==> FloatSyntax.IsDecimalChar(s[j])
  {
    if m < |s| && (s[m] == 'e' || s[m] == 'E') then
      var k := SkipSign(s, m + 1);
      var d := SkipDigits(s, k);
      if d > k then d else m
    else m
  }

  /** The end of the decimal literal `strtod` reads from `i` (after the
      sign): digits, optionally a point and more digits, at least one digit
      in all, then an optional exponent. `i` itself when there is no digit. */
  function DecimalEnd(s: string, i: nat): (r: nat)
    requires i <= |s|
    ensures i <= r <= |s|
    ensures forall j :: i <= j < r ==> FloatSyntax.IsDecimalChar(s[j])
  {
    var a := SkipDigits(s, i);
    var m := if a < |s| && s[a] == '.' then SkipDigits(s, a + 1) else a;
    if a == i && m <= a + 1 then i else ExponentEnd(s, m)
  }

  /** `w` (lower case) starts at `i`, in any letter case. */
  predicate MatchFold(s: string, i: nat, w: string) {
    i + |w| <= |s| && LowerString(s[i..i + |w|]) == w
  }

  /** The end of `inf`, `infinity` or `nan` read from `i`, ignoring case;
      `i` itself when none is there. `infinity` is read whole when present. */
  function InfNanEnd(s: string, i: nat): (r: nat)
    requires i <= |s|
    ensures i <= r <= |s|
    ensures r > i ==> !IsSpace(s[r - 1])
  {
    if MatchFold(s, i, "inf") then
      if MatchFold(s, i + 3, "inity") then
        assert Lower(s[i + 7]) == LowerString(s[i + 3..i + 8])[4] == 'y';
        i + 8
      else
        assert Lower(s[i + 2]) == LowerString(s[i..i + 3])[2] == 'f';
        i + 3
    else if MatchFold(s, i, "nan") then
      assert Lower(s[i + 2]) == LowerString(s[i..i + 3])[2] == 'n';
      i + 3
    else i
  }

  /** `strtod` from `i`: an optional sign, then a decimal literal or else
      `inf`/`infinity`/`nan`. The end of what was converted, or `i` when
      nothing was (the sign alone is not consumed). */
  function StrToD(s: string, i: nat): (r: nat)
    requires i <= |s|
    ensures i <= r <= |s|
    ensures r > i ==> !IsSpace(s[r - 1])
  {
    var k := SkipSign(s, i);
    var d := DecimalEnd(s, k);
    if d > k then d
    else
      var f := InfNanEnd(s, k);
      if f > k then f else i
  }

  /** `float(s)` returns instead of raising `ValueError`. */
  predicate Accepts(s: string) {
    var start := SkipSpaces(s, 0);
    var e := StrToD(s, start);
    e > start && SkipSpaces(s, e) == |s|
  }

  // ---------------------------------------------------------------------
  // The scanner accepts exactly the grammar

  lemma SkipSpacesIs(s: string, i: nat, r: nat)
    requires i <= r <= |s|
    requires forall j :: i <= j < r ==> IsSpace(s[j])
    requires r < |s| ==> !IsSpace(s[r])
    ensures SkipSpaces(s, i) == r
  {
  }

  lemma SkipDigitsIs(s: string, i: nat, r: nat)
    requires i <= r <= |s|
    requires forall j :: i <= j < r ==> IsDigit(s[j])
    requires r < |s| ==> !IsDigit(s[r])
    ensures SkipDigits(s, i) == r
  {
  }

  lemma IndexOfIs(u: string, c: char, d: char, i: nat)
    requires i <= |u|
    requires i < |u| ==> u[i] == c || u[i] == d
    requires forall j :: 0 <= j < i ==> u[j] != c && u[j] != d
    ensures FloatSyntax.IndexOf(u, c, d) == i
  {
  }

  lemma SliceDigits(s: string, i: nat, r: nat)
    requires i <= r <= |s| && AllDigits(s[i..r])
    ensures forall j :: i <= j < r ==> IsDigit(s[j])
  {
    forall j | i <= j < r ensures IsDigit(s[j]) {
      assert s[i..r][j - i] == s[j];
    }
  }

  /** The mantissa the scanner reads from `k` to `m` is one of the grammar's. */
  lemma MantissaSound(s: string, k: nat, a: nat, m: nat)
    requires k <= |s| && a == SkipDigits(s, k)
    requires m == if a < |s| && s[a] == '.' then SkipDigits(s, a + 1) else a
    requires !(a == k && m <= a + 1)
    ensures FloatSyntax.IsMantissa(s[k..m])
    ensures forall j :: k <= j < m ==> s[j] != 'e' && s[j] != 'E'
  {
    var mm := s[k..m];
    if a < |s| && s[a] == '.' {
      IndexOfIs(mm, '.', '.', a - k);
      assert mm[..a - k] == s[k..a];
      assert mm[a - k + 1..] == s[a + 1..m];
    } else {
      IndexOfIs(mm, '.', '.', |mm|);
      assert mm[..|mm|] == s[k..a];
    }
  }

  /** A mantissa from `k` to `m`, then the end at `r` or `e`/`E` and an
      exponent up to `r`, is a decimal literal. */
  lemma DecimalAt(s: string, k: nat, m: nat, r: nat)
    requires k <= m <= r <= |s| && forall j :: k <= j < m ==> s[j] != 'e' && s[j] != 'E'
    requires FloatSyntax.IsMantissa(s[k..m])
    requires m < r ==> (s[m] == 'e' || s[m] == 'E') && FloatSyntax.IsExponent(s[m + 1..r])
    ensures FloatSyntax.IsDecimal(s[k..r])
  {
    var u := s[k..r];
    assert u[..m - k] == s[k..m];
    if m < r {
      assert u[m - k + 1..] == s[m + 1..r];
    }
    IndexOfIs(u, 'e', 'E', m - k);
  }

  /** What the scanner reads as an exponent is one. */
  lemma ExponentSound(s: string, m: nat)
    requires m <= |s| && ExponentEnd(s, m) > m
    ensures s[m] == 'e' || s[m] == 'E'
    ensures FloatSyntax.IsExponent(s[m + 1..ExponentEnd(s, m)])
  {
    var q := SkipSign(s, m + 1);
    var r := ExponentEnd(s, m);
    var y := FloatSyntax.DropSign(s[m + 1..r]);
    assert y == s[q..r];
    forall j | 0 <= j < |y| ensures IsDigit(y[j]) {
      assert y[j] == s[q + j];
    }
  }

  /** What the scanner reads as a decimal literal is one. */
  lemma DecimalSound(s: string, k: nat)
    requires k <= |s| && DecimalEnd(s, k) > k
    ensures FloatSyntax.IsDecimal(s[k..DecimalEnd(s, k)])
  {
    var a := SkipDigits(s, k);
    var m := if a < |s| && s[a] == '.' then SkipDigits(s, a + 1) else a;
    var r := DecimalEnd(s, k);
    assert r == ExponentEnd(s, m);
    MantissaSound(s, k, a, m);
    if r > m {
      ExponentSound(s, m);
    }
    DecimalAt(s, k, m, r);
  }

  /** A mantissa from `k` to `m` followed by the end or by a character
      that is neither a digit nor a point is read whole. */
  lemma MantissaComplete(s: string, k: nat, m: nat)
    requires k <= m <= |s| && (m == |s| || (!IsDigit(s[m]) && s[m] != '.'))
    requires FloatSyntax.IsMantissa(s[k..m])
    ensures DecimalEnd(s, k) == ExponentEnd(s, m)
  {
    var mm := s[k..m];
    var p := FloatSyntax.IndexOfChar(mm, '.');
    assert mm[..p] == s[k..k + p];
    SliceDigits(s, k, k + p);
    if p < |mm| {
      assert s[k + p] == mm[p] == '.';
      assert mm[p + 1..] == s[k + p + 1..m];
      SliceDigits(s, k + p + 1, m);
      PointMantissaComplete(s, k, k + p, m);
    } else {
      SkipDigitsIs(s, k, m);
    }
  }

  /** Digits from `k`, a point at `a`, digits up to `m`, at least two
      characters in all: the scanner reads on to the exponent at `m`. */
  lemma PointMantissaComplete(s: string, k: nat, a: nat, m: nat)
    requires k <= a < m <= |s| && s[a] == '.' && m - k > 1
    requires forall j :: k <= j < a ==> IsDigit(s[j])
    requires forall j :: a < j < m ==> IsDigit(s[j])
    requires m == |s| || !IsDigit(s[m])
    ensures DecimalEnd(s, k) == ExponentEnd(s, m)
  {
    SkipDigitsIs(s, k, a);
    SkipDigitsIs(s, a + 1, m);
  }

  /** An exponent followed by whitespace or the end is read whole. */
  lemma ExponentComplete(s: string, m: nat, en: nat)
    requires m < en <= |s| && (en == |s| || IsSpace(s[en]))
    requires (s[m] == 'e' || s[m] == 'E') && FloatSyntax.IsExponent(s[m + 1..en])
    ensures ExponentEnd(s, m) == en
  {
    var q := SkipSign(s, m + 1);
    var y := FloatSyntax.DropSign(s[m + 1..en]);
    assert y == s[q..en];
    SliceDigits(s, q, en);
    SkipDigitsIs(s, q, en);
  }

  /** A decimal literal `s[k..en]` is a mantissa up to some `m`, then the
      end or `e`/`E` and an exponent. */
  lemma DecimalSplit(s: string, k: nat, en: nat) returns (m: nat)
    requires k <= en <= |s| && FloatSyntax.IsDecimal(s[k..en])
    ensures k <= m <= en && FloatSyntax.IsMantissa(s[k..m])
    ensures m < en ==> (s[m] == 'e' || s[m] == 'E') && FloatSyntax.IsExponent(s[m + 1..en])
  {
    var u := s[k..en];
    var e := FloatSyntax.IndexOf(u, 'e', 'E');
    m := k + e;
    assert FloatSyntax.IsMantissa(s[k..m]) by {
      assert u[..e] == s[k..m];
    }
    if e < |u| {
      assert s[m] == 'e' || s[m] == 'E' by {
        assert u[e] == s[m];
      }
      assert FloatSyntax.IsExponent(s[m + 1..en]) by {
        assert u[e + 1..] == s[m + 1..en];
      }
    }
  }

  /** A decimal literal followed by whitespace or the end is read whole. */
  lemma DecimalComplete(s: string, k: nat, en: nat)
    requires k <= en <= |s| && (en == |s| || IsSpace(s[en]))
    requires FloatSyntax.IsDecimal(s[k..en])
    ensures DecimalEnd(s, k) == en
  {
    var m := DecimalSplit(s, k, en);
    MantissaComplete(s, k, m);
    if m < en {
      ExponentComplete(s, m, en);
    }
  }

  lemma LowerFirst(u: string)
    requires |u| > 0
    ensures LowerString(u)[0] == Lower(u[0])
  {
  }

  /** `inf`, `infinity` or `nan` has no digit or point to start a decimal. */
  lemma InfNanNotDecimal(s: string, k: nat, en: nat)
    requires k <= en <= |s| && FloatSyntax.IsInfOrNan(s[k..en])
    ensures en > k && DecimalEnd(s, k) == k
  {
    var u := s[k..en];
    assert |u| > 0;
    LowerFirst(u);
    assert Lower(s[k]) == 'i' || Lower(s[k]) == 'n';
    SkipDigitsIs(s, k, k);
  }

  /** The scanner reads `inf`, `infinity` or `nan` exactly when it is there. */
  lemma InfNanSound(s: string, k: nat)
    requires k <= |s| && InfNanEnd(s, k) > k
    ensures FloatSyntax.IsInfOrNan(s[k..InfNanEnd(s, k)])
  {
    var r := InfNanEnd(s, k);
    if r == k + 8 {
      var l := LowerString(s[k..r]);
      assert l == LowerString(s[k..k + 3]) + LowerString(s[k + 3..k + 8]);
    }
  }

  /** Lower-casing commutes with taking the slice `[a..b]` of `s[k..en]`. */
  lemma LowerSlice(s: string, k: nat, en: nat, a: nat, b: nat)
    requires k <= en <= |s| && a <= b <= en - k
    ensures LowerString(s[k + a..k + b]) == LowerString(s[k..en])[a..b]
  {
    var x := LowerString(s[k + a..k + b]);
    var y := LowerString(s[k..en])[a..b];
    forall t | 0 <= t < |x|
      ensures x[t] == y[t]
    {
      assert s[k + a..k + b][t] == s[k..en][a + t];
    }
  }

  /** `inf`, `infinity` or `nan` followed by whitespace or the end is read whole. */
  lemma InfNanComplete(s: string, k: nat, en: nat)
    requires k <= en <= |s| && (en == |s| || IsSpace(s[en]))
    requires FloatSyntax.IsInfOrNan(s[k..en])
    ensures InfNanEnd(s, k) == en
  {
    if en - k == 8 {
      InfinityComplete(s, k, en);
    } else {
      ShortInfNanComplete(s, k, en);
    }
  }

  /** `infinity` in any case is read whole. */
  lemma InfinityComplete(s: string, k: nat, en: nat)
    requires k <= en <= |s| && en - k == 8
    requires FloatSyntax.IsInfOrNan(s[k..en])
    ensures InfNanEnd(s, k) == en
  {
    var l := LowerString(s[k..en]);
    assert l == "infinity";
    assert l[..3] == "inf" && l[3..] == "inity";
    LowerSlice(s, k, en, 0, 3);
    LowerSlice(s, k, en, 3, 8);
    assert MatchFold(s, k, "inf");
    assert MatchFold(s, k + 3, "inity");
  }

  /** `inf` or `nan` in any case, followed by whitespace or the end, is
      read as three characters: no `inity` can follow. */
  lemma ShortInfNanComplete(s: string, k: nat, en: nat)
    requires k <= en <= |s| && en - k != 8 && (en == |s| || IsSpace(s[en]))
    requires FloatSyntax.IsInfOrNan(s[k..en])
    ensures InfNanEnd(s, k) == en
  {
    var l := LowerString(s[k..en]);
    assert |l| == 3;
    assert LowerString(s[k..k + 3]) == l;
    if en + 5 <= |s| {
      assert LowerString(s[en..en + 5])[0] == Lower(s[en]) == s[en];
      assert !MatchFold(s, k + 3, "inity");
    }
  }

  /** Leading whitespace: `StripLeft` drops exactly what `SkipSpaces` skips. */
  lemma StripLeftAt(s: string)
    ensures SkipSpaces(s, 0) == |s| - |FloatSyntax.StripLeft(s)|
  {
    var t := FloatSyntax.StripLeft(s);
    var q := |s| - |t|;
    if q < |s| {
      assert s[q] == t[0];
    }
    SkipSpacesIs(s, 0, q);
  }

  /** Trailing whitespace: `StripRight` of the text from `start` keeps it
      up to `en`, after which there is only whitespace. */
  lemma StripRightAt(s: string, start: nat) returns (en: nat)
    requires start <= |s|
    ensures start <= en <= |s|
    ensures FloatSyntax.StripRight(s[start..]) == s[start..en]
    ensures forall j :: en <= j < |s| ==> IsSpace(s[j])
    ensures en > start ==> !IsSpace(s[en - 1])
    ensures start < |s| && !IsSpace(s[start]) ==> en > start
  {
    var t := s[start..];
    var w := FloatSyntax.StripRight(t);
    en := start + |w|;
    forall j | en <= j < |s| ensures IsSpace(s[j]) {
      assert t[j - start] == s[j];
    }
    if start < |s| && !IsSpace(s[start]) {
      assert t[0] == s[start];
    }
  }

  /** The text between the surrounding whitespace, less its sign, is
      `s[k..en]`, with only whitespace after `en` and, if anything is left
      after leading whitespace, a non-space at `en - 1`. */
  lemma StrippedSpan(s: string) returns (start: nat, k: nat, en: nat)
    ensures start == SkipSpaces(s, 0) && k == SkipSign(s, start)
    ensures start <= en <= |s| && k <= en
    ensures FloatSyntax.DropSign(FloatSyntax.Strip(s)) == s[k..en]
    ensures forall j :: en <= j < |s| ==> IsSpace(s[j])
    ensures en > start ==> !IsSpace(s[en - 1])
  {
    StripLeftAt(s);
    start := SkipSpaces(s, 0);
    k := SkipSign(s, start);
    assert FloatSyntax.StripLeft(s) == s[start..];
    en := StripRightAt(s, start);
    var w := s[start..en];
    if start < |s| {
      assert w[0] == s[start];
    }
  }

  /** Whatever `strtod` converts ends at the end of the stripped text. */
  lemma ConvertedEndsAt(s: string, start: nat, en: nat, e: nat)
    requires start <= en <= |s| && start < e <= |s|
    requires forall j :: en <= j < |s| ==> IsSpace(s[j])
    requires en > start ==> !IsSpace(s[en - 1])
    requires forall j :: e <= j < |s| ==> IsSpace(s[j])
    requires !IsSpace(s[e - 1])
    ensures e == en
  {
  }

  /** What the scanner accepts, the grammar does. */
  lemma AcceptsSound(s: string)
    requires Accepts(s)
    ensures FloatSyntax.IsFloatLiteral(s)
  {
    ConvertedAll(s, SkipSpaces(s, 0));
  }

  /** `strtod` from the first non-space converting everything up to the
      trailing whitespace makes the whole text a float literal. */
  lemma ConvertedAll(s: string, start: nat)
    requires start == SkipSpaces(s, 0) && start < StrToD(s, start)
    requires SkipSpaces(s, StrToD(s, start)) == |s|
    ensures FloatSyntax.IsFloatLiteral(s)
  {
    ConvertedIsLiteral(s, start);
    ConvertedLiteral(s, start, StrToD(s, start));
  }

  /** A literal converted from the first non-space up to `e`, followed only
      by whitespace, makes the whole text a float literal. */
  lemma ConvertedLiteral(s: string, start: nat, e: nat)
    requires start == SkipSpaces(s, 0) && start < e <= |s| && SkipSpaces(s, e) == |s|
    requires !IsSpace(s[e - 1]) && LiteralSpan(s, SkipSign(s, start), e)
    ensures FloatSyntax.IsFloatLiteral(s)
  {
    var start', k, en := StrippedSpan(s);
    ConvertedEndsAt(s, start, en, e);
    LiteralOf(s, k, en);
  }

  /** When the stripped text less its sign is `s[k..en]`, `s` is a float
      literal exactly when that text is a decimal or `inf`/`infinity`/`nan`. */
  lemma LiteralOf(s: string, k: nat, en: nat)
    requires k <= en <= |s| && FloatSyntax.DropSign(FloatSyntax.Strip(s)) == s[k..en]
    requires FloatSyntax.IsDecimal(s[k..en]) || FloatSyntax.IsInfOrNan(s[k..en])
    ensures FloatSyntax.IsFloatLiteral(s)
  {
  }

  /** `s[k..e]` is a decimal literal or one of `inf`, `infinity`, `nan`. */
  predicate LiteralSpan(s: string, k: nat, e: nat) {
    k <= e <= |s| && (FloatSyntax.IsDecimal(s[k..e]) || FloatSyntax.IsInfOrNan(s[k..e]))
  }

  /** What `strtod` converts, less its sign, is a decimal literal or one of
      `inf`, `infinity`, `nan`. */
  lemma ConvertedIsLiteral(s: string, start: nat)
    requires start <= |s| && StrToD(s, start) > start
    ensures LiteralSpan(s, SkipSign(s, start), StrToD(s, start))
  {
    var k := SkipSign(s, start);
    if DecimalEnd(s, k) > k {
      DecimalSound(s, k);
    } else {
      InfNanSound(s, k);
    }
  }

  /** What the grammar accepts, the scanner does. */
  lemma AcceptsComplete(s: string)
    requires FloatSyntax.IsFloatLiteral(s)
    ensures Accepts(s)
  {
    var start, k, en := StrippedSpan(s);
    if FloatSyntax.IsDecimal(s[k..en]) {
      DecimalComplete(s, k, en);
    } else {
      InfNanNotDecimal(s, k, en);
      InfNanComplete(s, k, en);
    }
    SkipSpacesIs(s, en, |s|);
  }

  /** The scanner and the grammar agree on every string. */
  lemma AcceptsIffFloatLiteral(s: string)
    ensures Accepts(s) <==> FloatSyntax.IsFloatLiteral(s)
  {
    if Accepts(s) {
      AcceptsSound(s);
    }
    if FloatSyntax.IsFloatLiteral(s) {
      AcceptsComplete(s);
    }
  }
}
