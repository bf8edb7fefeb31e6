/** The strings Python 2's `float()` accepts, which is the only check `_amount`
    makes on a set amount. `float()` strips surrounding whitespace, takes an
    optional sign, and then needs either a decimal literal (digits with at most
    one `.` and at least one digit, then optionally `e`/`E`, an optional sign
    and at least one digit) or one of `inf`, `infinity`, `nan` in any letter
    case. Hexadecimal literals are refused. Out-of-range literals such as
    `1e400` are accepted (they become infinities), so the check is purely
    syntactic. */
module FloatSyntax {
  import opened Ascii

  function StripLeft(s: string): (t: string)
    ensures |t| <= |s| && t == s[|s| - |t|..]
    ensures |t| > 0 ==> !IsSpace(t[0])
    ensures forall k :: 0 <= k < |s| - |t| ==> IsSpace(s[k])
  {
    if |s| > 0 && IsSpace(s[0]) then StripLeft(s[1..]) else s
  }

  function StripRight(s: string): (t: string)
    ensures |t| <= |s| && t == s[..|t|]
    ensures |t| > 0 ==> !IsSpace(t[|t| - 1])
    ensures forall k :: |t| <= k < |s| ==> IsSpace(s[k])
  {
    if |s| > 0 && IsSpace(s[|s| - 1]) then StripRight(s[..|s| - 1]) else s
  }

  /** `s` without leading and trailing whitespace. */
  function Strip(s: string): string {
    StripRight(StripLeft(s))
  }

  /** The position of the first `c` or `d` in `s`, or `|s|` if there is none. */
  function IndexOf(s: string, c: char, d: char): (i: nat)
    ensures i <= |s|
    ensures i < |s| ==> s[i] == c || s[i] == d
    ensures forall k :: 0 <= k < i ==> s[k] != c && s[k] != d
  {
    if |s| == 0 || s[0] == c || s[0] == d then 0 else 1 + IndexOf(s[1..], c, d)
  }

  /** The position of the first `c` in `s`, or `|s|` if there is none. */
  function IndexOfChar(s: string, c: char): nat {
    IndexOf(s, c, c)
  }

  /** `s` without one leading `+` or `-`. */
  function DropSign(s: string): string {
    if |s| > 0 && (s[0] == '+' || s[0] == '-') then s[1..] else s
  }

  /** Digits with at most one `.`, and at least one digit. */
  predicate IsMantissa(m: string) {
    var p := IndexOfChar(m, '.');
    && AllDigits(m[..p])
    && if p == |m| then |m| > 0 else AllDigits(m[p + 1..]) && |m| > 1
  }

  /** What follows `e` or `E`: an optional sign and at least one digit. */
  predicate IsExponent(x: string) {
    var y := DropSign(x);
    |y| > 0 && AllDigits(y)
  }

  /** An unsigned decimal literal with an optional exponent. */
  predicate IsDecimal(u: string) {
    var e := IndexOf(u, 'e', 'E');
    IsMantissa(u[..e]) && (e == |u| || IsExponent(u[e + 1..]))
  }

  predicate IsInfOrNan(u: string) {
    var l := LowerString(u);
    l == "inf" || l == "infinity" || l == "nan"
  }

  /** `float(s)` returns instead of raising `ValueError`. */
  predicate IsFloatLiteral(s: string) {
    var u := DropSign(Strip(s));
    IsDecimal(u) || IsInfOrNan(u)
  }

  /** A string of digits, one `.` at position `n > 0`, and digits (`12.00`,
      `1.`) is a float literal. */
  lemma PointAt(s: string, n: nat)
    requires 0 < n < |s| && s[n] == '.' && AllDigits(s[..n]) && AllDigits(s[n + 1..])
    ensures IsFloatLiteral(s)
  {
    forall k | 0 <= k < |s| ensures IsDigit(s[k]) || k == n {
      if k < n {
        assert s[..n][k] == s[k];
      } else if k > n {
        assert s[n + 1..][k - n - 1] == s[k];
      }
    }
    NoSpaceEnds(s);
    assert DropSign(s) == s;
    NoneOf(s, 'e', 'E');
    assert s[..|s|] == s;
    assert IndexOfChar(s, '.') == n;
  }

  /** Every amount written as digits, a point and digits is a float literal. */
  lemma PointDecimal(a: string, b: string)
    requires |a| > 0 && AllDigits(a) && AllDigits(b)
    ensures IsFloatLiteral(a + "." + b)
  {
    var s := a + "." + b;
    assert s[..|a|] == a && s[|a| + 1..] == b;
    PointAt(s, |a|);
  }

  /** Every non-empty digit string is a float literal. */
  lemma Digits(a: string)
    requires |a| > 0 && AllDigits(a)
    ensures IsFloatLiteral(a)
  {
    NoSpaceEnds(a);
    assert DropSign(a) == a;
    NoneOf(a, 'e', 'E');
    NoneOf(a, '.', '.');
    assert a[..|a|] == a;
  }

  /** Stripping leaves a string that neither starts nor ends with whitespace unchanged. */
  lemma NoSpaceEnds(s: string)
    requires |s| > 0 && !IsSpace(s[0]) && !IsSpace(s[|s| - 1])
    ensures Strip(s) == s
  {
    assert StripLeft(s) == s;
    assert StripRight(s) == s;
  }

  /** A string free of `c` and `d` has no `c` or `d` to find. */
  lemma {:induction false} NoneOf(s: string, c: char, d: char)
    requires forall k :: 0 <= k < |s| ==> s[k] != c && s[k] != d
    ensures IndexOf(s, c, d) == |s|
  {
    if |s| > 0 {
      NoneOf(s[1..], c, d);
    }
  }

  /** The characters a decimal literal is made of. */
  predicate IsDecimalChar(c: char) {
    IsDigit(c) || c == '.' || c == 'e' || c == 'E' || c == '+' || c == '-'
  }

  /** A decimal literal consists of decimal characters only. */
  lemma DecimalChars(u: string, k: nat)
    requires IsDecimal(u) && k < |u|
    ensures IsDecimalChar(u[k])
  {
    var e := IndexOf(u, 'e', 'E');
    if k < e {
      var m := u[..e];
      var p := IndexOfChar(m, '.');
      if k < p {
        assert m[..p][k] == u[k];
      } else if k > p {
        assert m[p + 1..][k - p - 1] == u[k];
      }
    } else if k > e {
      var x := u[e + 1..];
      if k > e + 1 || (x[0] != '+' && x[0] != '-') {
        var y := DropSign(x);
        assert y[k - e - 1 - (|x| - |y|)] == u[k];
      }
    }
  }

  /** A string that `float()` refuses: no surrounding whitespace or sign, a
      character that no decimal literal contains, and not the length of
      `inf`, `nan` or `infinity`. */
  lemma NotFloatLiteral(s: string, k: nat)
    requires |s| > 0 && !IsSpace(s[0]) && !IsSpace(s[|s| - 1]) && s[0] != '+' && s[0] != '-'
    requires |s| != 3 && |s| != 8
    requires k < |s| && !IsDecimalChar(s[k])
    ensures !IsFloatLiteral(s)
  {
    NoSpaceEnds(s);
    assert DropSign(Strip(s)) == s;
    if IsDecimal(s) {
      DecimalChars(s, k);
    }
  }
}
