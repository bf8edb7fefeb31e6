/** The fragment of Python's `re` pattern syntax that the field validators use:
    bracketed character classes (`[0-9]`, `[-/]`, `\d`, `\w`, literal characters),
    concatenation, alternation of anchored branches, bounded repetition `{m,n}`
    and `+`. A pattern is matched against a whole string, which is how
    `re.search` treats a pattern whose every branch is anchored by `^` and `$`. */
module Regex {

  /** An inclusive character range `lo-hi`; a single character `c` is `Range(c, c)`. */
  datatype Range = Range(lo: char, hi: char)

  datatype Regex =
    | Class(ranges: seq<Range>)               // one character from any of the ranges
    | Concat(first: Regex, rest: Regex)       // `first` immediately followed by `rest`
    | Alt(left: Regex, right: Regex)          // `left|right`
    | Repeat(body: Regex, min: nat, max: nat) // `body{min,max}`
    | Plus(body: Regex)                       // `body+`

  predicate InClass(ranges: seq<Range>, c: char) {
    exists k :: 0 <= k < |ranges| && ranges[k].lo <= c <= ranges[k].hi
  }

  /** Every character of `s[i..j]` belongs to the class. */
  predicate AllIn(ranges: seq<Range>, s: string, i: nat, j: nat)
    requires i <= j <= |s|
  {
    forall k :: i <= k < j ==> InClass(ranges, s[k])
  }

  /** `r` matches exactly the slice `s[i..j]`. */
  predicate Match(r: Regex, s: string, i: nat, j: nat)
    requires i <= j <= |s|
    decreases r, 0
  {
    match r
    case Class(rs) => j == i + 1 && InClass(rs, s[i])
    case Concat(a, b) => exists k :: i <= k <= j && Match(a, s, i, k) && Match(b, s, k, j)
    case Alt(a, b) => Match(a, s, i, j) || Match(b, s, i, j)
    case Repeat(x, m, n) => MatchRepeat(x, m, n, s, i, j)
    case Plus(x) => MatchPlus(x, s, i, j)
  }

  /** `x{m,n}`: between `m` and `n` consecutive matches of `x`. */
  predicate MatchRepeat(x: Regex, m: nat, n: nat, s: string, i: nat, j: nat)
    requires i <= j <= |s|
    decreases x, n + 1
  {
    if n == 0 then m == 0 && i == j
    else
      (m == 0 && i == j)
      || exists k :: i <= k <= j && Match(x, s, i, k)
                     && MatchRepeat(x, if m == 0 then 0 else m - 1, n - 1, s, k, j)
  }

  /** `x+`: one match of `x`, or a non-empty match of `x` followed by `x+`
      (an empty iteration never adds to what `x+` matches). */
  predicate MatchPlus(x: Regex, s: string, i: nat, j: nat)
    requires i <= j <= |s|
    decreases x, j - i + 1
  {
    Match(x, s, i, j)
    || exists k :: i < k < j && Match(x, s, i, k) && MatchPlus(x, s, k, j)
  }

  /** The whole of `s` matches `r`: `re.search('^r$', s)` succeeds. */
  predicate FullMatch(r: Regex, s: string) {
    Match(r, s, 0, |s|)
  }

  /** `c{m,n}` for a character class `c` matches exactly the runs of `m` to `n`
      members of the class. */
  lemma {:induction false} RepeatClass(rs: seq<Range>, m: nat, n: nat, s: string, i: nat, j: nat)
    requires i <= j <= |s|
    ensures MatchRepeat(Class(rs), m, n, s, i, j) <==> m <= j - i <= n && AllIn(rs, s, i, j)
    decreases n
  {
    if n > 0 && i < j {
      var m' := if m == 0 then 0 else m - 1;
      RepeatClass(rs, m', n - 1, s, i + 1, j);
      if MatchRepeat(Class(rs), m, n, s, i, j) {
        RepeatStep(Class(rs), m, n, s, i, j);
      }
      if m <= j - i <= n && AllIn(rs, s, i, j) {
        assert Match(Class(rs), s, i, i + 1);
      }
    }
  }

  /** A non-empty match of `x{m,n}` with `n > 0` begins with one match of `x`. */
  lemma RepeatStep(x: Regex, m: nat, n: nat, s: string, i: nat, j: nat)
    requires i < j <= |s| && n > 0
    requires MatchRepeat(x, m, n, s, i, j)
    ensures exists k :: i <= k <= j && Match(x, s, i, k)
                        && MatchRepeat(x, if m == 0 then 0 else m - 1, n - 1, s, k, j)
  {
  }

  /** A match of `x+` longer than one iteration begins with a non-empty match of `x`. */
  lemma PlusStep(x: Regex, s: string, i: nat, j: nat)
    requires i <= j <= |s|
    requires MatchPlus(x, s, i, j) && !Match(x, s, i, j)
    ensures exists k :: i < k < j && Match(x, s, i, k) && MatchPlus(x, s, k, j)
  {
  }

  /** A match of a concatenation splits into a match of each part. */
  lemma ConcatSplit(a: Regex, b: Regex, s: string, i: nat, j: nat)
    requires i <= j <= |s|
    requires Match(Concat(a, b), s, i, j)
    ensures exists k :: i <= k <= j && Match(a, s, i, k) && Match(b, s, k, j)
  {
  }

  /** `c+` for a character class `c` matches exactly the non-empty runs of members. */
  lemma {:induction false} PlusClass(rs: seq<Range>, s: string, i: nat, j: nat)
    requires i <= j <= |s|
    ensures MatchPlus(Class(rs), s, i, j) <==> i < j && AllIn(rs, s, i, j)
    decreases j - i
  {
    if i + 1 < j {
      PlusClass(rs, s, i + 1, j);
      if MatchPlus(Class(rs), s, i, j) && !Match(Class(rs), s, i, j) {
        PlusStep(Class(rs), s, i, j);
        var k :| i < k < j && Match(Class(rs), s, i, k) && MatchPlus(Class(rs), s, k, j);
        assert k == i + 1;
      }
      if AllIn(rs, s, i, j) {
        assert Match(Class(rs), s, i, i + 1);
      }
    }
  }

  /** A class followed by `b` consumes one class member and then matches `b`. */
  lemma ClassThen(rs: seq<Range>, b: Regex, s: string, i: nat, j: nat)
    requires i <= j <= |s|
    ensures Match(Concat(Class(rs), b), s, i, j)
            <==> i < j && InClass(rs, s[i]) && Match(b, s, i + 1, j)
  {
    if i < j && InClass(rs, s[i]) && Match(b, s, i + 1, j) {
      assert Match(Class(rs), s, i, i + 1);
    }
  }

  /** `c{1}` followed by `b` behaves like the bare class `c` followed by `b`. */
  lemma OnceThen(rs: seq<Range>, b: Regex, s: string, i: nat, j: nat)
    requires i <= j <= |s|
    ensures Match(Concat(Repeat(Class(rs), 1, 1), b), s, i, j)
            <==> i < j && InClass(rs, s[i]) && Match(b, s, i + 1, j)
  {
    forall k | i <= k <= j
      ensures MatchRepeat(Class(rs), 1, 1, s, i, k) <==> k == i + 1 && InClass(rs, s[i])
    {
      RepeatClass(rs, 1, 1, s, i, k);
    }
    if Match(Concat(Repeat(Class(rs), 1, 1), b), s, i, j) {
      ConcatSplit(Repeat(Class(rs), 1, 1), b, s, i, j);
      var k :| i <= k <= j && Match(Repeat(Class(rs), 1, 1), s, i, k) && Match(b, s, k, j);
      assert MatchRepeat(Class(rs), 1, 1, s, i, k);
    }
    if i < j && InClass(rs, s[i]) && Match(b, s, i + 1, j) {
      assert MatchRepeat(Class(rs), 1, 1, s, i, i + 1);
    }
  }

  /** `c{0,1}` followed by `b`: either `b` alone, or one class member then `b`. */
  lemma OptionalThen(rs: seq<Range>, b: Regex, s: string, i: nat, j: nat)
    requires i <= j <= |s|
    ensures Match(Concat(Repeat(Class(rs), 0, 1), b), s, i, j)
            <==> Match(b, s, i, j) || (i < j && InClass(rs, s[i]) && Match(b, s, i + 1, j))
  {
    forall k | i <= k <= j
      ensures MatchRepeat(Class(rs), 0, 1, s, i, k) <==> k == i || (k == i + 1 && InClass(rs, s[i]))
    {
      RepeatClass(rs, 0, 1, s, i, k);
    }
    if Match(Concat(Repeat(Class(rs), 0, 1), b), s, i, j) {
      ConcatSplit(Repeat(Class(rs), 0, 1), b, s, i, j);
      var k :| i <= k <= j && Match(Repeat(Class(rs), 0, 1), s, i, k) && Match(b, s, k, j);
      assert MatchRepeat(Class(rs), 0, 1, s, i, k);
    }
    if Match(b, s, i, j) {
      assert MatchRepeat(Class(rs), 0, 1, s, i, i);
    }
    if i < j && InClass(rs, s[i]) && Match(b, s, i + 1, j) {
      assert MatchRepeat(Class(rs), 0, 1, s, i, i + 1);
    }
  }
}
