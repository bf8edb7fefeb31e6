/** The field validators of `PaymentProcessor` (`_transaction`, `_address`,
    `_zip`, `_card_num_last_four`, `_card_num`, `_card_code`, `_exp_date`,
    `_amount`). Each reads one optional field; an unset field (`None` or the
    empty string, which Python treats as false) raises a "required" error, and
    otherwise the whole string must match the field's anchored pattern. A
    valid value is returned unchanged.

    Every pattern below is the source's regular expression written token by
    token in the `Regex` syntax; each validator's contract then states the
    language that pattern denotes in plain terms (digit counts, alphabets). */
module Validators {
  import opened Wrappers
  import opened Regex
  import opened Ascii
  import FloatSyntax
  import FloatScan

  /** The field a validation error is about. */
  datatype Field = Transaction | Address | Zip | CardNum | CardNumLastFour | CardCode | ExpDate | Amount

  /** The two `ValueError`s a validator raises: the field is unset, or its
      value does not have the required format. */
  datatype ValidationError = Required(field: Field) | Invalid(field: Field, value: string)

  /** Python truthiness of an optional string field: neither `None` nor `""`. */
  predicate Truthy(v: Option<string>) {
    v.Some? && v.value != ""
  }

  // ---------------------------------------------------------------------
  // The patterns, as written in the source

  /** `\d`: the source's patterns are byte strings compiled without
      `re.UNICODE`, so `\d` is the ASCII digits and `\w` is `[a-zA-Z0-9_]`. */
  const DigitRanges: seq<Range> := [Range('0', '9')]
  const WordRanges: seq<Range> := [Range('a', 'z'), Range('A', 'Z'), Range('0', '9'), Range('_', '_')]
  const Digit: Regex := Class(DigitRanges)

  /** `[-/]`: a leading `-` in a class is a literal, not a range. */
  const SeparatorRanges: seq<Range> := [Range('-', '-'), Range('/', '/')]
  /** `[0-1]` */
  const MonthTensRanges: seq<Range> := [Range('0', '1')]
  /** `[0-o{1}]`: the range `'0'`..`'o'` and the literals `{`, `1` and `}`. */
  const LongMonthUnitsRanges: seq<Range> := [Range('0', 'o'), Range('{', '{'), Range('1', '1'), Range('}', '}')]

  function Lit(c: char): Regex {
    Class([Range(c, c)])
  }

  /** `^\d+$` */
  const TransactionPattern: Regex := Plus(Digit)
  /** `^[\w. ]{1,60}$` */
  const AddressPattern: Regex := Repeat(Class(WordRanges + [Range('.', '.'), Range(' ', ' ')]), 1, 60)
  /** `^\d{5}$|^\d{9}$` */
  const ZipPattern: Regex := Alt(Repeat(Digit, 5, 5), Repeat(Digit, 9, 9))
  /** `^\d{4}$|^\d{13,16}$` */
  const CardNumLastFourPattern: Regex := Alt(Repeat(Digit, 4, 4), Repeat(Digit, 13, 16))
  /** `^\d{13,16}$` */
  const CardNumPattern: Regex := Repeat(Digit, 13, 16)
  /** `^\d{3,4}$` */
  const CardCodePattern: Regex := Repeat(Digit, 3, 4)

  /** `[0-1]{1}[0-9]{1}[-/]{0,1}[0-9]{2}` */
  const ShortExpDatePattern: Regex :=
    Concat(Repeat(Class(MonthTensRanges), 1, 1),
    Concat(Repeat(Class(DigitRanges), 1, 1),
    Concat(Repeat(Class(SeparatorRanges), 0, 1),
           Repeat(Class(DigitRanges), 2, 2))))
  /** `[0-1]{1}[0-o{1}][-/]{0,1}20[0-9]{2}` */
  const LongExpDatePattern: Regex :=
    Concat(Repeat(Class(MonthTensRanges), 1, 1),
    Concat(Class(LongMonthUnitsRanges),
    Concat(Repeat(Class(SeparatorRanges), 0, 1),
    Concat(Lit('2'),
    Concat(Lit('0'),
           Repeat(Class(DigitRanges), 2, 2))))))
  /** `^<short>$|^<long>$` */
  const ExpDatePattern: Regex := Alt(ShortExpDatePattern, LongExpDatePattern)

  // ---------------------------------------------------------------------
  // The languages those patterns denote, stated directly

  predicate IsTransactionId(s: string) {
    |s| >= 1 && AllDigits(s)
  }

  predicate IsAddressChar(c: char) {
    'a' <= c <= 'z' || 'A' <= c <= 'Z' || IsDigit(c) || c == '_' || c == '.' || c == ' '
  }

  predicate IsAddress(s: string) {
    1 <= |s| <= 60 && forall k :: 0 <= k < |s| ==> IsAddressChar(s[k])
  }

  predicate IsZipCode(s: string) {
    (|s| == 5 || |s| == 9) && AllDigits(s)
  }

  predicate IsCardNumber(s: string) {
    13 <= |s| <= 16 && AllDigits(s)
  }

  predicate IsCardNumberOrLastFour(s: string) {
    (|s| == 4 || 13 <= |s| <= 16) && AllDigits(s)
  }

  predicate IsCardCode(s: string) {
    3 <= |s| <= 4 && AllDigits(s)
  }

  predicate IsSeparator(c: char) {
    c == '-' || c == '/'
  }

  /** The character the four-digit-year branch admits after the month's first
      digit: anything from `'0'` (48) to `'o'` (111), or `{`, or `}`. */
  predicate IsLongMonthUnit(c: char) {
    '0' <= c <= 'o' || c == '{' || c == '}'
  }

  predicate IsTwoDigitYear(t: string) {
    |t| == 2 && AllDigits(t)
  }

  predicate IsTwentiesYear(t: string) {
    |t| == 4 && t[0] == '2' && t[1] == '0' && IsDigit(t[2]) && IsDigit(t[3])
  }

  /** `MMYY`, `MM-YY` or `MM/YY`, the month's first digit `0` or `1`. */
  predicate IsShortExpDate(s: string) {
    && |s| >= 2 && (s[0] == '0' || s[0] == '1') && IsDigit(s[1])
    && (IsTwoDigitYear(s[2..]) || (|s| > 2 && IsSeparator(s[2]) && IsTwoDigitYear(s[3..])))
  }

  /** `MM20YY`, `MM-20YY` or `MM/20YY`, the month's second character any
      `IsLongMonthUnit`. */
  predicate IsLongExpDate(s: string) {
    && |s| >= 2 && (s[0] == '0' || s[0] == '1') && IsLongMonthUnit(s[1])
    && (IsTwentiesYear(s[2..]) || (|s| > 2 && IsSeparator(s[2]) && IsTwentiesYear(s[3..])))
  }

  predicate IsExpDate(s: string) {
    IsShortExpDate(s) || IsLongExpDate(s)
  }

  // ---------------------------------------------------------------------
  // The validators

  /** The shape every regex-checked validator shares: "required" when unset,
      otherwise the value itself if the pattern matches the whole string. */
  function MatchField(v: Option<string>, required: Field, format: Field, pattern: Regex): Result<string, ValidationError> {
    if !Truthy(v) then Failure(Required(required))
    else if FullMatch(pattern, v.value) then Success(v.value)
    else Failure(Invalid(format, v.value))
  }

  /** The text a validator matches; an unset field has none. */
  function TextOf(v: Option<string>): string {
    if v.Some? then v.value else ""
  }

  /** `_transaction`: one or more ASCII digits. */
  function ValidateTransaction(transaction: Option<string>): (r: Result<string, ValidationError>)
    ensures !Truthy(transaction) ==> r == Failure(Required(Transaction))
    ensures Truthy(transaction) && IsTransactionId(transaction.value) ==> r == Success(transaction.value)
    ensures Truthy(transaction) && !IsTransactionId(transaction.value) ==> r == Failure(Invalid(Transaction, transaction.value))
  {
    TransactionLanguage(TextOf(transaction)); MatchField(transaction, Transaction, Transaction, TransactionPattern)
  }

  /** `_address`: 1 to 60 characters from `[A-Za-z0-9_. ]`. */
  function ValidateAddress(address: Option<string>): (r: Result<string, ValidationError>)
    ensures !Truthy(address) ==> r == Failure(Required(Address))
    ensures Truthy(address) && IsAddress(address.value) ==> r == Success(address.value)
    ensures Truthy(address) && !IsAddress(address.value) ==> r == Failure(Invalid(Address, address.value))
  {
    AddressLanguage(TextOf(address)); MatchField(address, Address, Address, AddressPattern)
  }

  /** `_zip`: exactly 5 or exactly 9 ASCII digits. */
  function ValidateZip(zip: Option<string>): (r: Result<string, ValidationError>)
    ensures !Truthy(zip) ==> r == Failure(Required(Zip))
    ensures Truthy(zip) && IsZipCode(zip.value) ==> r == Success(zip.value)
    ensures Truthy(zip) && !IsZipCode(zip.value) ==> r == Failure(Invalid(Zip, zip.value))
  {
    ZipLanguage(TextOf(zip)); MatchField(zip, Zip, Zip, ZipPattern)
  }

  /** `_card_num_last_four`: 4 digits, or 13 to 16 digits. Its "required"
      error names the `card_num` field it reads. */
  function ValidateCardNumLastFour(cardNum: Option<string>): (r: Result<string, ValidationError>)
    ensures !Truthy(cardNum) ==> r == Failure(Required(CardNum))
    ensures Truthy(cardNum) && IsCardNumberOrLastFour(cardNum.value) ==> r == Success(cardNum.value)
    ensures Truthy(cardNum) && !IsCardNumberOrLastFour(cardNum.value) ==> r == Failure(Invalid(CardNumLastFour, cardNum.value))
  {
    CardNumLastFourLanguage(TextOf(cardNum)); MatchField(cardNum, CardNum, CardNumLastFour, CardNumLastFourPattern)
  }

  /** `_card_num`: 13 to 16 ASCII digits. */
  function ValidateCardNum(cardNum: Option<string>): (r: Result<string, ValidationError>)
    ensures !Truthy(cardNum) ==> r == Failure(Required(CardNum))
    ensures Truthy(cardNum) && IsCardNumber(cardNum.value) ==> r == Success(cardNum.value)
    ensures Truthy(cardNum) && !IsCardNumber(cardNum.value) ==> r == Failure(Invalid(CardNum, cardNum.value))
  {
    CardNumLanguage(TextOf(cardNum)); MatchField(cardNum, CardNum, CardNum, CardNumPattern)
  }

  /** `_card_code`: 3 or 4 ASCII digits. */
  function ValidateCardCode(cardCode: Option<string>): (r: Result<string, ValidationError>)
    ensures !Truthy(cardCode) ==> r == Failure(Required(CardCode))
    ensures Truthy(cardCode) && IsCardCode(cardCode.value) ==> r == Success(cardCode.value)
    ensures Truthy(cardCode) && !IsCardCode(cardCode.value) ==> r == Failure(Invalid(CardCode, cardCode.value))
  {
    CardCodeLanguage(TextOf(cardCode)); MatchField(cardCode, CardCode, CardCode, CardCodePattern)
  }

  /** `_exp_date`: a short (`MMYY`) or long (`MM20YY`) date, each with an
      optional `-` or `/` after the month. */
  function ValidateExpDate(expDate: Option<string>): (r: Result<string, ValidationError>)
    ensures !Truthy(expDate) ==> r == Failure(Required(ExpDate))
    ensures Truthy(expDate) && IsExpDate(expDate.value) ==> r == Success(expDate.value)
    ensures Truthy(expDate) && !IsExpDate(expDate.value) ==> r == Failure(Invalid(ExpDate, expDate.value))
  {
    ExpDateLanguage(TextOf(expDate)); MatchField(expDate, ExpDate, ExpDate, ExpDatePattern)
  }

  /** `_amount`: calls `float()` on a set value and returns the string it
      was (it is never converted); `float()` raising `ValueError` becomes
      "invalid". Its contract states the accepted set as the grammar of
      float literals. */
  function ValidateAmount(amount: Option<string>): (r: Result<string, ValidationError>)
    ensures !Truthy(amount) ==> r == Failure(Required(Amount))
    ensures Truthy(amount) && FloatSyntax.IsFloatLiteral(amount.value) ==> r == Success(amount.value)
    ensures Truthy(amount) && !FloatSyntax.IsFloatLiteral(amount.value) ==> r == Failure(Invalid(Amount, amount.value))
  {
    FloatScan.AcceptsIffFloatLiteral(TextOf(amount));
    if !Truthy(amount) then Failure(Required(Amount))
    else if FloatScan.Accepts(amount.value) then Success(amount.value)
    else Failure(Invalid(Amount, amount.value))
  }

  /** Every whole number and every decimal with digits before the point is
      an amount, returned as written. */
  lemma AmountAcceptsDecimal(a: string, b: string)
    requires |a| > 0 && AllDigits(a) && AllDigits(b)
    ensures ValidateAmount(Some(a)) == Success(a)
    ensures ValidateAmount(Some(a + "." + b)) == Success(a + "." + b)
  {
    FloatSyntax.Digits(a);
    FloatSyntax.PointDecimal(a, b);
  }

  // ---------------------------------------------------------------------
  // Each pattern denotes its stated language

  lemma TransactionLanguage(s: string)
    ensures FullMatch(TransactionPattern, s) <==> IsTransactionId(s)
  {
    PlusClass(DigitRanges, s, 0, |s|);
    DigitsFrom(s, 0);
  }

  lemma AddressLanguage(s: string)
    ensures FullMatch(AddressPattern, s) <==> IsAddress(s)
  {
    var rs := WordRanges + [Range('.', '.'), Range(' ', ' ')];
    RepeatClass(rs, 1, 60, s, 0, |s|);
    forall c: char ensures InClass(rs, c) <==> IsAddressChar(c) {
      AddressClass(c);
    }
  }

  lemma ZipLanguage(s: string)
    ensures FullMatch(ZipPattern, s) <==> IsZipCode(s)
  {
    RepeatClass(DigitRanges, 5, 5, s, 0, |s|);
    RepeatClass(DigitRanges, 9, 9, s, 0, |s|);
    DigitsFrom(s, 0);
  }

  lemma CardNumLastFourLanguage(s: string)
    ensures FullMatch(CardNumLastFourPattern, s) <==> IsCardNumberOrLastFour(s)
  {
    RepeatClass(DigitRanges, 4, 4, s, 0, |s|);
    RepeatClass(DigitRanges, 13, 16, s, 0, |s|);
    DigitsFrom(s, 0);
  }

  lemma CardNumLanguage(s: string)
    ensures FullMatch(CardNumPattern, s) <==> IsCardNumber(s)
  {
    RepeatClass(DigitRanges, 13, 16, s, 0, |s|);
    DigitsFrom(s, 0);
  }

  lemma CardCodeLanguage(s: string)
    ensures FullMatch(CardCodePattern, s) <==> IsCardCode(s)
  {
    RepeatClass(DigitRanges, 3, 4, s, 0, |s|);
    DigitsFrom(s, 0);
  }

  lemma ExpDateLanguage(s: string)
    ensures FullMatch(ExpDatePattern, s) <==> IsExpDate(s)
  {
    ShortExpDateLanguage(s);
    LongExpDateLanguage(s);
  }

  lemma ShortExpDateLanguage(s: string)
    ensures Match(ShortExpDatePattern, s, 0, |s|) <==> IsShortExpDate(s)
  {
    var afterMonth := Concat(Repeat(Class(SeparatorRanges), 0, 1), Repeat(Class(DigitRanges), 2, 2));
    OnceThen(MonthTensRanges, Concat(Repeat(Class(DigitRanges), 1, 1), afterMonth), s, 0, |s|);
    MonthTensClass(if |s| > 0 then s[0] else '0');
    if |s| >= 1 {
      OnceThen(DigitRanges, afterMonth, s, 1, |s|);
      DigitClass(if |s| > 1 then s[1] else '0');
    }
    if |s| >= 2 {
      ShortYearAfterMonth(s);
    }
  }

  /** `[-/]{0,1}[0-9]{2}` matching `s` from position 2. */
  lemma ShortYearAfterMonth(s: string)
    requires |s| >= 2
    ensures Match(Concat(Repeat(Class(SeparatorRanges), 0, 1), Repeat(Class(DigitRanges), 2, 2)), s, 2, |s|)
            <==> IsTwoDigitYear(s[2..]) || (|s| > 2 && IsSeparator(s[2]) && IsTwoDigitYear(s[3..]))
  {
    OptionalThen(SeparatorRanges, Repeat(Class(DigitRanges), 2, 2), s, 2, |s|);
    SeparatorClass(if |s| > 2 then s[2] else '-');
    TwoDigitYearAt(s, 2);
    if |s| >= 3 {
      TwoDigitYearAt(s, 3);
    }
  }

  lemma LongExpDateLanguage(s: string)
    ensures Match(LongExpDatePattern, s, 0, |s|) <==> IsLongExpDate(s)
  {
    var year := Concat(Lit('2'), Concat(Lit('0'), Repeat(Class(DigitRanges), 2, 2)));
    var afterMonth := Concat(Repeat(Class(SeparatorRanges), 0, 1), year);
    OnceThen(MonthTensRanges, Concat(Class(LongMonthUnitsRanges), afterMonth), s, 0, |s|);
    MonthTensClass(if |s| > 0 then s[0] else '0');
    if |s| >= 1 {
      ClassThen(LongMonthUnitsRanges, afterMonth, s, 1, |s|);
      LongMonthUnitsClass(if |s| > 1 then s[1] else '0');
    }
    if |s| >= 2 {
      LongYearAfterMonth(s);
    }
  }

  /** `[-/]{0,1}20[0-9]{2}` matching `s` from position 2. */
  lemma LongYearAfterMonth(s: string)
    requires |s| >= 2
    ensures Match(Concat(Repeat(Class(SeparatorRanges), 0, 1),
                         Concat(Lit('2'), Concat(Lit('0'), Repeat(Class(DigitRanges), 2, 2)))), s, 2, |s|)
            <==> IsTwentiesYear(s[2..]) || (|s| > 2 && IsSeparator(s[2]) && IsTwentiesYear(s[3..]))
  {
    OptionalThen(SeparatorRanges, Concat(Lit('2'), Concat(Lit('0'), Repeat(Class(DigitRanges), 2, 2))), s, 2, |s|);
    SeparatorClass(if |s| > 2 then s[2] else '-');
    TwentiesYearAt(s, 2);
    if |s| >= 3 {
      TwentiesYearAt(s, 3);
    }
  }

  /** `[0-9]{2}` matching the rest of `s` from `k`. */
  lemma TwoDigitYearAt(s: string, k: nat)
    requires k <= |s|
    ensures Match(Repeat(Class(DigitRanges), 2, 2), s, k, |s|) <==> IsTwoDigitYear(s[k..])
  {
    RepeatClass(DigitRanges, 2, 2, s, k, |s|);
    DigitsFrom(s, k);
  }

  /** `20[0-9]{2}` matching the rest of `s` from `k`. */
  lemma TwentiesYearAt(s: string, k: nat)
    requires k <= |s|
    ensures Match(Concat(Lit('2'), Concat(Lit('0'), Repeat(Class(DigitRanges), 2, 2))), s, k, |s|)
            <==> IsTwentiesYear(s[k..])
  {
    var digits := Repeat(Class(DigitRanges), 2, 2);
    ClassThen([Range('2', '2')], Concat(Lit('0'), digits), s, k, |s|);
    LitClass('2', if k < |s| then s[k] else '2');
    if k < |s| {
      ClassThen([Range('0', '0')], digits, s, k + 1, |s|);
      LitClass('0', if k + 1 < |s| then s[k + 1] else '0');
      if k + 2 <= |s| {
        TwoDigitYearAt(s, k + 2);
        assert s[k..][2..] == s[k + 2..];
        if |s| - k == 4 {
          assert IsDigit(s[k..][2]) <==> IsDigit(s[k + 2..][0]);
          assert IsDigit(s[k..][3]) <==> IsDigit(s[k + 2..][1]);
        }
      }
    }
  }

  // ---------------------------------------------------------------------
  // Membership in each character class

  /** `AllIn` over `\d` from position `k` is `AllDigits` of the suffix. */
  lemma DigitsFrom(s: string, k: nat)
    requires k <= |s|
    ensures AllIn(DigitRanges, s, k, |s|) <==> AllDigits(s[k..])
  {
    forall c: char ensures InClass(DigitRanges, c) <==> IsDigit(c) {
      DigitClass(c);
    }
    if AllDigits(s[k..]) {
      forall i | k <= i < |s| ensures IsDigit(s[i]) {
        assert s[i] == s[k..][i - k];
      }
    }
  }

  lemma DigitClass(c: char)
    ensures InClass(DigitRanges, c) <==> IsDigit(c)
  {
    if IsDigit(c) {
      assert DigitRanges[0].lo <= c <= DigitRanges[0].hi;
    }
  }

  lemma AddressClass(c: char)
    ensures InClass(WordRanges + [Range('.', '.'), Range(' ', ' ')], c) <==> IsAddressChar(c)
  {
    var rs := WordRanges + [Range('.', '.'), Range(' ', ' ')];
    if 'a' <= c <= 'z' {
      assert rs[0].lo <= c <= rs[0].hi;
    } else if 'A' <= c <= 'Z' {
      assert rs[1].lo <= c <= rs[1].hi;
    } else if IsDigit(c) {
      assert rs[2].lo <= c <= rs[2].hi;
    } else if c == '_' {
      assert rs[3].lo <= c <= rs[3].hi;
    } else if c == '.' {
      assert rs[4].lo <= c <= rs[4].hi;
    } else if c == ' ' {
      assert rs[5].lo <= c <= rs[5].hi;
    }
  }

  lemma MonthTensClass(c: char)
    ensures InClass(MonthTensRanges, c) <==> c == '0' || c == '1'
  {
    if c == '0' || c == '1' {
      assert MonthTensRanges[0].lo <= c <= MonthTensRanges[0].hi;
    }
  }

  lemma SeparatorClass(c: char)
    ensures InClass(SeparatorRanges, c) <==> IsSeparator(c)
  {
    if c == '-' {
      assert SeparatorRanges[0].lo <= c <= SeparatorRanges[0].hi;
    } else if c == '/' {
      assert SeparatorRanges[1].lo <= c <= SeparatorRanges[1].hi;
    }
  }

  lemma LongMonthUnitsClass(c: char)
    ensures InClass(LongMonthUnitsRanges, c) <==> IsLongMonthUnit(c)
  {
    if '0' <= c <= 'o' {
      assert LongMonthUnitsRanges[0].lo <= c <= LongMonthUnitsRanges[0].hi;
    } else if c == '{' {
      assert LongMonthUnitsRanges[1].lo <= c <= LongMonthUnitsRanges[1].hi;
    } else if c == '}' {
      assert LongMonthUnitsRanges[3].lo <= c <= LongMonthUnitsRanges[3].hi;
    }
  }

  lemma LitClass(l: char, c: char)
    ensures InClass([Range(l, l)], c) <==> c == l
  {
    if c == l {
      assert [Range(l, l)][0].lo <= c <= [Range(l, l)][0].hi;
    }
  }
}
