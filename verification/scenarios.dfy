/** Concrete cases from the repository's test suite, stated against the model:
    which values each validator accepts or refuses, and what the builders
    leave in the map for the processors those tests set up. */
module Scenarios {
  import opened Wrappers
  import opened Ascii
  import opened Validators
  import opened Processor
  import opened Transactions
  import FloatSyntax

  // ---------------------------------------------------------------------
  // Validators

  /** Transaction ids: digits pass; letters or symbols refuse. */
  lemma TransactionVectors()
    ensures ValidateTransaction(Some("123123")) == Success("123123")
    ensures ValidateTransaction(None) == Failure(Required(Transaction))
    ensures ValidateTransaction(Some("389fejk90")) == Failure(Invalid(Transaction, "389fejk90"))
    ensures ValidateTransaction(Some("238932409432&893209")) == Failure(Invalid(Transaction, "238932409432&893209"))
  {
    assert !IsDigit("389fejk90"[3]);
    assert !IsDigit("238932409432&893209"[12]);
  }

  /** Addresses: letters, digits, spaces and `.` pass; `*` refuses. */
  lemma AddressVectors()
    ensures ValidateAddress(Some("351 W Hubbard St. Suite 500")) == Success("351 W Hubbard St. Suite 500")
    ensures ValidateAddress(Some("*")) == Failure(Invalid(Address, "*"))
    ensures ValidateAddress(None) == Failure(Required(Address))
  {
    assert !IsAddressChar("*"[0]);
  }

  /** Zip codes: 5 or 9 digits pass. */
  lemma ZipAccepts()
    ensures ValidateZip(Some("60654")) == Success("60654")
    ensures ValidateZip(Some("606541234")) == Success("606541234")
  {
  }

  /** Zip codes: unset, a letter, or 6 digits refuse. */
  lemma ZipRefuses()
    ensures ValidateZip(Some("a1234")) == Failure(Invalid(Zip, "a1234"))
    ensures ValidateZip(Some("123456")) == Failure(Invalid(Zip, "123456"))
    ensures ValidateZip(None) == Failure(Required(Zip))
  {
    assert !IsDigit("a1234"[0]);
  }

  /** Card numbers: 13 to 16 digits pass. */
  lemma CardNumAccepts()
    ensures ValidateCardNum(Some("4111111111111111")) == Success("4111111111111111")
    ensures ValidateCardNum(Some("511111111111111")) == Success("511111111111111")
  {
  }

  /** Card numbers: 17 digits or 2 digits refuse. */
  lemma CardNumRefusesLength()
    ensures ValidateCardNum(Some("42222222222222222")) == Failure(Invalid(CardNum, "42222222222222222"))
    ensures ValidateCardNum(Some("42")) == Failure(Invalid(CardNum, "42"))
    ensures ValidateCardNum(None) == Failure(Required(CardNum))
  {
  }

  /** Card numbers: a symbol or letters refuse. */
  lemma CardNumRefusesCharacters()
    ensures ValidateCardNum(Some("41111111111176%8")) == Failure(Invalid(CardNum, "41111111111176%8"))
    ensures ValidateCardNum(Some("IOU")) == Failure(Invalid(CardNum, "IOU"))
  {
    assert !IsDigit("41111111111176%8"[14]);
  }

  /** Last four: 4 digits pass; 6 digits or a symbol refuse, the "required"
      error naming the card number it reads. */
  lemma CardNumLastFourVectors()
    ensures ValidateCardNumLastFour(Some("7890")) == Success("7890")
    ensures ValidateCardNumLastFour(Some("4111111111111111")) == Success("4111111111111111")
    ensures ValidateCardNumLastFour(Some("76%8")) == Failure(Invalid(CardNumLastFour, "76%8"))
    ensures ValidateCardNumLastFour(Some("123456")) == Failure(Invalid(CardNumLastFour, "123456"))
    ensures ValidateCardNumLastFour(None) == Failure(Required(CardNum))
  {
    assert !IsDigit("76%8"[2]);
  }

  /** Every run of `2`s: the lengths 4 and 13 to 16 pass, all others refuse. */
  lemma CardNumLastFourLengths(n: nat)
    ensures var s := seq(n, _ => '2');
            ValidateCardNumLastFour(Some(s)) == if n == 4 || 13 <= n <= 16 then Success(s)
                                                else if n == 0 then Failure(Required(CardNum))
                                                else Failure(Invalid(CardNumLastFour, s))
  {
  }

  /** Card codes: 3 or 4 digits pass; a letter or 5 digits refuse. */
  lemma CardCodeVectors()
    ensures ValidateCardCode(Some("123")) == Success("123")
    ensures ValidateCardCode(Some("1234")) == Success("1234")
    ensures ValidateCardCode(Some("12a")) == Failure(Invalid(CardCode, "12a"))
    ensures ValidateCardCode(Some("12345")) == Failure(Invalid(CardCode, "12345"))
    ensures ValidateCardCode(None) == Failure(Required(CardCode))
  {
    assert !IsDigit("12a"[2]);
  }

  /** Expiry dates: the two-digit-year formats of the tests pass. */
  lemma ShortExpDateAccepts()
    ensures ValidateExpDate(Some("0112")) == Success("0112")
    ensures ValidateExpDate(Some("01/12")) == Success("01/12")
    ensures ValidateExpDate(Some("01-12")) == Success("01-12")
  {
    assert IsShortExpDate("0112") by { assert "0112"[2..] == "12"; }
    assert IsShortExpDate("01/12") by { assert "01/12"[3..] == "12"; }
    assert IsShortExpDate("01-12") by { assert "01-12"[3..] == "12"; }
  }

  /** Expiry dates: the four-digit-year formats of the tests pass. */
  lemma LongExpDateAccepts()
    ensures ValidateExpDate(Some("012012")) == Success("012012")
    ensures ValidateExpDate(Some("01/2012")) == Success("01/2012")
    ensures ValidateExpDate(Some("01-2012")) == Success("01-2012")
  {
    assert IsLongExpDate("012012") by { assert "012012"[2..] == "2012"; }
    assert IsLongExpDate("01/2012") by { assert "01/2012"[3..] == "2012"; }
    assert IsLongExpDate("01-2012") by { assert "01-2012"[3..] == "2012"; }
  }

  /** Expiry dates: unset, or a spelled-out month, refuse. */
  lemma ExpDateRefuses()
    ensures ValidateExpDate(Some("September 2012")) == Failure(Invalid(ExpDate, "September 2012"))
    ensures ValidateExpDate(None) == Failure(Required(ExpDate))
  {
  }

  /** The class `[0-o{1}]` lets a letter stand as the month's second digit
      when the year has four digits, and the two-digit-year branch does not. */
  lemma ExpDateLetterMonth()
    ensures ValidateExpDate(Some("0A2012")) == Success("0A2012")
    ensures ValidateExpDate(Some("0A12")) == Failure(Invalid(ExpDate, "0A12"))
  {
    assert IsLongExpDate("0A2012") by { assert "0A2012"[2..] == "2012"; }
    assert !IsLongExpDate("0A12") by { assert |"0A12"[2..]| == 2 && |"0A12"[3..]| == 1; }
  }

  // The amount vectors below take the literal as a parameter fixed by
  // `requires`, which keeps each proof about one short string cheap.

  /** Amounts: decimal numbers pass. */
  lemma AmountAccepts(s: string)
    requires s == "12.00" || s == "1.00"
    ensures ValidateAmount(Some(s)) == Success(s)
  {
    FloatSyntax.PointAt(s, if s == "12.00" then 2 else 1);
  }

  /** Amounts: numbers followed by words refuse. */
  lemma AmountRefusesWords(s: string)
    requires s == "12 dollars"
    ensures ValidateAmount(Some(s)) == Failure(Invalid(Amount, s))
  {
    FloatSyntax.NotFloatLiteral(s, 2);
  }

  /** Amounts: text refuses. */
  lemma AmountRefusesText(s: string)
    requires s == "A lot of money"
    ensures ValidateAmount(Some(s)) == Failure(Invalid(Amount, s))
  {
    FloatSyntax.NotFloatLiteral(s, 0);
  }

  /** Amounts: a number spelled out refuses. */
  lemma AmountRefusesSpelledOut(s: string)
    requires s == "five trillion dollars"
    ensures ValidateAmount(Some(s)) == Failure(Invalid(Amount, s))
  {
    FloatSyntax.NotFloatLiteral(s, 0);
  }

  /** Amounts: symbols refuse. */
  lemma AmountRefusesSymbols(s: string)
    requires s == "&^#@*()"
    ensures ValidateAmount(Some(s)) == Failure(Invalid(Amount, s))
  {
    FloatSyntax.NotFloatLiteral(s, 0);
  }

  // ---------------------------------------------------------------------
  // Builders

  /** `auth_only` with the card number unset, or too short, raises at the
      first assignment and leaves the map exactly as it was. */
  lemma AuthOnlyWithoutCardNum(p: Processor, d: TransactionData)
    requires p.cardNum == None || p.cardNum == Some("42")
    ensures AuthOnly(p, d).error == Some(if p.cardNum == None then Required(CardNum) else Invalid(CardNum, "42"))
    ensures AuthOnly(p, d).data == d
  {
    AuthFails(p, d);
    AuthStepsShape(p);
    var steps := AuthSteps(p);
    assert FirstFailure(steps) == 0;
    assert KeysOf(steps[..0]) == {};
    var r := AuthOnly(p, d);
    assert forall k :: Agree(d, r.data, k);
  }

  /** `auth_only` with a valid card and expiry date but no amount raises
      `Required(Amount)` having already written the card number and the
      expiry date, and without setting `x_type`. */
  lemma AuthOnlyWithoutAmount(p: Processor, d: TransactionData)
    requires Truthy(p.cardNum) && IsCardNumber(p.cardNum.value)
    requires Truthy(p.expDate) && IsExpDate(p.expDate.value)
    requires p.amount == None
    ensures AuthOnly(p, d).error == Some(Required(Amount))
    ensures Holds(AuthOnly(p, d).data, XCardNum, p.cardNum)
    ensures Holds(AuthOnly(p, d).data, XExpDate, p.expDate)
    ensures Agree(d, AuthOnly(p, d).data, XAmount) && Agree(d, AuthOnly(p, d).data, XType)
  {
    AuthFails(p, d);
    AuthStepsShape(p);
    var steps := AuthSteps(p);
    assert FirstFailure(steps) == 2;
    assert steps[..2] == [steps[0], steps[1]];
    assert XAmount !in KeysOf(steps[..2]);
  }

  /** With AVS required and the address unset, `auth_only` raises
      `Required(Address)` and writes no zip code, even when one is set. */
  lemma AvsWithoutAddress(p: Processor, d: TransactionData)
    requires AuthValid(p.(isAvsRequired := false, isCcvRequired := false))
    requires p.isAvsRequired && p.address == None
    ensures AuthOnly(p, d).error == Some(Required(Address))
    ensures Agree(d, AuthOnly(p, d).data, XZip)
  {
    AuthFails(p, d);
    AddressStepFails(p);
  }

  /** The steps of `AvsWithoutAddress`: the first three pass, the address
      fails, and the zip code comes after it. */
  lemma AddressStepFails(p: Processor)
    requires AuthValid(p.(isAvsRequired := false, isCcvRequired := false))
    requires p.isAvsRequired && p.address == None
    ensures FirstFailure(AuthSteps(p)) == 3
    ensures AuthSteps(p)[3].result == Failure(Required(Address))
    ensures XZip !in KeysOf(AuthSteps(p)[..3])
  {
    var card, exp, amount := ValidateCardNum(p.cardNum), ValidateExpDate(p.expDate), ValidateAmount(p.amount);
    assert card.Success? && exp.Success? && amount.Success?;
    AddressFailsFrom(p.isCcvRequired, card, exp, amount, ValidateAddress(p.address), ValidateZip(p.zip),
                     ValidateCardCode(p.cardCode));
  }

  lemma AddressFailsFrom(ccv: bool, card: Checked, exp: Checked, amount: Checked,
                         address: Checked, zip: Checked, code: Checked)
    requires card.Success? && exp.Success? && amount.Success? && address.Failure?
    ensures var steps := AuthStepsFrom(true, ccv, card, exp, amount, address, zip, code);
            && FirstFailure(steps) == 3 && steps[3].result == address && XZip !in KeysOf(steps[..3])
  {
    var steps := AuthStepsFrom(true, ccv, card, exp, amount, address, zip, code);
    assert FirstFailure(steps[3..]) == 0;
    assert steps[2..][1..] == steps[3..];
    assert steps[1..][1..] == steps[2..];
    assert FirstFailure(steps) == 3;
    assert steps[..3] == [steps[0], steps[1], steps[2]];
  }

  /** With AVS required, a valid address and the zip code unset, `auth_only`
      raises `Required(Zip)` after writing the address. */
  lemma AvsWithoutZip(p: Processor, d: TransactionData)
    requires AuthValid(p.(isAvsRequired := false, isCcvRequired := false))
    requires p.isAvsRequired && Truthy(p.address) && IsAddress(p.address.value) && p.zip == None
    ensures AuthOnly(p, d).error == Some(Required(Zip))
    ensures Holds(AuthOnly(p, d).data, XAddress, p.address)
  {
    AuthFails(p, d);
    var card, exp, amount := ValidateCardNum(p.cardNum), ValidateExpDate(p.expDate), ValidateAmount(p.amount);
    assert card.Success? && exp.Success? && amount.Success?;
    ZipFailsFrom(p.isCcvRequired, card, exp, amount, ValidateAddress(p.address), ValidateZip(p.zip),
                 ValidateCardCode(p.cardCode));
  }

  lemma ZipFailsFrom(ccv: bool, card: Checked, exp: Checked, amount: Checked,
                     address: Checked, zip: Checked, code: Checked)
    requires card.Success? && exp.Success? && amount.Success? && address.Success? && zip.Failure?
    ensures var steps := AuthStepsFrom(true, ccv, card, exp, amount, address, zip, code);
            && FirstFailure(steps) == 4 && steps[4].result == zip && steps[3] == Assignment(XAddress, address)
  {
    var steps := AuthStepsFrom(true, ccv, card, exp, amount, address, zip, code);
    assert FirstFailure(steps[4..]) == 0;
    assert steps[3..][1..] == steps[4..];
    assert steps[2..][1..] == steps[3..];
    assert steps[1..][1..] == steps[2..];
  }

  /** With CCV required and the card code unset, `auth_and_capture` raises
      `Required(CardCode)` after writing the card number, and sets no
      `x_type`. */
  lemma CcvWithoutCardCode(p: Processor, d: TransactionData)
    requires Truthy(p.cardNum) && IsCardNumber(p.cardNum.value)
    requires Truthy(p.expDate) && IsExpDate(p.expDate.value)
    requires Truthy(p.amount) && FloatSyntax.IsFloatLiteral(p.amount.value)
    requires !p.isAvsRequired && p.isCcvRequired && p.cardCode == None
    ensures AuthAndCapture(p, d).error == Some(Required(CardCode))
    ensures Holds(AuthAndCapture(p, d).data, XCardNum, p.cardNum)
    ensures Agree(d, AuthAndCapture(p, d).data, XType)
  {
    AuthFails(p, d);
    AuthStepsShape(p);
    var steps := AuthSteps(p);
    assert FirstFailure(steps) == 3;
  }

  /** `prior_auth_capture` with no amount stores `None` under `amount` and
      leaves `x_amount` as it was: absent on a fresh processor. */
  lemma PriorCaptureWithoutAmount(p: Processor)
    requires p.transaction == Some("123123") && p.amount == None
    ensures PriorAuthCapture(p, InitialData).error == None
    ensures XAmount !in PriorAuthCapture(p, InitialData).data
    ensures Holds(PriorAuthCapture(p, InitialData).data, BareAmount, None)
  {
    assert IsTransactionId("123123");
  }

  /** Because the map is never cleared, a `prior_auth_capture` that follows a
      successful `auth_only` on the same object still carries the earlier
      `x_amount` (and card number) next to its own `amount`. */
  lemma PriorCaptureAfterAuthKeepsStaleAmount(p: Processor, d: TransactionData)
    requires AuthValid(p) && TransactionValid(p)
    ensures var a := AuthOnly(p, d).data;
            var r := PriorAuthCapture(p, a).data;
            && Holds(r, XAmount, p.amount)
            && Holds(r, BareAmount, p.amount)
            && Holds(r, XCardNum, p.cardNum)
            && Holds(r, XType, Some("PRIOR_AUTH_CAPTURE"))
  {
    var a := AuthOnly(p, d).data;
    assert Agree(a, PriorAuthCapture(p, a).data, XAmount);
    assert Agree(a, PriorAuthCapture(p, a).data, XCardNum);
  }

  /** `void` with a malformed id raises, yet has already set `x_type`. */
  lemma VoidWithSymbols(p: Processor, d: TransactionData)
    requires p.transaction == Some("&^#@*()")
    ensures Void(p, d).error == Some(Invalid(Transaction, "&^#@*()"))
    ensures Holds(Void(p, d).data, XType, Some("VOID"))
    ensures Agree(d, Void(p, d).data, XTransId)
  {
    assert !IsDigit("&^#@*()"[0]);
  }

  /** `credit` with a card number of letters raises `Invalid(CardNum, "IOU")`
      after writing `x_type` and the transaction id. */
  lemma CreditWithLetterCard(p: Processor, d: TransactionData)
    requires p.transaction == Some("123123") && p.cardNum == Some("IOU")
    ensures Credit(p, d).error == Some(Invalid(CardNum, "IOU"))
    ensures Holds(Credit(p, d).data, XType, Some("CREDIT"))
    ensures Agree(d, Credit(p, d).data, XAmount)
  {
    assert IsTransactionId("123123");
    assert !IsCardNumber("IOU");
  }

  /** A gateway that refuses voids and accepts credits: the fallback builds
      the credit and reports it as processed. */
  lemma VoidRefusedCreditAccepted(p: Processor, d: TransactionData)
    requires CreditValid(p)
    ensures var gateway := (m: TransactionData) => Holds(m, XType, Some("CREDIT"));
            var r := ProcessVoidOrCredit(p, d, gateway);
            && r.result == Success(Outcome(true, "Credit"))
            && Holds(r.data, XCardNum, p.cardNum)
            && Holds(r.data, XAmount, p.amount)
  {
  }

  /** A gateway that accepts the void: no credit is built, and none of the
      credit's fields is written. */
  lemma VoidAccepted(p: Processor, d: TransactionData)
    requires TransactionValid(p)
    ensures var r := ProcessVoidOrCredit(p, d, (m: TransactionData) => true);
            && r.result == Success(Outcome(true, "Void"))
            && Agree(d, r.data, XCardNum) && Agree(d, r.data, XAmount)
  {
  }
}
