/** The five transaction-kind builders of `PaymentProcessor` and the
    void-or-credit fallback. Each builder takes the processor's fields and the
    current `transaction_data` and returns the map it leaves behind together
    with the validation error it raised, if any. The map is never cleared, so
    keys from earlier builds survive unless overwritten. */
module Transactions {
  import opened Wrappers
  import opened Validators
  import opened Processor
  import FloatSyntax

  // ---------------------------------------------------------------------
  // `_auth`, shared by `auth_only` and `auth_and_capture`

  /** What a validator returned: the value to store, or the error it raised. */
  type Checked = Result<string, ValidationError>

  /** The validated assignments of `_auth`, in source order, given what each
      validator returned: card number, expiry date and amount always; address
      then zip when AVS is required; card code when CCV is required. */
  function AuthStepsFrom(avs: bool, ccv: bool, card: Checked, exp: Checked, amount: Checked,
                         address: Checked, zip: Checked, code: Checked): seq<Assignment> {
    [ Assignment(XCardNum, card), Assignment(XExpDate, exp), Assignment(XAmount, amount) ]
    + (if avs then [ Assignment(XAddress, address), Assignment(XZip, zip) ] else [])
    + (if ccv then [ Assignment(XCardCode, code) ] else [])
  }

  /** The validated assignments of `_auth` for the processor's fields. */
  function AuthSteps(p: Processor): seq<Assignment> {
    AuthStepsFrom(p.isAvsRequired, p.isCcvRequired,
                  ValidateCardNum(p.cardNum), ValidateExpDate(p.expDate), ValidateAmount(p.amount),
                  ValidateAddress(p.address), ValidateZip(p.zip), ValidateCardCode(p.cardCode))
  }

  /** `if self.field: transaction_data[key] = self.field`: copied verbatim,
      without validation, when set. */
  function CopyIfSet(d: TransactionData, key: Key, v: Option<string>): TransactionData {
    if Truthy(v) then d[key := v] else d
  }

  /** The five unvalidated copies that end `_auth`. */
  function CopyMetadata(d: TransactionData, p: Processor): TransactionData {
    var d := CopyIfSet(d, XInvoiceNum, p.invoiceNumber);
    var d := CopyIfSet(d, XFirstName, p.firstName);
    var d := CopyIfSet(d, XLastName, p.lastName);
    var d := CopyIfSet(d, XCustomerId, p.customerId);
    CopyIfSet(d, XDescription, p.description)
  }

  /** Every field `_auth` requires, under the processor's flags, has a valid value. */
  predicate AuthValid(p: Processor) {
    && Truthy(p.cardNum) && IsCardNumber(p.cardNum.value)
    && Truthy(p.expDate) && IsExpDate(p.expDate.value)
    && Truthy(p.amount) && FloatSyntax.IsFloatLiteral(p.amount.value)
    && (p.isAvsRequired ==> Truthy(p.address) && IsAddress(p.address.value)
                            && Truthy(p.zip) && IsZipCode(p.zip.value))
    && (p.isCcvRequired ==> Truthy(p.cardCode) && IsCardCode(p.cardCode.value))
  }

  /** The keys a successful `_auth` writes. */
  function AuthKeys(p: Processor): set<Key> {
    {XCardNum, XExpDate, XAmount}
    + (if p.isAvsRequired then {XAddress, XZip} else {})
    + (if p.isCcvRequired then {XCardCode} else {})
    + MetadataKeys(p)
  }

  /** The keys of the optional metadata fields that are set. */
  function MetadataKeys(p: Processor): set<Key> {
    (if Truthy(p.invoiceNumber) then {XInvoiceNum} else {})
    + (if Truthy(p.firstName) then {XFirstName} else {})
    + (if Truthy(p.lastName) then {XLastName} else {})
    + (if Truthy(p.customerId) then {XCustomerId} else {})
    + (if Truthy(p.description) then {XDescription} else {})
  }

  /** `key` is present in `d` with value `v`. */
  predicate Holds(d: TransactionData, key: Key, v: Option<string>) {
    key in d && d[key] == v
  }

  /** Each set metadata field sits verbatim under its wire key. */
  predicate MetadataCopied(p: Processor, d: TransactionData) {
    && (Truthy(p.invoiceNumber) ==> Holds(d, XInvoiceNum, p.invoiceNumber))
    && (Truthy(p.firstName) ==> Holds(d, XFirstName, p.firstName))
    && (Truthy(p.lastName) ==> Holds(d, XLastName, p.lastName))
    && (Truthy(p.customerId) ==> Holds(d, XCustomerId, p.customerId))
    && (Truthy(p.description) ==> Holds(d, XDescription, p.description))
  }

  /** Each validated field of `_auth` sits verbatim under its wire key. */
  predicate ValidatedWritten(p: Processor, d: TransactionData) {
    && Holds(d, XCardNum, p.cardNum)
    && Holds(d, XExpDate, p.expDate)
    && Holds(d, XAmount, p.amount)
    && (p.isAvsRequired ==> Holds(d, XAddress, p.address) && Holds(d, XZip, p.zip))
    && (p.isCcvRequired ==> Holds(d, XCardCode, p.cardCode))
  }

  /** What a successful `_auth` leaves under the keys it writes: every field
      verbatim under its wire key. */
  predicate AuthWritten(p: Processor, d: TransactionData) {
    ValidatedWritten(p, d) && MetadataCopied(p, d)
  }

  /** `_auth`: the validated assignments, then, if none raised, the
      metadata copies. */
  function Auth(p: Processor, d: TransactionData): Build {
    var b := Run(d, AuthSteps(p));
    if b.error.Some? then b else Build(CopyMetadata(b.data, p), None)
  }

  /** `_auth` succeeds exactly when every required field is valid. */
  lemma AuthSucceedsIff(p: Processor, d: TransactionData)
    ensures Auth(p, d).error.None? <==> AuthValid(p)
  {
    RunFailFast(d, AuthSteps(p));
    AuthStepsKeys(p);
    AuthStepsValid(p);
  }

  /** A successful `_auth` has written exactly `AuthKeys`, each holding its
      field's value verbatim, and changed nothing else. */
  lemma AuthWrites(p: Processor, d: TransactionData)
    requires AuthValid(p)
    ensures Auth(p, d).error.None?
    ensures Auth(p, d).data.Keys == d.Keys + AuthKeys(p)
    ensures AuthWritten(p, Auth(p, d).data)
    ensures forall k :: k !in AuthKeys(p) ==> Agree(d, Auth(p, d).data, k)
  {
    AuthSucceedsIff(p, d);
    AuthSuccessKeys(p, d);
    AuthSuccessValues(p, d);
    AuthSuccessFrame(p, d);
  }

  lemma AuthSuccessKeys(p: Processor, d: TransactionData)
    requires AuthValid(p)
    ensures Auth(p, d).data.Keys == d.Keys + AuthKeys(p)
  {
    AuthStepsKeys(p);
    AuthStepsValid(p);
    RunAllPass(d, AuthSteps(p));
    CopyMetadataEffect(Run(d, AuthSteps(p)).data, p);
  }

  lemma AuthSuccessValues(p: Processor, d: TransactionData)
    requires AuthValid(p)
    ensures AuthWritten(p, Auth(p, d).data)
  {
    AuthSucceedsIff(p, d);
    var b := Run(d, AuthSteps(p));
    ValidatedFieldsWritten(p, d);
    MetadataKeepsValidated(p, b.data);
    CopyMetadataEffect(b.data, p);
  }

  /** The metadata copies never overwrite a validated field. */
  lemma MetadataKeepsValidated(p: Processor, d: TransactionData)
    requires ValidatedWritten(p, d)
    ensures ValidatedWritten(p, CopyMetadata(d, p))
  {
    CopyMetadataEffect(d, p);
  }

  lemma AuthSuccessFrame(p: Processor, d: TransactionData)
    requires AuthValid(p)
    ensures forall k :: k !in AuthKeys(p) ==> Agree(d, Auth(p, d).data, k)
  {
    var b := Run(d, AuthSteps(p));
    AuthStepsKeys(p);
    AuthStepsValid(p);
    RunAllPass(d, AuthSteps(p));
    CopyMetadataEffect(b.data, p);
  }

  /** With every required field valid, each validated assignment of `_auth`
      writes its field's value. */
  lemma ValidatedFieldsWritten(p: Processor, d: TransactionData)
    requires AuthValid(p)
    ensures ValidatedWritten(p, Run(d, AuthSteps(p)).data)
  {
    var steps := AuthSteps(p);
    AuthStepsShape(p);
    AuthStepsKeys(p);
    AuthStepsValid(p);
    RunAllPass(d, steps);
    var b := Run(d, steps);
    assert Holds(b.data, steps[0].key, Some(steps[0].result.value));
    assert Holds(b.data, steps[1].key, Some(steps[1].result.value));
    assert Holds(b.data, steps[2].key, Some(steps[2].result.value));
    if p.isAvsRequired {
      assert Holds(b.data, steps[3].key, Some(steps[3].result.value));
      assert Holds(b.data, steps[4].key, Some(steps[4].result.value));
    }
    if p.isCcvRequired {
      var c := |steps| - 1;
      assert Holds(b.data, steps[c].key, Some(steps[c].result.value));
    }
  }

  /** A failing `_auth` raises the error of the first failing validator in
      source order, has written the fields validated before it, copies no
      metadata and changes nothing else. */
  lemma AuthFails(p: Processor, d: TransactionData)
    requires !AuthValid(p)
    ensures var steps := AuthSteps(p);
            var f := FirstFailure(steps);
            && f < |steps|
            && Auth(p, d).error == Some(steps[f].result.error)
            && (forall i :: 0 <= i < f ==> Holds(Auth(p, d).data, steps[i].key, Some(steps[i].result.value)))
            && (forall k :: k !in KeysOf(steps[..f]) ==> Agree(d, Auth(p, d).data, k))
  {
    RunFailFast(d, AuthSteps(p));
    AuthStepsKeys(p);
    AuthStepsValid(p);
  }

  /** `_auth` never touches a key outside `AuthKeys`, whether it succeeds or fails. */
  lemma AuthFrame(p: Processor, d: TransactionData)
    ensures forall k :: k !in AuthKeys(p) ==> Agree(d, Auth(p, d).data, k)
  {
    if AuthValid(p) {
      AuthSuccessFrame(p, d);
    } else {
      AuthFails(p, d);
      var steps := AuthSteps(p);
      var f := FirstFailure(steps);
      AuthStepsKeys(p);
      assert KeysOf(steps[..f]) <= KeysOf(steps) by {
        forall k | k in KeysOf(steps[..f]) ensures k in KeysOf(steps) {
          var i :| 0 <= i < f && steps[..f][i].key == k;
          assert steps[i].key == k;
        }
      }
    }
  }

  /** The metadata copies write exactly the set metadata fields, verbatim. */
  lemma CopyMetadataEffect(d: TransactionData, p: Processor)
    ensures CopyMetadata(d, p).Keys == d.Keys + MetadataKeys(p)
    ensures MetadataCopied(p, CopyMetadata(d, p))
    ensures forall k :: k !in MetadataKeys(p) ==> Agree(d, CopyMetadata(d, p), k)
  {
  }

  /** The assignments of `_auth` write distinct keys, namely the validated
      ones that `AuthKeys` lists, whatever the validators return. */
  lemma AuthStepsFromKeys(avs: bool, ccv: bool, card: Checked, exp: Checked, amount: Checked,
                          address: Checked, zip: Checked, code: Checked)
    ensures KeysOf(AuthStepsFrom(avs, ccv, card, exp, amount, address, zip, code))
            == {XCardNum, XExpDate, XAmount}
               + (if avs then {XAddress, XZip} else {})
               + (if ccv then {XCardCode} else {})
  {
    var base := [Assignment(XCardNum, card), Assignment(XExpDate, exp), Assignment(XAmount, amount)];
    var avsSteps := if avs then [Assignment(XAddress, address), Assignment(XZip, zip)] else [];
    var ccvSteps := if ccv then [Assignment(XCardCode, code)] else [];
    KeysOfConcat(base + avsSteps, ccvSteps);
    KeysOfConcat(base, avsSteps);
    assert KeysOf(base) == {XCardNum, XExpDate, XAmount} by {
      assert base[0].key == XCardNum && base[1].key == XExpDate && base[2].key == XAmount;
    }
    assert KeysOf(avsSteps) == if avs then {XAddress, XZip} else {} by {
      if avs { assert avsSteps[0].key == XAddress && avsSteps[1].key == XZip; }
    }
    assert KeysOf(ccvSteps) == if ccv then {XCardCode} else {} by {
      if ccv { assert ccvSteps[0].key == XCardCode; }
    }
    assert AuthStepsFrom(avs, ccv, card, exp, amount, address, zip, code) == base + avsSteps + ccvSteps;
  }

  lemma AuthStepsFromDistinct(avs: bool, ccv: bool, card: Checked, exp: Checked, amount: Checked,
                              address: Checked, zip: Checked, code: Checked)
    ensures DistinctKeys(AuthStepsFrom(avs, ccv, card, exp, amount, address, zip, code))
  {
  }

  lemma AuthStepsKeys(p: Processor)
    ensures DistinctKeys(AuthSteps(p))
    ensures KeysOf(AuthSteps(p)) == {XCardNum, XExpDate, XAmount}
              + (if p.isAvsRequired then {XAddress, XZip} else {})
              + (if p.isCcvRequired then {XCardCode} else {})
  {
    AuthStepsFromKeys(p.isAvsRequired, p.isCcvRequired,
                      ValidateCardNum(p.cardNum), ValidateExpDate(p.expDate), ValidateAmount(p.amount),
                      ValidateAddress(p.address), ValidateZip(p.zip), ValidateCardCode(p.cardCode));
    AuthStepsFromDistinct(p.isAvsRequired, p.isCcvRequired,
                          ValidateCardNum(p.cardNum), ValidateExpDate(p.expDate), ValidateAmount(p.amount),
                          ValidateAddress(p.address), ValidateZip(p.zip), ValidateCardCode(p.cardCode));
  }

  /** Every assignment passes exactly when each validator the flags select
      returned a value. */
  lemma AuthStepsFromPass(avs: bool, ccv: bool, card: Checked, exp: Checked, amount: Checked,
                          address: Checked, zip: Checked, code: Checked)
    ensures var steps := AuthStepsFrom(avs, ccv, card, exp, amount, address, zip, code);
            FirstFailure(steps) == |steps|
            <==> card.Success? && exp.Success? && amount.Success?
                 && (avs ==> address.Success? && zip.Success?) && (ccv ==> code.Success?)
  {
    var steps := AuthStepsFrom(avs, ccv, card, exp, amount, address, zip, code);
    AllPass(steps);
    var avsAt := if avs then 2 else 0;
    assert steps[0].result == card && steps[1].result == exp && steps[2].result == amount;
    assert avs ==> steps[3].result == address && steps[4].result == zip;
    assert ccv ==> steps[3 + avsAt].result == code;
  }

  /** Every assignment of `_auth` passes exactly when `AuthValid` holds. */
  lemma AuthStepsValid(p: Processor)
    ensures FirstFailure(AuthSteps(p)) == |AuthSteps(p)| <==> AuthValid(p)
  {
    AuthStepsFromPass(p.isAvsRequired, p.isCcvRequired,
                      ValidateCardNum(p.cardNum), ValidateExpDate(p.expDate), ValidateAmount(p.amount),
                      ValidateAddress(p.address), ValidateZip(p.zip), ValidateCardCode(p.cardCode));
  }

  /** `AuthSteps` element by element. */
  lemma AuthStepsShape(p: Processor)
    ensures var avs := if p.isAvsRequired then 2 else 0;
            var ccv := if p.isCcvRequired then 1 else 0;
            && |AuthSteps(p)| == 3 + avs + ccv
            && AuthSteps(p)[0] == Assignment(XCardNum, ValidateCardNum(p.cardNum))
            && AuthSteps(p)[1] == Assignment(XExpDate, ValidateExpDate(p.expDate))
            && AuthSteps(p)[2] == Assignment(XAmount, ValidateAmount(p.amount))
            && (p.isAvsRequired ==> AuthSteps(p)[3] == Assignment(XAddress, ValidateAddress(p.address))
                                    && AuthSteps(p)[4] == Assignment(XZip, ValidateZip(p.zip)))
            && (p.isCcvRequired ==> AuthSteps(p)[3 + avs] == Assignment(XCardCode, ValidateCardCode(p.cardCode)))
  {
  }

  /** No assignment fails exactly when the first failure is past the end. */
  lemma AllPass(steps: seq<Assignment>)
    ensures FirstFailure(steps) == |steps| <==> forall i :: 0 <= i < |steps| ==> steps[i].result.Success?
  {
  }

  // ---------------------------------------------------------------------
  // The transaction kinds

  /** `auth_only` and `auth_and_capture`: `_auth`, and only if it raised
      nothing, `x_type` set to the kind's name. */
  function TypedAuth(p: Processor, d: TransactionData, kind: string): Build {
    var b := Auth(p, d);
    if b.error.Some? then b else Build(b.data[XType := Some(kind)], None)
  }

  /** What `auth_only` and `auth_and_capture` promise: success exactly when the
      required fields are valid; then every `_auth` key written verbatim and
      `x_type` set; on failure the `_auth` result with `x_type` untouched;
      either way no key outside `_auth`'s keys and `x_type` changes. */
  lemma TypedAuthEffect(p: Processor, d: TransactionData, kind: string)
    ensures TypedAuth(p, d, kind).error.None? <==> AuthValid(p)
    ensures AuthValid(p) ==>
              && TypedAuth(p, d, kind).data.Keys == d.Keys + AuthKeys(p) + {XType}
              && AuthWritten(p, TypedAuth(p, d, kind).data)
              && Holds(TypedAuth(p, d, kind).data, XType, Some(kind))
    ensures !AuthValid(p) ==>
              && TypedAuth(p, d, kind) == Auth(p, d)
              && Agree(d, TypedAuth(p, d, kind).data, XType)
    ensures forall k :: k !in AuthKeys(p) && k != XType ==> Agree(d, TypedAuth(p, d, kind).data, k)
  {
    if AuthValid(p) {
      TypedAuthSuccess(p, d, kind);
    } else {
      TypedAuthFailure(p, d, kind);
      TypeNotAuthKey(p);
    }
  }

  lemma TypedAuthFailure(p: Processor, d: TransactionData, kind: string)
    requires !AuthValid(p)
    ensures TypedAuth(p, d, kind).error.Some?
    ensures TypedAuth(p, d, kind) == Auth(p, d)
    ensures forall k :: k !in AuthKeys(p) ==> Agree(d, TypedAuth(p, d, kind).data, k)
  {
    AuthSucceedsIff(p, d);
    AuthFrame(p, d);
  }

  /** `_auth` never writes `x_type`. */
  lemma TypeNotAuthKey(p: Processor)
    ensures XType !in AuthKeys(p)
  {
  }

  lemma TypedAuthSuccess(p: Processor, d: TransactionData, kind: string)
    requires AuthValid(p)
    ensures TypedAuth(p, d, kind).error.None?
    ensures TypedAuth(p, d, kind).data.Keys == d.Keys + AuthKeys(p) + {XType}
    ensures AuthWritten(p, TypedAuth(p, d, kind).data)
    ensures Holds(TypedAuth(p, d, kind).data, XType, Some(kind))
    ensures forall k :: k !in AuthKeys(p) && k != XType ==> Agree(d, TypedAuth(p, d, kind).data, k)
  {
    AuthWrites(p, d);
    TypeNotAuthKey(p);
    TypeAfterAuth(p, d, Auth(p, d).data, kind);
  }

  /** Setting `x_type` on a map that `_auth` filled in successfully. */
  lemma TypeAfterAuth(p: Processor, d: TransactionData, a: TransactionData, kind: string)
    requires a.Keys == d.Keys + AuthKeys(p) && AuthWritten(p, a) && XType !in AuthKeys(p)
    requires forall k :: k !in AuthKeys(p) ==> Agree(d, a, k)
    ensures a[XType := Some(kind)].Keys == d.Keys + AuthKeys(p) + {XType}
    ensures AuthWritten(p, a[XType := Some(kind)])
    ensures forall k :: k !in AuthKeys(p) && k != XType ==> Agree(d, a[XType := Some(kind)], k)
  {
    TypedAuthWritten(p, a, kind);
  }

  /** Setting `x_type` keeps what `_auth` wrote. */
  lemma TypedAuthWritten(p: Processor, d: TransactionData, kind: string)
    requires AuthWritten(p, d)
    ensures AuthWritten(p, d[XType := Some(kind)])
  {
  }

  /** `auth_only`. */
  function AuthOnly(p: Processor, d: TransactionData): (r: Build)
    ensures r.error.None? <==> AuthValid(p)
    ensures r.error.None? ==> Holds(r.data, XType, Some("AUTH_ONLY")) && AuthWritten(p, r.data)
    ensures r.error.Some? ==> r == Auth(p, d) && Agree(d, r.data, XType)
    ensures forall k :: k !in AuthKeys(p) && k != XType ==> Agree(d, r.data, k)
  {
    TypedAuthEffect(p, d, "AUTH_ONLY");
    TypedAuth(p, d, "AUTH_ONLY")
  }

  /** `auth_and_capture`. */
  function AuthAndCapture(p: Processor, d: TransactionData): (r: Build)
    ensures r.error.None? <==> AuthValid(p)
    ensures r.error.None? ==> Holds(r.data, XType, Some("AUTH_CAPTURE")) && AuthWritten(p, r.data)
    ensures r.error.Some? ==> r == Auth(p, d) && Agree(d, r.data, XType)
    ensures forall k :: k !in AuthKeys(p) && k != XType ==> Agree(d, r.data, k)
  {
    TypedAuthEffect(p, d, "AUTH_CAPTURE");
    TypedAuth(p, d, "AUTH_CAPTURE")
  }

  /** The transaction id is set and all digits. */
  predicate TransactionValid(p: Processor) {
    Truthy(p.transaction) && IsTransactionId(p.transaction.value)
  }

  /** The error `_transaction` raises on an unset or malformed id. */
  function TransactionError(p: Processor): ValidationError
    requires !TransactionValid(p)
  {
    if !Truthy(p.transaction) then Required(Transaction) else Invalid(Transaction, p.transaction.value)
  }

  /** `void`, given what `_transaction` returned. */
  function VoidWith(d: TransactionData, t: Result<string, ValidationError>): (r: Build)
    ensures Holds(r.data, XType, Some("VOID"))
    ensures r.error.None? <==> t.Success?
    ensures t.Failure? ==> r.error == Some(t.error) && Agree(d, r.data, XTransId)
    ensures t.Success? ==> Holds(r.data, XTransId, Some(t.value)) && r.data.Keys == d.Keys + {XType, XTransId}
    ensures forall k :: k != XType && k != XTransId ==> Agree(d, r.data, k)
  {
    var d1 := d[XType := Some("VOID")];
    if t.Failure? then Build(d1, Some(t.error)) else Build(d1[XTransId := Some(t.value)], None)
  }

  /** `void`: `x_type` first, then the validated transaction id. */
  function Void(p: Processor, d: TransactionData): (r: Build)
    ensures Holds(r.data, XType, Some("VOID"))
    ensures r.error.None? <==> TransactionValid(p)
    ensures !TransactionValid(p) ==> r.error == Some(TransactionError(p)) && Agree(d, r.data, XTransId)
    ensures TransactionValid(p) ==> Holds(r.data, XTransId, p.transaction) && r.data.Keys == d.Keys + {XType, XTransId}
    ensures forall k :: k != XType && k != XTransId ==> Agree(d, r.data, k)
  {
    VoidWith(d, ValidateTransaction(p.transaction))
  }

  /** `amount` on `prior_auth_capture`: unset, or a float literal. */
  predicate PriorAmountValid(p: Processor) {
    Truthy(p.amount) ==> FloatSyntax.IsFloatLiteral(p.amount.value)
  }

  /** `prior_auth_capture`, given what `_transaction` returned, whether an
      amount is set, and what `_amount` returned. */
  function PriorCaptureWith(d: TransactionData, t: Result<string, ValidationError>,
                            amountSet: bool, a: Result<string, ValidationError>): (r: Build)
    ensures Holds(r.data, XType, Some("PRIOR_AUTH_CAPTURE"))
    ensures r.error.None? <==> t.Success? && (amountSet ==> a.Success?)
    ensures t.Failure? ==> r.error == Some(t.error) && Agree(d, r.data, XTransId)
    ensures t.Success? ==> Holds(r.data, XTransId, Some(t.value))
    ensures t.Success? && amountSet && a.Failure? ==> r.error == Some(a.error)
    ensures r.error.None? ==> Holds(r.data, BareAmount, if amountSet then Some(a.value) else None)
                              && r.data.Keys == d.Keys + {XType, XTransId, BareAmount}
    ensures r.error.Some? ==> Agree(d, r.data, BareAmount)
    ensures forall k :: k != XType && k != XTransId && k != BareAmount ==> Agree(d, r.data, k)
  {
    var d1 := d[XType := Some("PRIOR_AUTH_CAPTURE")];
    if t.Failure? then Build(d1, Some(t.error))
    else
      var d2 := d1[XTransId := Some(t.value)];
      if !amountSet then Build(d2[BareAmount := None], None)
      else if a.Failure? then Build(d2, Some(a.error))
      else Build(d2[BareAmount := Some(a.value)], None)
  }

  /** `prior_auth_capture`: `x_type` first, then the validated transaction id,
      then the key `amount` (not `x_amount`): the validated amount when one is
      set, Python's `None` otherwise. */
  function PriorAuthCapture(p: Processor, d: TransactionData): (r: Build)
    ensures Holds(r.data, XType, Some("PRIOR_AUTH_CAPTURE"))
    ensures r.error.None? <==> TransactionValid(p) && PriorAmountValid(p)
    ensures !TransactionValid(p) ==> r.error == Some(TransactionError(p)) && Agree(d, r.data, XTransId)
    ensures TransactionValid(p) ==> Holds(r.data, XTransId, p.transaction)
    ensures TransactionValid(p) && !PriorAmountValid(p) ==> r.error == Some(Invalid(Amount, p.amount.value))
    ensures r.error.None? ==> Holds(r.data, BareAmount, if Truthy(p.amount) then p.amount else None)
                              && r.data.Keys == d.Keys + {XType, XTransId, BareAmount}
    ensures r.error.Some? ==> Agree(d, r.data, BareAmount)
    ensures forall k :: k != XType && k != XTransId && k != BareAmount ==> Agree(d, r.data, k)
  {
    PriorCaptureWith(d, ValidateTransaction(p.transaction), Truthy(p.amount), ValidateAmount(p.amount))
  }

  /** The full card number is set and has 13 to 16 digits. */
  predicate CardNumValid(p: Processor) {
    Truthy(p.cardNum) && IsCardNumber(p.cardNum.value)
  }

  /** Every field `credit` validates has a valid value. */
  predicate CreditValid(p: Processor) {
    && TransactionValid(p)
    && CardNumValid(p)
    && Truthy(p.amount) && FloatSyntax.IsFloatLiteral(p.amount.value)
  }

  /** The error `credit` raises: the transaction id's, else the card number's,
      else the amount's. */
  function CreditError(p: Processor): ValidationError
    requires !CreditValid(p)
  {
    if !TransactionValid(p) then TransactionError(p)
    else if !Truthy(p.cardNum) then Required(CardNum)
    else if !IsCardNumber(p.cardNum.value) then Invalid(CardNum, p.cardNum.value)
    else if !Truthy(p.amount) then Required(Amount)
    else Invalid(Amount, p.amount.value)
  }

  /** `credit`, given what `_transaction`, `_card_num` and `_amount` returned:
      `x_type` first, then the three assignments, stopping at the first that
      raises. */
  function CreditWith(d: TransactionData, t: Result<string, ValidationError>,
                      c: Result<string, ValidationError>, a: Result<string, ValidationError>): (r: Build)
    ensures Holds(r.data, XType, Some("CREDIT"))
    ensures r.error.None? <==> t.Success? && c.Success? && a.Success?
    ensures r.error.Some? ==> r.error.value == if t.Failure? then t.error else if c.Failure? then c.error else a.error
    ensures t.Success? ==> Holds(r.data, XTransId, Some(t.value))
    ensures t.Failure? ==> Agree(d, r.data, XTransId)
    ensures t.Success? && c.Success? ==> Holds(r.data, XCardNum, Some(c.value))
    ensures t.Failure? || c.Failure? ==> Agree(d, r.data, XCardNum)
    ensures r.error.Some? ==> Agree(d, r.data, XAmount)
    ensures r.error.None? ==> && Holds(r.data, XTransId, Some(t.value))
                              && Holds(r.data, XCardNum, Some(c.value))
                              && Holds(r.data, XAmount, Some(a.value))
                              && r.data.Keys == d.Keys + {XType, XTransId, XCardNum, XAmount}
    ensures forall k :: k !in {XType, XTransId, XCardNum, XAmount} ==> Agree(d, r.data, k)
  {
    var d1 := d[XType := Some("CREDIT")];
    if t.Failure? then Build(d1, Some(t.error))
    else
      var d2 := d1[XTransId := Some(t.value)];
      if c.Failure? then Build(d2, Some(c.error))
      else
        var d3 := d2[XCardNum := Some(c.value)];
        if a.Failure? then Build(d3, Some(a.error))
        else Build(d3[XAmount := Some(a.value)], None)
  }

  /** `credit`: `x_type` first, then the transaction id, the full card number
      and the amount, each validated, stopping at the first that raises. */
  function Credit(p: Processor, d: TransactionData): (r: Build)
    ensures Holds(r.data, XType, Some("CREDIT"))
    ensures r.error.None? <==> CreditValid(p)
    ensures !CreditValid(p) ==> r.error == Some(CreditError(p))
    ensures TransactionValid(p) ==> Holds(r.data, XTransId, p.transaction)
    ensures !TransactionValid(p) ==> Agree(d, r.data, XTransId)
    ensures TransactionValid(p) && CardNumValid(p) ==> Holds(r.data, XCardNum, p.cardNum)
    ensures !TransactionValid(p) || !CardNumValid(p) ==> Agree(d, r.data, XCardNum)
    ensures !CreditValid(p) ==> Agree(d, r.data, XAmount)
    ensures CreditValid(p) ==> && Holds(r.data, XTransId, p.transaction)
                               && Holds(r.data, XCardNum, p.cardNum)
                               && Holds(r.data, XAmount, p.amount)
                               && r.data.Keys == d.Keys + {XType, XTransId, XCardNum, XAmount}
    ensures forall k :: k !in {XType, XTransId, XCardNum, XAmount} ==> Agree(d, r.data, k)
  {
    CreditWith(d, ValidateTransaction(p.transaction), ValidateCardNum(p.cardNum), ValidateAmount(p.amount))
  }

  // ---------------------------------------------------------------------
  // `process_void_or_credit`

  /** What `process_void_or_credit` returns: whether the gateway accepted the
      transaction it last submitted, and which kind that was. */
  datatype Outcome = Outcome(processed: bool, transactionType: string)

  /** The map left behind, and the outcome or the validation error raised. */
  datatype Submission = Submission(data: TransactionData, result: Result<Outcome, ValidationError>)

  /** `process_void_or_credit`: build a void and submit it; if the gateway
      refuses it, build a credit on top of the same map and submit that.
      `process` stands for the gateway round trip, deciding acceptance from
      the map submitted. */
  function ProcessVoidOrCredit(p: Processor, d: TransactionData, process: TransactionData -> bool): (r: Submission)
    ensures !TransactionValid(p) ==> r == Submission(Void(p, d).data, Failure(TransactionError(p)))
    ensures TransactionValid(p) && process(Void(p, d).data) ==>
              r == Submission(Void(p, d).data, Success(Outcome(true, "Void")))
    ensures TransactionValid(p) && !process(Void(p, d).data) ==>
              && r.data == Credit(p, Void(p, d).data).data
              && (r.result.Success? <==> CreditValid(p))
              && (!CreditValid(p) ==> r.result == Failure(CreditError(p)))
              && (CreditValid(p) ==> r.result == Success(Outcome(process(r.data), "Credit")))
    ensures r.result.Success? ==>
              && Holds(r.data, XTransId, p.transaction)
              && (r.result.value.transactionType == "Void" <==> Holds(r.data, XType, Some("VOID")))
              && (r.result.value.transactionType == "Credit" <==> Holds(r.data, XType, Some("CREDIT")))
  {
    var v := Void(p, d);
    if v.error.Some? then Submission(v.data, Failure(v.error.value))
    else if process(v.data) then Submission(v.data, Success(Outcome(true, "Void")))
    else
      var c := Credit(p, v.data);
      if c.error.Some? then Submission(c.data, Failure(c.error.value))
      else Submission(c.data, Success(Outcome(process(c.data), "Credit")))
  }
}
