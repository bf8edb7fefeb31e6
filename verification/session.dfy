/** A `PaymentProcessor` object lives across calls: its `transaction_data` map
    is created once and every builder call writes into the same map, whether
    the previous call succeeded or raised. This module shows what that map can
    hold at any point of such a session: a validated key holds a value its
    validator accepts, `x_type` holds a builder's type name, a copied metadata
    key holds a non-empty string, the bare `amount` key holds an accepted
    amount or `None`, and no key is ever removed. */
module Session {
  import opened Wrappers
  import opened Validators
  import opened Processor
  import opened Transactions
  import FloatSyntax

  /** The builder names that `x_type` takes. */
  predicate IsTransactionType(t: string) {
    t in {"AUTH_ONLY", "AUTH_CAPTURE", "PRIOR_AUTH_CAPTURE", "VOID", "CREDIT"}
  }

  /** What a builder can have stored under `k`: a value accepted by the
      validator guarding that key, a copied metadata field that is set, and
      for the bare `amount` key also Python's `None`. */
  predicate ValidValue(k: Key, v: Option<string>) {
    match k
    case XType => v.Some? && IsTransactionType(v.value)
    case XTransId => v.Some? && IsTransactionId(v.value)
    case XCardNum => v.Some? && IsCardNumber(v.value)
    case XExpDate => v.Some? && IsExpDate(v.value)
    case XAmount => v.Some? && FloatSyntax.IsFloatLiteral(v.value)
    case XAddress => v.Some? && IsAddress(v.value)
    case XZip => v.Some? && IsZipCode(v.value)
    case XCardCode => v.Some? && IsCardCode(v.value)
    case BareAmount => v.None? || FloatSyntax.IsFloatLiteral(v.value)
    case _ => Truthy(v)
  }

  /** Every entry of the map is one a builder could have written. */
  predicate WellFormed(d: TransactionData) {
    forall k :: k in d ==> ValidValue(k, d[k])
  }

  /** Assignments whose successful validators all produce valid values. */
  predicate StepsValid(steps: seq<Assignment>) {
    forall i :: 0 <= i < |steps| && steps[i].result.Success? ==>
      ValidValue(steps[i].key, Some(steps[i].result.value))
  }

  /** A fail-fast run of valid assignments keeps the map well formed, however
      far it gets. */
  lemma {:induction false} RunPreserves(d: TransactionData, steps: seq<Assignment>)
    requires WellFormed(d) && StepsValid(steps)
    ensures WellFormed(Run(d, steps).data)
    decreases |steps|
  {
    if |steps| > 0 && steps[0].result.Success? {
      var d' := d[steps[0].key := Some(steps[0].result.value)];
      assert ValidValue(steps[0].key, Some(steps[0].result.value));
      assert StepsValid(steps[1..]) by {
        forall i | 0 <= i < |steps[1..]| && steps[1..][i].result.Success?
          ensures ValidValue(steps[1..][i].key, Some(steps[1..][i].result.value))
        {
          assert steps[1..][i] == steps[i + 1];
        }
      }
      RunPreserves(d', steps[1..]);
    }
  }

  /** Every validator `_auth` calls returns only values valid for its key. */
  lemma AuthStepsProduceValid(p: Processor)
    ensures StepsValid(AuthSteps(p))
  {
    var steps := AuthSteps(p);
    AuthStepsShape(p);
    forall i | 0 <= i < |steps| && steps[i].result.Success?
      ensures ValidValue(steps[i].key, Some(steps[i].result.value))
    {
      var avs := if p.isAvsRequired then 2 else 0;
      if i == 0 {
        assert steps[i] == Assignment(XCardNum, ValidateCardNum(p.cardNum));
      } else if i == 1 {
        assert steps[i] == Assignment(XExpDate, ValidateExpDate(p.expDate));
      } else if i == 2 {
        assert steps[i] == Assignment(XAmount, ValidateAmount(p.amount));
      } else if i == 3 && p.isAvsRequired {
        assert steps[i] == Assignment(XAddress, ValidateAddress(p.address));
      } else if i == 4 && p.isAvsRequired {
        assert steps[i] == Assignment(XZip, ValidateZip(p.zip));
      } else {
        assert i == 3 + avs && p.isCcvRequired;
        assert steps[i] == Assignment(XCardCode, ValidateCardCode(p.cardCode));
      }
    }
  }

  /** The metadata copies keep the map well formed. */
  lemma CopyMetadataPreserves(d: TransactionData, p: Processor)
    requires WellFormed(d)
    ensures WellFormed(CopyMetadata(d, p))
  {
  }

  /** `_auth` keeps the map well formed, whether it succeeds or raises. */
  lemma AuthPreserves(p: Processor, d: TransactionData)
    requires WellFormed(d)
    ensures WellFormed(Auth(p, d).data)
  {
    AuthStepsProduceValid(p);
    RunPreserves(d, AuthSteps(p));
    CopyMetadataPreserves(Run(d, AuthSteps(p)).data, p);
  }

  /** `auth_only` and `auth_and_capture` keep the map well formed. */
  lemma TypedAuthPreserves(p: Processor, d: TransactionData, kind: string)
    requires WellFormed(d) && IsTransactionType(kind)
    ensures WellFormed(TypedAuth(p, d, kind).data)
  {
    AuthPreserves(p, d);
  }

  /** `void` keeps the map well formed. */
  lemma VoidPreserves(p: Processor, d: TransactionData)
    requires WellFormed(d)
    ensures WellFormed(Void(p, d).data)
  {
    var r := Void(p, d);
    forall k | k in r.data ensures ValidValue(k, r.data[k]) {
      if k != XType && k != XTransId {
        assert Agree(d, r.data, k);
      }
    }
  }

  /** `prior_auth_capture` keeps the map well formed. */
  lemma PriorAuthCapturePreserves(p: Processor, d: TransactionData)
    requires WellFormed(d)
    ensures WellFormed(PriorAuthCapture(p, d).data)
  {
    var r := PriorAuthCapture(p, d);
    forall k | k in r.data ensures ValidValue(k, r.data[k]) {
      if k != XType && k != XTransId && k != BareAmount {
        assert Agree(d, r.data, k);
      }
    }
  }

  /** `credit` keeps the map well formed, however far it gets. */
  lemma CreditPreserves(p: Processor, d: TransactionData)
    requires WellFormed(d)
    ensures WellFormed(Credit(p, d).data)
  {
    var r := Credit(p, d);
    forall k | k in r.data ensures ValidValue(k, r.data[k]) {
      if k !in {XType, XTransId, XCardNum, XAmount} {
        assert Agree(d, r.data, k);
      }
    }
  }

  /** `process_void_or_credit` keeps the map well formed, whatever the
      gateway answers. */
  lemma ProcessVoidOrCreditPreserves(p: Processor, d: TransactionData, process: TransactionData -> bool)
    requires WellFormed(d)
    ensures WellFormed(ProcessVoidOrCredit(p, d, process).data)
  {
    VoidPreserves(p, d);
    CreditPreserves(p, Void(p, d).data);
  }

  // ---------------------------------------------------------------------
  // Sessions of several calls

  /** The builder methods a caller can invoke. */
  datatype Operation = AuthOnlyOp | AuthAndCaptureOp | PriorAuthCaptureOp | VoidOp | CreditOp

  /** One builder call on the current map. */
  function Perform(p: Processor, d: TransactionData, op: Operation): Build {
    match op
    case AuthOnlyOp => AuthOnly(p, d)
    case AuthAndCaptureOp => AuthAndCapture(p, d)
    case PriorAuthCaptureOp => PriorAuthCapture(p, d)
    case VoidOp => Void(p, d)
    case CreditOp => Credit(p, d)
  }

  /** One call of a session: the processor's fields at the time, and the
      builder invoked. */
  datatype Call = Call(processor: Processor, op: Operation)

  /** The map after a sequence of calls on one object. A call that raises
      leaves its partial writes behind and the next call continues from
      them, because the map is never reset. */
  function Replay(d: TransactionData, calls: seq<Call>): TransactionData
    decreases |calls|
  {
    if |calls| == 0 then d
    else Replay(Perform(calls[0].processor, d, calls[0].op).data, calls[1..])
  }

  /** Every builder call keeps the map well formed. */
  lemma PerformPreserves(p: Processor, d: TransactionData, op: Operation)
    requires WellFormed(d)
    ensures WellFormed(Perform(p, d, op).data)
  {
    match op
    case AuthOnlyOp => TypedAuthPreserves(p, d, "AUTH_ONLY");
    case AuthAndCaptureOp => TypedAuthPreserves(p, d, "AUTH_CAPTURE");
    case PriorAuthCaptureOp => PriorAuthCapturePreserves(p, d);
    case VoidOp => VoidPreserves(p, d);
    case CreditOp => CreditPreserves(p, d);
  }

  /** No builder call removes a key. */
  lemma PerformKeepsKeys(p: Processor, d: TransactionData, op: Operation)
    ensures d.Keys <= Perform(p, d, op).data.Keys
  {
    match op
    case AuthOnlyOp => AuthKeepsKeys(p, d);
    case AuthAndCaptureOp => AuthKeepsKeys(p, d);
    case PriorAuthCaptureOp => PriorAuthCaptureKeepsKeys(p, d);
    case VoidOp => VoidKeepsKeys(p, d);
    case CreditOp => CreditKeepsKeys(p, d);
  }

  lemma VoidKeepsKeys(p: Processor, d: TransactionData)
    ensures d.Keys <= Void(p, d).data.Keys
  {
    var r := Void(p, d);
    forall k | k in d ensures k in r.data {
      if k != XType && k != XTransId { assert Agree(d, r.data, k); }
    }
  }

  lemma PriorAuthCaptureKeepsKeys(p: Processor, d: TransactionData)
    ensures d.Keys <= PriorAuthCapture(p, d).data.Keys
  {
    var r := PriorAuthCapture(p, d);
    forall k | k in d ensures k in r.data {
      if k != XType && k != XTransId && k != BareAmount { assert Agree(d, r.data, k); }
    }
  }

  lemma CreditKeepsKeys(p: Processor, d: TransactionData)
    ensures d.Keys <= Credit(p, d).data.Keys
  {
    var r := Credit(p, d);
    forall k | k in d ensures k in r.data {
      if k !in {XType, XTransId, XCardNum, XAmount} { assert Agree(d, r.data, k); }
    }
  }

  /** `_auth` removes no key, even when it raises. */
  lemma AuthKeepsKeys(p: Processor, d: TransactionData)
    ensures d.Keys <= Auth(p, d).data.Keys
  {
    var steps := AuthSteps(p);
    AuthStepsKeys(p);
    RunKeepsKeys(d, steps);
    CopyMetadataEffect(Run(d, steps).data, p);
  }

  /** A run of assignments only adds or overwrites keys. */
  lemma {:induction false} RunKeepsKeys(d: TransactionData, steps: seq<Assignment>)
    ensures d.Keys <= Run(d, steps).data.Keys
    decreases |steps|
  {
    if |steps| > 0 && steps[0].result.Success? {
      RunKeepsKeys(d[steps[0].key := Some(steps[0].result.value)], steps[1..]);
    }
  }

  /** Whatever sequence of calls a session makes on a well-formed map, the
      map stays well formed (validated keys hold values their validator
      accepts, `x_type` a builder's type name, metadata keys non-empty
      strings) and every earlier key stays. */
  lemma {:induction false} ReplayWellFormed(d: TransactionData, calls: seq<Call>)
    requires WellFormed(d)
    ensures WellFormed(Replay(d, calls))
    ensures d.Keys <= Replay(d, calls).Keys
    decreases |calls|
  {
    if |calls| > 0 {
      var d' := Perform(calls[0].processor, d, calls[0].op).data;
      PerformPreserves(calls[0].processor, d, calls[0].op);
      PerformKeepsKeys(calls[0].processor, d, calls[0].op);
      ReplayWellFormed(d', calls[1..]);
    }
  }

  /** A session started on the empty map `__init__` creates: validated keys
      only ever hold values their validator accepts, `x_type` only a builder's
      type name, and metadata keys only non-empty strings. */
  lemma FreshSessionWellFormed(calls: seq<Call>)
    ensures WellFormed(Replay(InitialData, calls))
  {
    ReplayWellFormed(InitialData, calls);
  }
}
