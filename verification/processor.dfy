/** The state of a `PaymentProcessor` that the transaction builders read and
    write: the two feature flags, the optional transaction fields, and the
    `transaction_data` map, which `__init__` creates empty and nothing ever
    clears. A builder is a sequence of Python statements of the form
    `transaction_data[key] = validator()`; the first validator that raises
    ends the build, and the assignments already made stay in the map. */
module Processor {
  import opened Wrappers
  import opened Validators

  datatype Processor = Processor(
    isAvsRequired: bool,
    isCcvRequired: bool,
    transaction: Option<string>,
    cardNum: Option<string>,
    expDate: Option<string>,
    amount: Option<string>,
    cardCode: Option<string>,
    address: Option<string>,
    zip: Option<string>,
    invoiceNumber: Option<string>,
    firstName: Option<string>,
    lastName: Option<string>,
    customerId: Option<string>,
    description: Option<string>)

  /** The keys the builders write into `transaction_data`. Every one is a
      fixed string literal of the source, so the map is keyed by this
      enumeration and `WireName` gives the string; `BareAmount` is the bare
      `amount` key that only `prior_auth_capture` writes. */
  datatype Key =
    | XType | XTransId | XCardNum | XExpDate | XAmount | XAddress | XZip | XCardCode
    | XInvoiceNum | XFirstName | XLastName | XCustomerId | XDescription | BareAmount

  function WireName(k: Key): string {
    match k
    case XType => "x_type"
    case XTransId => "x_trans_id"
    case XCardNum => "x_card_num"
    case XExpDate => "x_exp_date"
    case XAmount => "x_amount"
    case XAddress => "x_address"
    case XZip => "x_zip"
    case XCardCode => "x_card_code"
    case XInvoiceNum => "x_invoice_num"
    case XFirstName => "x_first_name"
    case XLastName => "x_last_name"
    case XCustomerId => "x_customer_id"
    case XDescription => "x_description"
    case BareAmount => "amount"
  }

  /** Distinct keys have distinct wire names, so a map over `Key` is a map
      over the source's string keys. */
  lemma WireNameInjective(a: Key, b: Key)
    ensures WireName(a) == WireName(b) <==> a == b
  {
    var x, y := WireName(a), WireName(b);
    if a != b && |x| == |y| {
      assert x[2] != y[2] || x[3] != y[3];
    }
  }

  /** `transaction_data`: wire key to value. A value is `None` only where
      `prior_auth_capture` stores Python's `None`. */
  type TransactionData = map<Key, Option<string>>

  /** `transaction_data` as `__init__` leaves it. */
  const InitialData: TransactionData := map[]

  /** The map a builder leaves behind, and the error it raised, if any. */
  datatype Build = Build(data: TransactionData, error: Option<ValidationError>)

  /** One statement `transaction_data[key] = validator()`, with what the
      validator returned or raised. */
  datatype Assignment = Assignment(key: Key, result: Result<string, ValidationError>)

  /** `k` has the same entry (or the same absence) in both maps. */
  predicate Agree(d: TransactionData, d': TransactionData, k: Key) {
    (k in d <==> k in d') && (k in d ==> d[k] == d'[k])
  }

  /** Executes the assignments in order. A validator that raises stops the
      sequence before its own key is written. */
  function Run(d: TransactionData, steps: seq<Assignment>): Build
    decreases |steps|
  {
    if |steps| == 0 then Build(d, None)
    else match steps[0].result
      case Failure(e) => Build(d, Some(e))
      case Success(v) => Run(d[steps[0].key := Some(v)], steps[1..])
  }

  /** The index of the first assignment whose validator raises, or `|steps|`. */
  function FirstFailure(steps: seq<Assignment>): (f: nat)
    ensures f <= |steps|
    ensures forall i :: 0 <= i < f ==> steps[i].result.Success?
    ensures f < |steps| ==> steps[f].result.Failure?
  {
    if |steps| == 0 || steps[0].result.Failure? then 0 else 1 + FirstFailure(steps[1..])
  }

  predicate DistinctKeys(steps: seq<Assignment>) {
    forall i, j :: 0 <= i < j < |steps| ==> steps[i].key != steps[j].key
  }

  function KeysOf(steps: seq<Assignment>): set<Key> {
    set i | 0 <= i < |steps| :: steps[i].key
  }

  /** The keys of a concatenation are the keys of its parts. */
  lemma KeysOfConcat(s: seq<Assignment>, t: seq<Assignment>)
    ensures KeysOf(s + t) == KeysOf(s) + KeysOf(t)
  {
    forall k | k in KeysOf(s + t) ensures k in KeysOf(s) + KeysOf(t) {
      var i :| 0 <= i < |s + t| && (s + t)[i].key == k;
      if i < |s| {
        assert s[i].key == k;
      } else {
        assert t[i - |s|].key == k;
      }
    }
    forall k | k in KeysOf(s) + KeysOf(t) ensures k in KeysOf(s + t) {
      if k in KeysOf(s) {
        var i :| 0 <= i < |s| && s[i].key == k;
        assert (s + t)[i].key == k;
      } else {
        var i :| 0 <= i < |t| && t[i].key == k;
        assert (s + t)[|s| + i].key == k;
      }
    }
  }

  /** Fail-fast: the build raises the error of the first failing validator;
      every assignment before it is written with its validated value; no
      other key changes. With no failure, every assignment is written. */
  lemma {:induction false} RunFailFast(d: TransactionData, steps: seq<Assignment>)
    requires DistinctKeys(steps)
    ensures Run(d, steps).error
            == if FirstFailure(steps) < |steps| then Some(steps[FirstFailure(steps)].result.error) else None
    ensures forall i :: 0 <= i < FirstFailure(steps) ==>
              steps[i].key in Run(d, steps).data
              && Run(d, steps).data[steps[i].key] == Some(steps[i].result.value)
    ensures forall k :: k !in KeysOf(steps[..FirstFailure(steps)]) ==> Agree(d, Run(d, steps).data, k)
    decreases |steps|
  {
    if |steps| > 0 && steps[0].result.Success? {
      var d' := d[steps[0].key := Some(steps[0].result.value)];
      var rest := steps[1..];
      RunFailFast(d', rest);
      var f := FirstFailure(steps);
      assert FirstFailure(rest) == f - 1;
      assert KeysOf(steps[..f]) == {steps[0].key} + KeysOf(rest[..f - 1]) by {
        assert steps[..f] == [steps[0]] + rest[..f - 1];
        forall k | k in KeysOf(steps[..f]) ensures k in {steps[0].key} + KeysOf(rest[..f - 1]) {
          var i :| 0 <= i < f && steps[..f][i].key == k;
          if i > 0 {
            assert rest[..f - 1][i - 1].key == k;
          }
        }
        forall k | k in {steps[0].key} + KeysOf(rest[..f - 1]) ensures k in KeysOf(steps[..f]) {
          if k != steps[0].key {
            var i :| 0 <= i < f - 1 && rest[..f - 1][i].key == k;
            assert steps[..f][i + 1].key == k;
          } else {
            assert steps[..f][0].key == k;
          }
        }
      }
      forall i | 0 <= i < f
        ensures steps[i].key in Run(d, steps).data
        ensures Run(d, steps).data[steps[i].key] == Some(steps[i].result.value)
      {
        if i > 0 {
          assert steps[i] == rest[i - 1];
        } else {
          // later assignments use other keys, so the first one survives
          assert steps[0].key !in KeysOf(rest[..f - 1]);
        }
      }
    }
  }

  /** When no validator raises, the build succeeds having added exactly the
      assignments' keys, each with its validated value. */
  lemma RunAllPass(d: TransactionData, steps: seq<Assignment>)
    requires DistinctKeys(steps)
    requires FirstFailure(steps) == |steps|
    ensures Run(d, steps).error.None?
    ensures Run(d, steps).data.Keys == d.Keys + KeysOf(steps)
    ensures forall i :: 0 <= i < |steps| ==>
              steps[i].key in Run(d, steps).data
              && Run(d, steps).data[steps[i].key] == Some(steps[i].result.value)
    ensures forall k :: k !in KeysOf(steps) ==> Agree(d, Run(d, steps).data, k)
  {
    RunFailFast(d, steps);
    assert steps[..|steps|] == steps;
    var b := Run(d, steps);
    forall k | k in b.data ensures k in d || k in KeysOf(steps) {
      if k !in KeysOf(steps) {
        assert Agree(d, b.data, k);
      }
    }
    forall k | k in KeysOf(steps) ensures k in b.data {
      var i :| 0 <= i < |steps| && steps[i].key == k;
    }
  }
}
