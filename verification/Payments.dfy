/**
 The payments service (src/payments-service/payments.service.ts): the in-memory tables, the operations as a
 function of them, and the class that updates them in place.
 */
module Payments {
  import opened Wrappers

  type PaymentId = nat
  type Key = Option<string>  // an optional idempotency key

  datatype Status = Authorized | Captured | Refunded | Failed | Unspecified

  datatype Payment = Payment(orderId: string, status: Status, amount: string, currency: string)

  // One case per message the source answers.
  datatype Outcome =
    | JustCaptured | AlreadyCaptured | JustRefunded | AlreadyRefunded
    | PaymentNotFound | CannotCaptureRefunded | MustBeAuthorized | MustBeAuthorizedOrCaptured

  predicate IsOk(outcome: Outcome) {
    outcome.JustCaptured? || outcome.AlreadyCaptured? || outcome.JustRefunded? || outcome.AlreadyRefunded?
  }

  datatype Ledger = Ledger(
    payments: map<PaymentId, Payment>,
    authorized: map<string, PaymentId>,
    captures: map<string, Outcome>,
    refunds: map<string, Outcome>)

  // drawn: the id randomUUID would return if this call asked for one.
  datatype Call =
    | Authorize(orderId: string, amount: string, currency: string, key: Key, drawn: PaymentId)
    | Capture(payment: PaymentId, key: Key)
    | Refund(payment: PaymentId, key: Key)

  datatype Answer = PaymentIs(id: PaymentId) | Settled(outcome: Outcome)

  // The source's `if (idempotencyKey)`: an empty key is no key.
  predicate Usable(key: Key) {
    key.Some? && key.value != ""
  }

  function CaptureOutcome(t: Ledger, p: PaymentId): Outcome {
    if p !in t.payments then PaymentNotFound
    else if t.payments[p].status.Refunded? then CannotCaptureRefunded
    else if t.payments[p].status.Captured? then AlreadyCaptured
    else if !t.payments[p].status.Authorized? then MustBeAuthorized
    else JustCaptured
  }

  function RefundOutcome(t: Ledger, p: PaymentId): Outcome {
    if p !in t.payments then PaymentNotFound
    else if t.payments[p].status.Refunded? then AlreadyRefunded
    else if !t.payments[p].status.Authorized? && !t.payments[p].status.Captured? then MustBeAuthorizedOrCaptured
    else JustRefunded
  }

  function SetStatus(t: Ledger, p: PaymentId, status: Status): map<PaymentId, Payment>
    requires p in t.payments
  {
    t.payments[p := t.payments[p].(status := status)]
  }

  function Remember<V>(cache: map<string, V>, key: Key, v: V): map<string, V> {
    if Usable(key) then cache[key.value := v] else cache
  }

  // The answer on record for this call's operation and key, if any.
  function Recorded(t: Ledger, call: Call): Option<Answer> {
    if !Usable(call.key) then None
    else
      match call
      case Authorize(_, _, _, key, _) =>
        if key.value in t.authorized then Some(PaymentIs(t.authorized[key.value])) else None
      case Capture(_, key) => if key.value in t.captures then Some(Settled(t.captures[key.value])) else None
      case Refund(_, key) => if key.value in t.refunds then Some(Settled(t.refunds[key.value])) else None
  }

  function Perform(t: Ledger, call: Call): (Ledger, Answer) {
    if Recorded(t, call).Some? then (t, Recorded(t, call).value)
    else
      match call
      case Authorize(orderId, amount, currency, key, drawn) =>
        (t.(payments := t.payments[drawn := Payment(orderId, Authorized, amount, currency)],
            authorized := Remember(t.authorized, key, drawn)),
         PaymentIs(drawn))
      case Capture(p, key) =>
        var outcome := CaptureOutcome(t, p);
        (t.(payments := if outcome.JustCaptured? then SetStatus(t, p, Captured) else t.payments,
            captures := Remember(t.captures, key, outcome)),
         Settled(outcome))
      case Refund(p, key) =>
        var outcome := RefundOutcome(t, p);
        (t.(payments := if outcome.JustRefunded? then SetStatus(t, p, Refunded) else t.payments,
            refunds := Remember(t.refunds, key, outcome)),
         Settled(outcome))
  }

  const EMPTY := Ledger(map[], map[], map[], map[])

  // Run a list of calls; Answers lists what each was told.
  function After(t: Ledger, calls: seq<Call>): Ledger
    decreases |calls|
  {
    if calls == [] then t else After(Perform(t, calls[0]).0, calls[1..])
  }

  function Answers(t: Ledger, calls: seq<Call>): (r: seq<Answer>)
    ensures |r| == |calls|
    decreases |calls|
  {
    if calls == [] then [] else [Perform(t, calls[0]).1] + Answers(Perform(t, calls[0]).0, calls[1..])
  }

  // One call of shouldFailTransient.
  datatype Ask = Ask(orderId: string, simulate: bool)

  function Gated(gate: set<string>, ask: Ask): set<string> {
    if ask.simulate then gate + {ask.orderId} else gate
  }

  class PaymentsService {
    var paymentsById: map<PaymentId, Payment>
    var authorizeResults: map<string, PaymentId>
    var captureResults: map<string, Outcome>
    var refundResults: map<string, Outcome>
    var transientFailOnceGate: set<string>

    constructor ()
      ensures Tables() == EMPTY && transientFailOnceGate == {}
    {
      paymentsById, authorizeResults, captureResults, refundResults := map[], map[], map[], map[];
      transientFailOnceGate := {};
    }

    function Tables(): Ledger
      reads this
    {
      Ledger(paymentsById, authorizeResults, captureResults, refundResults)
    }

    method Authorize(orderId: string, amount: string, currency: string, key: Key, drawn: PaymentId)
      returns (id: PaymentId)
      modifies this`paymentsById, this`authorizeResults
      ensures (Tables(), PaymentIs(id)) == Perform(old(Tables()), Call.Authorize(orderId, amount, currency, key, drawn))
    {
      if Usable(key) && key.value in authorizeResults {
        return authorizeResults[key.value];
      }
      id := drawn;
      paymentsById := paymentsById[id := Payment(orderId, Authorized, amount, currency)];
      if Usable(key) {
        authorizeResults := authorizeResults[key.value := id];
      }
    }

    method Capture(p: PaymentId, key: Key) returns (outcome: Outcome)
      modifies this`paymentsById, this`captureResults
      ensures (Tables(), Settled(outcome)) == Perform(old(Tables()), Call.Capture(p, key))
    {
      if Usable(key) && key.value in captureResults {
        return captureResults[key.value];
      }
      if p !in paymentsById {
        outcome := PaymentNotFound;
      } else if paymentsById[p].status == Refunded {
        outcome := CannotCaptureRefunded;
      } else if paymentsById[p].status == Captured {
        outcome := AlreadyCaptured;
      } else if paymentsById[p].status != Authorized {
        outcome := MustBeAuthorized;
      } else {
        paymentsById := paymentsById[p := paymentsById[p].(status := Captured)];
        outcome := JustCaptured;
      }
      if Usable(key) {
        captureResults := captureResults[key.value := outcome];
      }
    }

    method Refund(p: PaymentId, key: Key) returns (outcome: Outcome)
      modifies this`paymentsById, this`refundResults
      ensures (Tables(), Settled(outcome)) == Perform(old(Tables()), Call.Refund(p, key))
    {
      if Usable(key) && key.value in refundResults {
        return refundResults[key.value];
      }
      if p !in paymentsById {
        outcome := PaymentNotFound;
      } else if paymentsById[p].status == Refunded {
        outcome := AlreadyRefunded;
      } else if paymentsById[p].status != Authorized && paymentsById[p].status != Captured {
        outcome := MustBeAuthorizedOrCaptured;
      } else {
        paymentsById := paymentsById[p := paymentsById[p].(status := Refunded)];
        outcome := JustRefunded;
      }
      if Usable(key) {
        refundResults := refundResults[key.value := outcome];
      }
    }

    method GetStatus(p: PaymentId) returns (status: Option<Status>)
      ensures status == if p in paymentsById then Some(paymentsById[p].status) else None
    {
      status := if p in paymentsById then Some(paymentsById[p].status) else None;
    }

    /** The simulated outage; FirstAskFails in PaymentsTheorems has what a run of these calls amounts to. */
    method ShouldFailTransient(orderId: string, simulate: bool) returns (fail: bool)
      modifies this`transientFailOnceGate
      ensures fail == (simulate && orderId !in old(transientFailOnceGate))
      ensures transientFailOnceGate == Gated(old(transientFailOnceGate), Ask(orderId, simulate))
    {
      if !simulate || orderId in transientFailOnceGate {
        return false;
      }
      transientFailOnceGate := transientFailOnceGate + {orderId};
      return true;
    }
  }
}
