/**
 What runs of the payments service guarantee, for any list of calls.
 */
module PaymentsTheorems {
  import opened Wrappers
  import opened Payments

  // ---------------------------------------------------------------------------------------------
  // Retries are invisible

  // Same operation, same non-empty key; nothing else about the calls need agree.
  predicate Repeats(a: Call, b: Call) {
    && Usable(a.key) && a.key == b.key
    && a.Authorize? == b.Authorize? && a.Capture? == b.Capture? && a.Refund? == b.Refund?
  }

  ghost predicate IsRetry(calls: seq<Call>, j: nat)
    requires j < |calls|
  {
    exists i :: 0 <= i < j && Repeats(calls[i], calls[j])
  }

  // The calls left when every later reuse of an (operation, key) pair seen before is dropped.
  ghost function WithoutRetries(calls: seq<Call>): seq<Call> {
    if calls == [] then []
    else
      var last := |calls| - 1;
      WithoutRetries(calls[..last]) + if IsRetry(calls, last) then [] else [calls[last]]
  }

  lemma {:induction false} AfterAppend(t: Ledger, a: seq<Call>, b: seq<Call>)
    ensures After(t, a + b) == After(After(t, a), b)
    ensures Answers(t, a + b) == Answers(t, a) + Answers(After(t, a), b)
    decreases |a|
  {
    if a == [] {
      assert a + b == b;
    } else {
      AfterAppend(Perform(t, a[0]).0, a[1..], b);
      assert (a + b)[1..] == a[1..] + b;
    }
  }

  // An answer on record stays on record, unchanged.
  lemma PerformKeepsRecords(t: Ledger, call: Call, other: Call)
    requires Recorded(t, other).Some?
    ensures Recorded(Perform(t, call).0, other) == Recorded(t, other)
  {
  }

  lemma PerformRecords(t: Ledger, call: Call, retry: Call)
    requires Repeats(call, retry)
    ensures Recorded(Perform(t, call).0, retry) == Some(Perform(t, call).1)
  {
  }

  lemma {:induction false} RecordsStay(t: Ledger, calls: seq<Call>, other: Call)
    requires Recorded(t, other).Some?
    ensures Recorded(After(t, calls), other) == Recorded(t, other)
    decreases |calls|
  {
    if calls != [] {
      PerformKeepsRecords(t, calls[0], other);
      RecordsStay(Perform(t, calls[0]).0, calls[1..], other);
    }
  }

  lemma AnswerAt(t: Ledger, calls: seq<Call>, i: nat)
    requires i < |calls|
    ensures Answers(t, calls)[i] == Perform(After(t, calls[..i]), calls[i]).1
    ensures After(t, calls[..i + 1]) == Perform(After(t, calls[..i]), calls[i]).0
  {
    assert calls == calls[..i] + calls[i..];
    AfterAppend(t, calls[..i], calls[i..]);
    assert calls[..i + 1] == calls[..i] + [calls[i]];
    AfterAppend(t, calls[..i], [calls[i]]);
    assert After(After(t, calls[..i]), [calls[i]]) == Perform(After(t, calls[..i]), calls[i]).0;
  }

  /** A retry is answered as its first occurrence was and changes nothing, whatever happened in between and
      whatever else the retry asks for. */
  lemma RetryAnswersAlike(t: Ledger, calls: seq<Call>, i: nat, j: nat)
    requires i < j < |calls| && Repeats(calls[i], calls[j])
    ensures Answers(t, calls)[j] == Answers(t, calls)[i]
    ensures After(t, calls[..j + 1]) == After(t, calls[..j])
  {
    AnswerAt(t, calls, i);
    AnswerAt(t, calls, j);
    var mid := After(t, calls[..i + 1]);
    PerformRecords(After(t, calls[..i]), calls[i], calls[j]);
    assert calls[..j] == calls[..i + 1] + calls[i + 1..j];
    AfterAppend(t, calls[..i + 1], calls[i + 1..j]);
    RecordsStay(mid, calls[i + 1..j], calls[j]);
  }

  /** Any list of calls leaves the payments and all three caches exactly as the list without its retries does. */
  lemma {:induction false} RetriesAreInvisible(t: Ledger, calls: seq<Call>)
    ensures After(t, calls) == After(t, WithoutRetries(calls))
    decreases |calls|
  {
    if calls != [] {
      var last := |calls| - 1;
      RetriesAreInvisible(t, calls[..last]);
      AnswerAt(t, calls, last);
      assert calls[..last + 1] == calls;
      if i :| 0 <= i < last && Repeats(calls[i], calls[last]) {
        RetryAnswersAlike(t, calls, i, last);
        assert WithoutRetries(calls) == WithoutRetries(calls[..last]);
      } else {
        AfterAppend(t, WithoutRetries(calls[..last]), [calls[last]]);
        assert After(After(t, calls[..last]), [calls[last]]) == Perform(After(t, calls[..last]), calls[last]).0;
      }
    }
  }

  // ---------------------------------------------------------------------------------------------
  // Life cycle

  function Stage(status: Status): nat {
    match status
    case Authorized => 1
    case Captured => 2
    case Refunded => 3
    case Failed => 0
    case Unspecified => 0
  }

  // randomUUID never repeats itself: the ids a list of calls draws are new and pairwise different.
  ghost predicate DrawsFreshIds(t: Ledger, calls: seq<Call>) {
    && (forall i :: 0 <= i < |calls| && calls[i].Authorize? ==> calls[i].drawn !in t.payments)
    && (forall i, j :: 0 <= i < j < |calls| && calls[i].Authorize? && calls[j].Authorize? ==>
          calls[i].drawn != calls[j].drawn)
  }

  predicate HasReached(t: Ledger, p: PaymentId, target: Status) {
    p in t.payments && Stage(t.payments[p].status) >= Stage(target)
  }

  ghost predicate SomeReached(t: Ledger, target: Status) {
    exists p :: HasReached(t, p, target)
  }

  // What a recorded ok answer promises about the payments.
  ghost predicate RecordsTrue(t: Ledger) {
    && (forall p :: p in t.payments ==> HasReached(t, p, Authorized))
    && (forall k :: k in t.authorized ==> t.authorized[k] in t.payments)
    && (forall k :: k in t.captures && IsOk(t.captures[k]) ==> SomeReached(t, Captured))
    && (forall k :: k in t.refunds && IsOk(t.refunds[k]) ==> SomeReached(t, Refunded))
  }

  predicate OnlyForward(t: Ledger, t': Ledger) {
    forall p :: p in t.payments ==>
      && p in t'.payments
      && t'.payments[p] == t.payments[p].(status := t'.payments[p].status)
      && Stage(t.payments[p].status) <= Stage(t'.payments[p].status)
  }

  // The call that moves payment p, and where to.
  function Effect(t: Ledger, call: Call): Option<(PaymentId, Status)> {
    if Recorded(t, call).Some? then None
    else
      match call
      case Authorize(_, _, _, _, drawn) => Some((drawn, Authorized))
      case Capture(p, _) => if CaptureOutcome(t, p).JustCaptured? then Some((p, Captured)) else None
      case Refund(p, _) => if RefundOutcome(t, p).JustRefunded? then Some((p, Refunded)) else None
  }

  function CountEffects(t: Ledger, calls: seq<Call>, e: (PaymentId, Status)): nat
    decreases |calls|
  {
    if calls == [] then 0
    else (if Effect(t, calls[0]) == Some(e) then 1 else 0) + CountEffects(Perform(t, calls[0]).0, calls[1..], e)
  }

  lemma StepForward(t: Ledger, call: Call)
    requires call.Authorize? ==> call.drawn !in t.payments
    ensures OnlyForward(t, Perform(t, call).0)
  {
  }

  lemma ReachedStays(t: Ledger, t': Ledger, target: Status)
    requires OnlyForward(t, t') && SomeReached(t, target)
    ensures SomeReached(t', target)
  {
    var p :| HasReached(t, p, target);
    assert HasReached(t', p, target);
  }

  lemma OkMeansReached(t: Ledger, call: Call)
    requires Recorded(t, call).None? && !call.Authorize?
    requires Perform(t, call).1.Settled? && IsOk(Perform(t, call).1.outcome)
    ensures HasReached(Perform(t, call).0, call.payment, if call.Capture? then Captured else Refunded)
  {
  }

  lemma StepKeepsRecordsTrue(t: Ledger, call: Call)
    requires RecordsTrue(t) && (call.Authorize? ==> call.drawn !in t.payments)
    ensures RecordsTrue(Perform(t, call).0)
  {
    var t' := Perform(t, call).0;
    StepForward(t, call);
    forall k | k in t'.captures && IsOk(t'.captures[k]) ensures SomeReached(t', Captured) {
      if k in t.captures && t.captures[k] == t'.captures[k] {
        ReachedStays(t, t', Captured);
      } else {
        OkMeansReached(t, call);
      }
    }
    forall k | k in t'.refunds && IsOk(t'.refunds[k]) ensures SomeReached(t', Refunded) {
      if k in t.refunds && t.refunds[k] == t'.refunds[k] {
        ReachedStays(t, t', Refunded);
      } else {
        OkMeansReached(t, call);
      }
    }
  }

  lemma FreshIdsStep(t: Ledger, calls: seq<Call>)
    requires calls != [] && DrawsFreshIds(t, calls)
    ensures calls[0].Authorize? ==> calls[0].drawn !in t.payments
    ensures DrawsFreshIds(Perform(t, calls[0]).0, calls[1..])
  {
    var t' := Perform(t, calls[0]).0;
    forall i | 0 <= i < |calls[1..]| && calls[1..][i].Authorize? ensures calls[1..][i].drawn !in t'.payments {
      assert calls[1..][i] == calls[i + 1];
    }
  }

  /** Over any run payments are never lost and their status only moves forward; every ok answer on record is true
      of some payment. Answers are kept by key alone, so it need not be the payment a retry names. */
  lemma {:induction false} LifeCycle(t: Ledger, calls: seq<Call>)
    requires RecordsTrue(t) && DrawsFreshIds(t, calls)
    ensures OnlyForward(t, After(t, calls)) && RecordsTrue(After(t, calls))
    decreases |calls|
  {
    if calls != [] {
      FreshIdsStep(t, calls);
      StepForward(t, calls[0]);
      StepKeepsRecordsTrue(t, calls[0]);
      LifeCycle(Perform(t, calls[0]).0, calls[1..]);
    }
  }

  function Move(target: Status, p: PaymentId, key: Key): Call {
    if target.Refunded? then Call.Refund(p, key) else Call.Capture(p, key)
  }

  predicate TellsOk(a: Answer) {
    a.Settled? && IsOk(a.outcome)
  }

  // After a first-time ok for p under a fresh key, and any calls in between, asking for q under the same key.
  ghost predicate RetryTellsTruth(target: Status, p: PaymentId, q: PaymentId) {
    forall t, key, between: seq<Call> ::
      Usable(key) && Recorded(t, Move(target, p, key)).None? && TellsOk(Perform(t, Move(target, p, key)).1)
      && DrawsFreshIds(Perform(t, Move(target, p, key)).0, between) && RecordsTrue(t) ==>
        var later := After(Perform(t, Move(target, p, key)).0, between);
        TellsOk(Perform(later, Move(target, q, key)).1) && HasReached(later, q, target)
  }

  lemma MoveReaches(t: Ledger, p: PaymentId, key: Key, target: Status, between: seq<Call>)
    requires target.Captured? || target.Refunded?
    requires Usable(key) && Recorded(t, Move(target, p, key)).None? && TellsOk(Perform(t, Move(target, p, key)).1)
    requires RecordsTrue(t) && DrawsFreshIds(Perform(t, Move(target, p, key)).0, between)
    ensures var later := After(Perform(t, Move(target, p, key)).0, between);
            TellsOk(Perform(later, Move(target, p, key)).1) && HasReached(later, p, target)
  {
    var call := Move(target, p, key);
    var t1 := Perform(t, call).0;
    StepKeepsRecordsTrue(t, call);
    PerformRecords(t, call, call);
    RecordsStay(t1, between, call);
    LifeCycle(t1, between);
    assert HasReached(t1, p, target);
  }

  // A ledger of two authorized payments: moving the first answers for the second, which stays as it is.
  lemma RetryMayLie(p: PaymentId, q: PaymentId, target: Status)
    requires (target.Captured? || target.Refunded?) && p != q
    ensures !RetryTellsTruth(target, p, q)
  {
    var payment := Payment("", Authorized, "", "");
    var t := EMPTY.(payments := map[p := payment, q := payment]);
    var key := Some("k");
    assert RecordsTrue(t);
    var t1 := Perform(t, Move(target, p, key)).0;
    assert TellsOk(Perform(t, Move(target, p, key)).1) && After(t1, []) == t1;
    assert !HasReached(t1, q, target);
    assert DrawsFreshIds(t1, []);
  }

  /** Answers are cached by key alone: the ok a repeated capture (refund) gets is true of the payment it names, on
      every ledger and after whatever calls came between, if and only if it names the payment it named first. */
  lemma RetryIsTrueExactlyForItsPayment(p: PaymentId, q: PaymentId, target: Status)
    requires target.Captured? || target.Refunded?
    ensures RetryTellsTruth(target, p, q) <==> p == q
  {
    if p == q {
      forall t, key, between: seq<Call> |
        Usable(key) && Recorded(t, Move(target, p, key)).None? && TellsOk(Perform(t, Move(target, p, key)).1)
        && DrawsFreshIds(Perform(t, Move(target, p, key)).0, between) && RecordsTrue(t)
        ensures var later := After(Perform(t, Move(target, p, key)).0, between);
                TellsOk(Perform(later, Move(target, q, key)).1) && HasReached(later, q, target)
      {
        MoveReaches(t, p, key, target, between);
      }
    } else {
      RetryMayLie(p, q, target);
    }
  }

  // How many more times payment p can move to the given status.
  predicate CanStill(t: Ledger, e: (PaymentId, Status)) {
    e.0 in t.payments ==> Stage(t.payments[e.0].status) < Stage(e.1)
  }

  lemma EffectUsesUp(t: Ledger, call: Call, e: (PaymentId, Status))
    requires call.Authorize? ==> call.drawn !in t.payments
    ensures Effect(t, call) == Some(e) ==> CanStill(t, e) && !CanStill(Perform(t, call).0, e)
    ensures !CanStill(t, e) ==> !CanStill(Perform(t, call).0, e)
  {
  }

  /** Each payment is created once, captured at most once and refunded at most once, however many calls ask. */
  lemma {:induction false} EffectsHappenOnce(t: Ledger, calls: seq<Call>, e: (PaymentId, Status))
    requires DrawsFreshIds(t, calls)
    ensures CountEffects(t, calls, e) <= if CanStill(t, e) then 1 else 0
    decreases |calls|
  {
    if calls != [] {
      FreshIdsStep(t, calls);
      EffectUsesUp(t, calls[0], e);
      EffectsHappenOnce(Perform(t, calls[0]).0, calls[1..], e);
    }
  }

  // How many calls of a run create a payment under the given key.
  function CountCreations(t: Ledger, calls: seq<Call>, key: string): nat
    decreases |calls|
  {
    if calls == [] then 0
    else
      (if calls[0].Authorize? && calls[0].key == Some(key) && Recorded(t, calls[0]).None? then 1 else 0)
      + CountCreations(Perform(t, calls[0]).0, calls[1..], key)
  }

  /** A non-empty key creates at most one payment, and none once it is on record. */
  lemma {:induction false} KeyCreatesOnce(t: Ledger, calls: seq<Call>, key: string)
    requires key != ""
    ensures CountCreations(t, calls, key) <= if key in t.authorized then 0 else 1
    decreases |calls|
  {
    if calls != [] {
      KeyCreatesOnce(Perform(t, calls[0]).0, calls[1..], key);
    }
  }

  // ---------------------------------------------------------------------------------------------
  // What a call answers and does when its key has no answer on record yet

  predicate HasStatus(t: Ledger, p: PaymentId, status: Status) {
    p in t.payments && t.payments[p].status == status
  }

  // Only this payment's status changes, to the given one.
  predicate Becomes(t: Ledger, t': Ledger, p: PaymentId, status: Status) {
    && p in t.payments && p in t'.payments && t'.payments == t.payments[p := t'.payments[p]]
    && t'.payments[p] == Payment(t.payments[p].orderId, status, t.payments[p].amount, t.payments[p].currency)
  }

  predicate NewUnder<V>(cache: map<string, V>, key: Key) {
    key.None? || key.value == "" || key.value !in cache
  }

  /** A first-time authorize answers with the id it draws and creates just that payment, AUTHORIZED, with the call's
      order, amount and currency, on record under the key if there is one. */
  lemma AuthorizeIsExact(t: Ledger, orderId: string, amount: string, currency: string, key: Key, drawn: PaymentId)
    requires NewUnder(t.authorized, key)
    ensures var (t', a) := Perform(t, Call.Authorize(orderId, amount, currency, key, drawn));
            && a == PaymentIs(drawn) && HasStatus(t', drawn, Authorized)
            && t'.payments == t.payments[drawn := t'.payments[drawn]]
            && t'.payments[drawn].orderId == orderId && t'.payments[drawn].amount == amount
            && t'.payments[drawn].currency == currency
            && t'.authorized ==
               (if key.None? || key.value == "" then t.authorized else t.authorized[key.value := drawn])
            && t'.captures == t.captures && t'.refunds == t.refunds
  {
  }

  /** A capture is answered ok exactly for a payment that is AUTHORIZED or CAPTURED, which is CAPTURED afterwards; each
      refusal has its own status, and then no payment changes. */
  lemma CaptureIsExact(t: Ledger, p: PaymentId, key: Key)
    requires NewUnder(t.captures, key)
    ensures var (t', a) := Perform(t, Call.Capture(p, key));
            && (a == Settled(JustCaptured) <==> HasStatus(t, p, Authorized))
            && (a == Settled(AlreadyCaptured) <==> HasStatus(t, p, Captured))
            && (a == Settled(CannotCaptureRefunded) <==> HasStatus(t, p, Refunded))
            && (a == Settled(MustBeAuthorized) <==> HasStatus(t, p, Failed) || HasStatus(t, p, Unspecified))
            && (a == Settled(PaymentNotFound) <==> p !in t.payments)
            && (TellsOk(a) <==> HasStatus(t, p, Authorized) || HasStatus(t, p, Captured))
            && (if TellsOk(a) then Becomes(t, t', p, Captured) else t'.payments == t.payments)
            && t'.authorized == t.authorized && t'.refunds == t.refunds
  {
  }

  /** A refund is answered ok exactly for a payment that is AUTHORIZED, CAPTURED or REFUNDED, which is REFUNDED
      afterwards; each refusal has its own status, and then no payment changes. */
  lemma RefundIsExact(t: Ledger, p: PaymentId, key: Key)
    requires NewUnder(t.refunds, key)
    ensures var (t', a) := Perform(t, Call.Refund(p, key));
            && (a == Settled(JustRefunded) <==> HasStatus(t, p, Authorized) || HasStatus(t, p, Captured))
            && (a == Settled(AlreadyRefunded) <==> HasStatus(t, p, Refunded))
            && (a == Settled(MustBeAuthorizedOrCaptured) <==> HasStatus(t, p, Failed) || HasStatus(t, p, Unspecified))
            && (a == Settled(PaymentNotFound) <==> p !in t.payments)
            && (TellsOk(a) <==>
                  HasStatus(t, p, Authorized) || HasStatus(t, p, Captured) || HasStatus(t, p, Refunded))
            && (if TellsOk(a) then Becomes(t, t', p, Refunded) else t'.payments == t.payments)
            && t'.authorized == t.authorized && t'.captures == t.captures
  {
  }

  // ---------------------------------------------------------------------------------------------
  // The tables after any run, told from the calls alone

  lemma {:induction false} RecordedIffRepeats(calls: seq<Call>, n: nat, c: Call)
    requires n <= |calls|
    ensures Recorded(After(EMPTY, calls[..n]), c).Some? <==> exists i :: 0 <= i < n && Repeats(calls[i], c)
    decreases n
  {
    if n > 0 {
      RecordedIffRepeats(calls, n - 1, c);
      AnswerAt(EMPTY, calls, n - 1);
      var t := After(EMPTY, calls[..n - 1]);
      if Recorded(t, c).Some? { PerformKeepsRecords(t, calls[n - 1], c); }
      if Repeats(calls[n - 1], c) { PerformRecords(t, calls[n - 1], c); }
    }
  }

  // Call i is the first with its key, and creates payment p.
  ghost predicate Draws(calls: seq<Call>, i: nat, p: PaymentId) {
    i < |calls| && calls[i].Authorize? && calls[i].drawn == p && !IsRetry(calls, i)
  }

  ghost predicate Created(calls: seq<Call>, n: nat, p: PaymentId) {
    exists i: nat :: i < n && Draws(calls, i, p)
  }

  // Call i is the first with its key, and asks to move payment p, created before.
  ghost predicate AsksToMove(calls: seq<Call>, i: nat, p: PaymentId, target: Status) {
    i < |calls| && !calls[i].Authorize? && calls[i] == Move(target, p, calls[i].key) && !IsRetry(calls, i)
    && Created(calls, i, p)
  }

  ghost predicate MoveAsked(calls: seq<Call>, n: nat, p: PaymentId, target: Status) {
    exists i: nat :: i < n && AsksToMove(calls, i, p, target)
  }

  ghost function StatusTold(calls: seq<Call>, n: nat, p: PaymentId): Status {
    if MoveAsked(calls, n, p, Refunded) then Refunded
    else if MoveAsked(calls, n, p, Captured) then Captured
    else Authorized
  }

  // What the call at n adds to the history.
  lemma CreatedStep(calls: seq<Call>, n: nat, p: PaymentId)
    ensures Created(calls, n + 1, p) <==> Created(calls, n, p) || Draws(calls, n, p)
  {
  }

  lemma MoveAskedStep(calls: seq<Call>, n: nat, p: PaymentId, target: Status)
    ensures MoveAsked(calls, n + 1, p, target) <==> MoveAsked(calls, n, p, target) || AsksToMove(calls, n, p, target)
  {
  }

  // Exactly the payments drawn by a first-time authorize exist.
  lemma {:induction false} PaymentsAreHistory(calls: seq<Call>, n: nat, p: PaymentId)
    requires n <= |calls|
    ensures p in After(EMPTY, calls[..n]).payments <==> Created(calls, n, p)
    decreases n
  {
    if n > 0 {
      PaymentsAreHistory(calls, n - 1, p);
      AnswerAt(EMPTY, calls, n - 1);
      RecordedIffRepeats(calls, n - 1, calls[n - 1]);
      CreatedStep(calls, n - 1, p);
    }
  }

  lemma StatusToldAtFirst(calls: seq<Call>, n: nat, p: PaymentId)
    requires n < |calls| && DrawsFreshIds(EMPTY, calls) && Draws(calls, n, p)
    ensures StatusTold(calls, n + 1, p) == Authorized
  {
    NotMovedBeforeDrawn(calls, n, p);
    MoveAskedStep(calls, n, p, Refunded);
    MoveAskedStep(calls, n, p, Captured);
  }

  lemma StatusToldStep(calls: seq<Call>, n: nat, p: PaymentId)
    requires n < |calls| && DrawsFreshIds(EMPTY, calls) && Created(calls, n, p)
    ensures calls[n].Authorize? ==> calls[n].drawn != p
    ensures StatusTold(calls, n + 1, p) ==
            if IsRetry(calls, n) || calls[n].Authorize? || calls[n].payment != p then StatusTold(calls, n, p)
            else if calls[n].Refund? then Refunded
            else if StatusTold(calls, n, p) == Authorized then Captured
            else StatusTold(calls, n, p)
  {
    MoveAskedStep(calls, n, p, Refunded);
    MoveAskedStep(calls, n, p, Captured);
  }

  lemma StatusStep(t: Ledger, call: Call, p: PaymentId)
    requires HasReached(t, p, Authorized) && (call.Authorize? ==> call.drawn != p)
    ensures var (t', old') := (Perform(t, call).0, t.payments[p].status);
            && p in t'.payments
            && t'.payments[p].status ==
               if Recorded(t, call).Some? || call.Authorize? || call.payment != p then old'
               else if call.Refund? then Refunded
               else if old' == Authorized then Captured
               else old'
  {
  }

  /** After any calls, with ids drawn new: exactly the payments drawn by a first-time authorize exist; a payment is
      REFUNDED if a first-time refund asked for it since, else CAPTURED if a first-time capture did, else AUTHORIZED.
      First-time means: with no key, an empty one, or one no call of the same kind carried before. */
  lemma {:induction false} StatusIsHistory(calls: seq<Call>, n: nat, p: PaymentId)
    requires n <= |calls| && DrawsFreshIds(EMPTY, calls)
    ensures var t := After(EMPTY, calls[..n]);
            && (p in t.payments <==> Created(calls, n, p))
            && (p in t.payments ==> t.payments[p].status == StatusTold(calls, n, p))
    decreases n
  {
    PaymentsAreHistory(calls, n, p);
    if n > 0 {
      AnswerAt(EMPTY, calls, n - 1);
      RecordedIffRepeats(calls, n - 1, calls[n - 1]);
      CreatedStep(calls, n - 1, p);
      if Draws(calls, n - 1, p) {
        StatusToldAtFirst(calls, n - 1, p);
      } else if Created(calls, n, p) {
        StatusIsHistory(calls, n - 1, p);
        StatusToldStep(calls, n - 1, p);
        StatusStep(After(EMPTY, calls[..n - 1]), calls[n - 1], p);
      }
    }
  }

  predicate MadeBy(payment: Payment, call: Call) {
    && call.Authorize? && payment.orderId == call.orderId
    && payment.amount == call.amount && payment.currency == call.currency
  }

  /** And each payment keeps the order, amount and currency of the call that created it. */
  lemma {:induction false} DetailsAreHistory(calls: seq<Call>, i: nat, n: nat, p: PaymentId)
    requires i < n <= |calls| && DrawsFreshIds(EMPTY, calls) && Draws(calls, i, p)
    ensures p in After(EMPTY, calls[..n]).payments && MadeBy(After(EMPTY, calls[..n]).payments[p], calls[i])
    decreases n
  {
    AnswerAt(EMPTY, calls, n - 1);
    if i < n - 1 {
      DetailsAreHistory(calls, i, n - 1, p);
    } else {
      RecordedIffRepeats(calls, i, calls[i]);
    }
  }

  lemma NotMovedBeforeDrawn(calls: seq<Call>, n: nat, p: PaymentId)
    requires n < |calls| && DrawsFreshIds(EMPTY, calls) && Draws(calls, n, p)
    ensures !Created(calls, n, p) && !MoveAsked(calls, n, p, Refunded) && !MoveAsked(calls, n, p, Captured)
  {
  }

  // ---------------------------------------------------------------------------------------------
  // The simulated outage

  // Which of the calls fail, each with the gate the calls before it left.
  function Fails(gate: set<string>, asks: seq<Ask>): (r: seq<bool>)
    ensures |r| == |asks|
    decreases |asks|
  {
    if asks == [] then []
    else [asks[0].simulate && asks[0].orderId !in gate] + Fails(Gated(gate, asks[0]), asks[1..])
  }

  /** Over any list of calls, exactly the first one for each order that asks for the outage gets it. */
  lemma {:induction false} FirstAskFails(gate: set<string>, asks: seq<Ask>, j: nat)
    requires j < |asks|
    ensures Fails(gate, asks)[j] <==>
            && asks[j].simulate && asks[j].orderId !in gate
            && forall i :: 0 <= i < j && asks[i].simulate ==> asks[i].orderId != asks[j].orderId
    decreases |asks|
  {
    if j > 0 {
      FirstAskFails(Gated(gate, asks[0]), asks[1..], j - 1);
      assert forall i :: 0 < i < j ==> asks[i] == asks[1..][i - 1];
      assert forall i :: 0 <= i < j - 1 ==> asks[1..][i] == asks[i + 1];
    }
  }
}
