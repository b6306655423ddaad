/**
 Authorizing a payment over a lossy RPC: the server end (src/payments-service/payments.grpc.controller.ts,
 lines 14-67) and the client's bounded retry loop (src/orders/payments-grpc.client.ts, lines 82-121), with other
 clients' calls reaching the server between attempts.
 */
module PaymentsRpc {
  import opened Payments
  import opened PaymentsTheorems
  import Backoff

  datatype Code = InvalidArgument | Unavailable | DeadlineExceeded | TimedOut | OtherCode

  datatype Reply = Paid(id: PaymentId) | Error(code: Code)

  // amountValue is what Number(amount) yields.
  datatype Request = Request(
    orderId: string, amount: string, amountValue: Backoff.Setting, currency: string, key: Key, simulateOutage: bool)

  datatype Server = Server(ledger: Ledger, gate: set<string>)

  predicate IsCurrency(s: string) {
    |s| == 3 && forall i :: 0 <= i < 3 ==> 'A' <= s[i] <= 'Z'
  }

  predicate WellFormed(req: Request) {
    req.orderId != "" && req.amountValue.Numeric? && req.amountValue.value > 0.0 && IsCurrency(req.currency)
  }

  function AsCall(req: Request, drawn: PaymentId): Call {
    Call.Authorize(req.orderId, req.amount, req.currency, req.key, drawn)
  }

  predicate Reaches(server: Server, req: Request) {
    WellFormed(req) && !(req.simulateOutage && req.orderId !in server.gate)
  }

  function Serve(server: Server, req: Request, drawn: PaymentId): (Server, Reply) {
    if !WellFormed(req) then (server, Error(InvalidArgument))
    else if !Reaches(server, req) then (server.(gate := server.gate + {req.orderId}), Error(Unavailable))
    else
      var (ledger, answer) := Perform(server.ledger, AsCall(req, drawn));
      (server.(ledger := ledger), if answer.PaymentIs? then Paid(answer.id) else Error(OtherCode))
  }

  // What the network does to one attempt; the code is what the client sees.
  datatype Network = Delivered | RequestLost(code: Code) | ReplyLost(code: Code)

  // others: calls of other clients served since the previous attempt.
  datatype Fate = Fate(others: seq<Call>, drawn: PaymentId, network: Network)

  function Attempt(server: Server, req: Request, fate: Fate): (Server, Reply) {
    var now := server.(ledger := After(server.ledger, fate.others));
    match fate.network
    case RequestLost(code) => (now, Error(code))
    case Delivered => Serve(now, req, fate.drawn)
    case ReplyLost(code) => (Serve(now, req, fate.drawn).0, Error(code))
  }

  predicate IsTransient(reply: Reply) {
    reply == Error(Unavailable)
  }

  // The retry loop: final server state, what the caller is told, number of requests sent.
  function AuthorizeWithRetry(server: Server, req: Request, retries: nat, plan: seq<Fate>): (Server, Reply, nat)
    requires |plan| > retries
    decreases retries
  {
    var (server', reply) := Attempt(server, req, plan[0]);
    if IsTransient(reply) && retries > 0 then
      var (s, r, n) := AuthorizeWithRetry(server', req, retries - 1, plan[1..]);
      (s, r, n + 1)
    else (server', reply, 1)
  }

  // The waits before the retries: the base, then twice the one before, up to the cap.
  predicate DoublesUpTo(delays: seq<int>, base: nat, cap: nat) {
    forall k :: 0 <= k < |delays| ==> delays[k] == Backoff.Min(base * Backoff.Pow2(k), cap)
  }

  lemma DoublesOnce(delays: seq<int>, base: nat, cap: nat)
    requires DoublesUpTo(delays, base, cap)
    ensures DoublesUpTo(delays + [Backoff.DelayMs(base, cap, |delays| + 1)], base, cap)
  {
  }

  class PaymentsGrpcController {
    const service: PaymentsService

    constructor (service: PaymentsService)
      ensures this.service == service
    {
      this.service := service;
    }

    function State(): Server
      reads this, service
    {
      Server(service.Tables(), service.transientFailOnceGate)
    }

    method Authorize(req: Request, drawn: PaymentId) returns (reply: Reply)
      modifies service
      ensures (State(), reply) == Serve(old(State()), req, drawn)
    {
      if |req.orderId| == 0 {
        return Error(InvalidArgument);
      }
      if !req.amountValue.Numeric? || req.amountValue.value <= 0.0 {
        return Error(InvalidArgument);
      }
      if !IsCurrency(req.currency) {
        return Error(InvalidArgument);
      }
      var fail := service.ShouldFailTransient(req.orderId, req.simulateOutage);
      if fail {
        return Error(Unavailable);
      }
      var id := service.Authorize(req.orderId, req.amount, req.currency, req.key, drawn);
      assert service.transientFailOnceGate == old(service.transientFailOnceGate);
      return Paid(id);
    }

    // Other clients' calls, served in order.
    method ServeOthers(calls: seq<Call>)
      modifies service
      ensures State() == old(State()).(ledger := After(old(State()).ledger, calls))
    {
      var i := 0;
      while i < |calls|
        invariant 0 <= i <= |calls|
        invariant service.Tables() == After(old(service.Tables()), calls[..i])
        invariant service.transientFailOnceGate == old(service.transientFailOnceGate)
      {
        AnswerAt(old(service.Tables()), calls, i);
        match calls[i] {
          case Authorize(orderId, amount, currency, key, drawn) =>
            var _ := service.Authorize(orderId, amount, currency, key, drawn);
          case Capture(p, key) =>
            var _ := service.Capture(p, key);
          case Refund(p, key) =>
            var _ := service.Refund(p, key);
        }
        i := i + 1;
      }
      assert calls[..i] == calls;
    }
  }

  class PaymentsGrpcClient {
    const maxRetries: nat
    const baseBackoffMs: nat
    const maxBackoffMs: nat

    constructor (maxRetries: nat, baseBackoffMs: nat, maxBackoffMs: nat)
      ensures this.maxRetries == maxRetries
      ensures this.baseBackoffMs == baseBackoffMs && this.maxBackoffMs == maxBackoffMs
    {
      this.maxRetries, this.baseBackoffMs, this.maxBackoffMs := maxRetries, baseBackoffMs, maxBackoffMs;
    }

    // One request on the wire.
    method Send(server: PaymentsGrpcController, req: Request, fate: Fate) returns (reply: Reply)
      modifies server.service
      ensures (server.State(), reply) == Attempt(old(server.State()), req, fate)
    {
      server.ServeOthers(fate.others);
      match fate.network
      case RequestLost(code) =>
        reply := Error(code);
      case Delivered =>
        reply := server.Authorize(req, fate.drawn);
      case ReplyLost(code) =>
        var _ := server.Authorize(req, fate.drawn);
        reply := Error(code);
    }

    /** Send, and send again after a backoff while the error is transient and retries are left. */
    method Authorize(server: PaymentsGrpcController, req: Request, plan: seq<Fate>)
      returns (reply: Reply, sent: nat, delays: seq<int>)
      requires |plan| > maxRetries
      modifies server.service
      ensures (server.State(), reply, sent) == AuthorizeWithRetry(old(server.State()), req, maxRetries, plan)
      ensures |delays| == sent - 1
      ensures DoublesUpTo(delays, baseBackoffMs, maxBackoffMs)
    {
      ghost var result := AuthorizeWithRetry(server.State(), req, maxRetries, plan);
      reply := Send(server, req, plan[0]);
      sent, delays := 1, [];
      while IsTransient(reply) && sent <= maxRetries
        invariant 1 <= sent <= maxRetries + 1 && |delays| == sent - 1
        invariant DoublesUpTo(delays, baseBackoffMs, maxBackoffMs)
        invariant result ==
                  if IsTransient(reply) && sent <= maxRetries then
                    var (s, r, n) := AuthorizeWithRetry(server.State(), req, maxRetries - sent, plan[sent..]);
                    (s, r, n + sent)
                  else (server.State(), reply, sent)
        decreases maxRetries + 1 - sent
      {
        DoublesOnce(delays, baseBackoffMs, maxBackoffMs);
        delays := delays + [Backoff.DelayMs(baseBackoffMs, maxBackoffMs, sent)];
        assert plan[sent..][1..] == plan[sent + 1..];
        reply := Send(server, req, plan[sent]);
        sent := sent + 1;
      }
    }
  }

  // ---------------------------------------------------------------------------------------------
  // What the loop guarantees

  // The call one attempt has the server perform on its own behalf, if it gets that far.
  function Own(server: Server, req: Request, fate: Fate): seq<Call> {
    if !fate.network.RequestLost? && Reaches(server.(ledger := After(server.ledger, fate.others)), req)
    then [AsCall(req, fate.drawn)] else []
  }

  lemma AttemptPerforms(server: Server, req: Request, fate: Fate)
    ensures Attempt(server, req, fate).0.ledger == After(After(server.ledger, fate.others), Own(server, req, fate))
  {
    var now := After(server.ledger, fate.others);
    if Own(server, req, fate) != [] {
      assert After(now, [AsCall(req, fate.drawn)]) == Perform(now, AsCall(req, fate.drawn)).0;
    }
  }

  // The calls the server performed on its ledger while the loop ran, other clients' included.
  function Performed(server: Server, req: Request, retries: nat, plan: seq<Fate>): seq<Call>
    requires |plan| > retries
    decreases retries
  {
    var (server', reply) := Attempt(server, req, plan[0]);
    plan[0].others + Own(server, req, plan[0])
    + (if IsTransient(reply) && retries > 0 then Performed(server', req, retries - 1, plan[1..]) else [])
  }

  lemma {:induction false} LoopPerforms(server: Server, req: Request, retries: nat, plan: seq<Fate>)
    requires |plan| > retries
    ensures AuthorizeWithRetry(server, req, retries, plan).0.ledger ==
            After(server.ledger, Performed(server, req, retries, plan))
    decreases retries
  {
    var fate, mine := plan[0], Own(server, req, plan[0]);
    var (server', reply) := Attempt(server, req, fate);
    AttemptPerforms(server, req, fate);
    AfterAppend(server.ledger, fate.others, mine);
    if IsTransient(reply) && retries > 0 {
      LoopPerforms(server', req, retries - 1, plan[1..]);
      AfterAppend(server.ledger, fate.others + mine, Performed(server', req, retries - 1, plan[1..]));
    } else {
      assert Performed(server, req, retries, plan) == fate.others + mine;
    }
  }

  lemma ServedIdIsOnRecord(server: Server, req: Request, drawn: PaymentId)
    requires Serve(server, req, drawn).1.Paid? && Usable(req.key) && RecordsTrue(server.ledger)
    ensures var (server', reply) := Serve(server, req, drawn);
            && req.key.value in server'.ledger.authorized && server'.ledger.authorized[req.key.value] == reply.id
            && reply.id in server'.ledger.payments
  {
  }

  lemma {:induction false} AttemptsBounded(server: Server, req: Request, retries: nat, plan: seq<Fate>)
    requires |plan| > retries
    ensures 1 <= AuthorizeWithRetry(server, req, retries, plan).2 <= retries + 1
    decreases retries
  {
    var (server', reply) := Attempt(server, req, plan[0]);
    if IsTransient(reply) && retries > 0 { AttemptsBounded(server', req, retries - 1, plan[1..]); }
  }

  // The server when k requests have been sent, and what request k + 1 is answered.
  function ServerAfter(server: Server, req: Request, plan: seq<Fate>, k: nat): Server
    requires k <= |plan|
  {
    if k == 0 then server else Attempt(ServerAfter(server, req, plan, k - 1), req, plan[k - 1]).0
  }

  function ReplyTo(server: Server, req: Request, plan: seq<Fate>, k: nat): Reply
    requires k < |plan|
  {
    Attempt(ServerAfter(server, req, plan, k), req, plan[k]).1
  }

  // The first k requests were all answered UNAVAILABLE.
  predicate AllUnavailable(server: Server, req: Request, plan: seq<Fate>, k: nat)
    requires k <= |plan|
  {
    forall i :: 0 <= i < k ==> ReplyTo(server, req, plan, i) == Error(Unavailable)
  }

  lemma {:induction false} ServerAfterFirst(server: Server, req: Request, plan: seq<Fate>, k: nat)
    requires k < |plan|
    ensures ServerAfter(Attempt(server, req, plan[0]).0, req, plan[1..], k) == ServerAfter(server, req, plan, k + 1)
    decreases k
  {
    if k > 0 { ServerAfterFirst(server, req, plan, k - 1); }
  }

  lemma AllUnavailableFirst(server: Server, req: Request, plan: seq<Fate>, k: nat)
    requires k < |plan|
    ensures AllUnavailable(server, req, plan, k + 1) <==>
            && ReplyTo(server, req, plan, 0) == Error(Unavailable)
            && AllUnavailable(Attempt(server, req, plan[0]).0, req, plan[1..], k)
  {
    var s1 := Attempt(server, req, plan[0]).0;
    forall i | 0 <= i < k ensures ReplyTo(s1, req, plan[1..], i) == ReplyTo(server, req, plan, i + 1) {
      ServerAfterFirst(server, req, plan, i);
    }
    if AllUnavailable(server, req, plan, k + 1) {
      forall i | 0 <= i < k ensures ReplyTo(s1, req, plan[1..], i) == Error(Unavailable) {
        assert ReplyTo(server, req, plan, i + 1) == Error(Unavailable);
      }
    }
    if ReplyTo(server, req, plan, 0) == Error(Unavailable) && AllUnavailable(s1, req, plan[1..], k) {
      forall i | 0 <= i < k + 1 ensures ReplyTo(server, req, plan, i) == Error(Unavailable) {
        if i > 0 { assert ReplyTo(s1, req, plan[1..], i - 1) == ReplyTo(server, req, plan, i); }
      }
    }
  }

  /** Another request is sent exactly while retries are left and every reply so far was UNAVAILABLE; the caller is told
      the reply to the last one sent. Any other first reply, lost or not, ends it after one request. */
  lemma {:induction false} RetriesExactly(server: Server, req: Request, retries: nat, plan: seq<Fate>)
    requires |plan| > retries
    ensures var (server', reply, sent) := AuthorizeWithRetry(server, req, retries, plan);
            && (forall k :: 1 <= k <= retries ==> (k < sent <==> AllUnavailable(server, req, plan, k)))
            && 1 <= sent <= retries + 1
            && reply == ReplyTo(server, req, plan, sent - 1) && server' == ServerAfter(server, req, plan, sent)
            && (ReplyTo(server, req, plan, 0) != Error(Unavailable) ==> sent == 1)
    decreases retries
  {
    var (server', reply, sent) := AuthorizeWithRetry(server, req, retries, plan);
    var s1 := Attempt(server, req, plan[0]).0;
    assert ServerAfter(server, req, plan, 0) == server && ServerAfter(server, req, plan, 1) == s1;
    forall k | 1 <= k <= retries
      ensures AllUnavailable(server, req, plan, k) <==>
              ReplyTo(server, req, plan, 0) == Error(Unavailable) && AllUnavailable(s1, req, plan[1..], k - 1)
    {
      AllUnavailableFirst(server, req, plan, k - 1);
    }
    if IsTransient(ReplyTo(server, req, plan, 0)) && retries > 0 {
      RetriesExactly(s1, req, retries - 1, plan[1..]);
      ServerAfterFirst(server, req, plan, sent - 2);
      ServerAfterFirst(server, req, plan, sent - 1);
      assert AllUnavailable(s1, req, plan[1..], 0);
    }
  }

  /** What the server answers a request that reaches it, and does: INVALID_ARGUMENT without an order, a positive finite
      amount or three capital letters of currency; UNAVAILABLE for the first request of an order that asks for it;
      otherwise a payment id. The first two leave the payments alone. */
  lemma ServeIsExact(server: Server, req: Request, drawn: PaymentId)
    ensures var (server', reply) := Serve(server, req, drawn);
            var malformed :=
              || |req.orderId| == 0
              || req.amountValue == Backoff.NotANumber || req.amountValue.value <= 0.0
              || |req.currency| != 3 || exists i :: 0 <= i < 3 && !('A' <= req.currency[i] <= 'Z');
            && (reply == Error(InvalidArgument) <==> malformed)
            && (reply == Error(Unavailable) <==> !malformed && req.simulateOutage && req.orderId !in server.gate)
            && (reply.Paid? || reply == Error(InvalidArgument) || reply == Error(Unavailable))
            && (!reply.Paid? ==> server'.ledger == server.ledger)
            && (reply == Error(Unavailable) ==> server'.gate == server.gate + {req.orderId})
            && (reply != Error(Unavailable) ==> server'.gate == server.gate)
            && (reply.Paid? ==>
                  (server'.ledger, PaymentIs(reply.id)) ==
                  Perform(server.ledger, Call.Authorize(req.orderId, req.amount, req.currency, req.key, drawn)))
  {
  }

  // Every id drawn while the loop runs is new.
  ghost predicate FreshPlan(server: Server, req: Request, retries: nat, plan: seq<Fate>)
    requires |plan| > retries
  {
    DrawsFreshIds(server.ledger, Performed(server, req, retries, plan))
  }

  // Truth of the records and freshness of the ids carry over from one attempt to the next.
  lemma AttemptKeepsTruth(server: Server, req: Request, fate: Fate, rest: seq<Call>)
    requires RecordsTrue(server.ledger) && DrawsFreshIds(server.ledger, fate.others + (Own(server, req, fate) + rest))
    ensures RecordsTrue(After(server.ledger, fate.others))
    ensures RecordsTrue(Attempt(server, req, fate).0.ledger) && DrawsFreshIds(Attempt(server, req, fate).0.ledger, rest)
  {
    var mine := Own(server, req, fate);
    FreshSplit(server.ledger, fate.others, mine + rest);
    LifeCycle(server.ledger, fate.others);
    FreshSplit(After(server.ledger, fate.others), mine, rest);
    LifeCycle(After(server.ledger, fate.others), mine);
    AttemptPerforms(server, req, fate);
  }

  lemma {:induction false} PaidIdIsOnRecord(server: Server, req: Request, retries: nat, plan: seq<Fate>)
    requires |plan| > retries && Usable(req.key) && RecordsTrue(server.ledger) && FreshPlan(server, req, retries, plan)
    ensures var (server', reply, _) := AuthorizeWithRetry(server, req, retries, plan);
            reply.Paid? ==>
              && req.key.value in server'.ledger.authorized && server'.ledger.authorized[req.key.value] == reply.id
              && reply.id in server'.ledger.payments
    decreases retries
  {
    var fate := plan[0];
    var (server', reply) := Attempt(server, req, fate);
    var rest := if IsTransient(reply) && retries > 0 then Performed(server', req, retries - 1, plan[1..]) else [];
    assert Performed(server, req, retries, plan) == fate.others + (Own(server, req, fate) + rest);
    AttemptKeepsTruth(server, req, fate, rest);
    if IsTransient(reply) && retries > 0 {
      PaidIdIsOnRecord(server', req, retries - 1, plan[1..]);
    } else if fate.network.Delivered? && reply.Paid? {
      ServedIdIsOnRecord(server.(ledger := After(server.ledger, fate.others)), req, fate.drawn);
    }
  }

  lemma {:induction false} FreshSplit(t: Ledger, a: seq<Call>, b: seq<Call>)
    requires DrawsFreshIds(t, a + b)
    ensures DrawsFreshIds(t, a) && DrawsFreshIds(After(t, a), b)
    decreases |a|
  {
    assert forall i :: 0 <= i < |a| ==> (a + b)[i] == a[i];
    if a == [] {
      assert a + b == b;
    } else {
      FreshIdsStep(t, a + b);
      assert (a + b)[1..] == a[1..] + b;
      FreshSplit(Perform(t, a[0]).0, a[1..], b);
    }
  }

  /** Whatever requests and replies get lost and whatever other clients do meanwhile: at most maxRetries + 1
      requests are sent, the key creates at most one payment (none if it already had one), and a success names the
      payment on record for the key. */
  lemma KeyedAuthorizeIsSafe(server: Server, req: Request, retries: nat, plan: seq<Fate>)
    requires |plan| > retries && Usable(req.key) && RecordsTrue(server.ledger) && FreshPlan(server, req, retries, plan)
    ensures var (server', reply, sent) := AuthorizeWithRetry(server, req, retries, plan);
            && 1 <= sent <= retries + 1
            && server'.ledger == After(server.ledger, Performed(server, req, retries, plan))
            && CountCreations(server.ledger, Performed(server, req, retries, plan), req.key.value)
               <= (if req.key.value in server.ledger.authorized then 0 else 1)
            && (reply.Paid? ==>
                  && req.key.value in server'.ledger.authorized && server'.ledger.authorized[req.key.value] == reply.id
                  && reply.id in server'.ledger.payments)
  {
    AttemptsBounded(server, req, retries, plan);
    LoopPerforms(server, req, retries, plan);
    KeyCreatesOnce(server.ledger, Performed(server, req, retries, plan), req.key.value);
    PaidIdIsOnRecord(server, req, retries, plan);
  }

  /** A key is also what it takes: if the first reply is lost and the second request gets through, the order is
      paid once if and only if the request carries a non-empty key. */
  lemma LostReplyPaysOnceExactlyWithKey(req: Request, a: PaymentId, b: PaymentId)
    requires WellFormed(req) && !req.simulateOutage && a != b
    ensures var plan := [Fate([], a, ReplyLost(Unavailable)), Fate([], b, Delivered)];
            var (server, reply, sent) := AuthorizeWithRetry(Server(EMPTY, {}), req, 1, plan);
            && sent == 2
            && (server.ledger.payments.Keys == {a} <==> Usable(req.key))
            && (Usable(req.key) ==> reply == Paid(a))
            && (!Usable(req.key) ==> reply == Paid(b) && server.ledger.payments.Keys == {a, b})
  {
    var first, second := Fate([], a, ReplyLost(Unavailable)), Fate([], b, Delivered);
    var plan := [first, second];
    var (s1, r1) := Attempt(Server(EMPTY, {}), req, first);
    assert s1.ledger.payments.Keys == {a} && r1 == Error(Unavailable);
    var (s2, r2) := Attempt(s1, req, second);
    if !Usable(req.key) {
      assert s2.ledger.payments.Keys == {a, b} && r2 == Paid(b);
      assert b in s2.ledger.payments.Keys;
    }
    assert plan[1..] == [second];
    assert AuthorizeWithRetry(s1, req, 0, plan[1..]) == (s2, r2, 1);
  }
}
