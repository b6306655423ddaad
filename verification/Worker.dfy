/**
 The broker service, the database side of message processing and the worker, handling one delivery at a time in
 the source's own order of effects. DeliveryAloneIsHandled shows that this is a run of the Pipeline machine.
 */
module Worker {
  import opened Wrappers
  import opened Pipeline
  import Backoff

  datatype Queue = Process | RetryProcess | DeadLetter

  // How the outside behaves during one delivery: does the database fail, what becomes of the publish, the time.
  datatype Luck = Luck(dbFails: bool, sent: Sent, now: Time)

  datatype Result = ProcessedNow | AlreadyProcessed | Deduplicated | Threw

  datatype Orders = Orders(rows: map<OrderId, Row>, markers: map<MessageId, OrderId>)

  /** processOrderMessage as one transaction. */
  function ProcessAlone(db: Orders, body: Body, dbFails: bool, now: Time): (Orders, Result)
    requires body.Msg?
  {
    if dbFails || !Named(body) then (db, Threw)
    else
      var m, o := body.mid.value, body.oid.value;
      if m in db.markers then (db, Deduplicated)
      else if o !in db.rows then (db, Threw)
      else if db.rows[o].status.Processed? then (db.(markers := db.markers[m := o]), AlreadyProcessed)
      else (Orders(db.rows[o := Row(Processed, Some(now))], db.markers[m := o]), ProcessedNow)
  }

  // The transaction comes to an order not yet handled for this message id, and finds it processed or not.
  predicate Finds(db: Orders, body: Body, dbFails: bool, processed: bool) {
    && !dbFails && body.Msg? && body.mid.Some? && body.oid.Some?
    && body.mid.value !in db.markers && body.oid.value in db.rows
    && db.rows[body.oid.value].status.Processed? == processed
  }

  // What the handler publishes when it gives up on a delivery.
  function GiveUpBody(max: Positive, body: Body): (Queue, Body)
    requires !body.JsonNull?
  {
    if body.Garbage? then (DeadLetter, body)
    else if Attempt(body) >= max - 1 then (DeadLetter, body.(attempt := Some(Attempt(body))))
    else (RetryProcess, body.(attempt := Some(Attempt(body) + 1)))
  }

  // One delivery: new tables, what was published if anything was tried, and whether the handler threw.
  datatype Handled = Handled(db: Orders, moved: Option<(Queue, Body)>, threw: bool)

  function HandleAlone(max: Positive, db: Orders, body: Body, luck: Luck): Handled {
    if body.JsonNull? then Handled(db, None, true)
    else if body.Garbage? then Handled(db, Some(GiveUpBody(max, body)), !luck.sent.Accepted?)
    else
      var (db', result) := ProcessAlone(db, body, luck.dbFails, luck.now);
      if result.Threw? then Handled(db', Some(GiveUpBody(max, body)), !luck.sent.Accepted?)
      else Handled(db', None, false)
  }

  // What the handler's publish adds to a queue.
  function Gained(h: Handled, sent: Sent, queue: Queue): seq<Body> {
    if h.moved.Some? && h.moved.value.0 == queue && !Lost(sent) then [h.moved.value.1] else []
  }

  // What a caller of publishToQueue sees: an answer, or an error the channel threw.
  datatype Publication = Said(ok: bool) | Raised

  class RabbitmqService {
    var enabled: bool
    var process: seq<Body>
    var retryProcess: seq<Body>
    var deadLetter: seq<Body>

    // onModuleInit: without a broker url the service stays disabled.
    constructor (configured: bool)
      ensures enabled == configured && process == retryProcess == deadLetter == []
    {
      enabled := configured;
      process, retryProcess, deadLetter := [], [], [];
    }

    function Contents(queue: Queue): seq<Body>
      reads this
    {
      match queue
      case Process => process
      case RetryProcess => retryProcess
      case DeadLetter => deadLetter
    }

    /** Without a channel nothing is sent and the answer is no; otherwise the answer is the channel's, or its error
        passes through. The queue gets the message unless it was lost, and no other queue changes. */
    method PublishToQueue(queue: Queue, body: Body, sent: Sent) returns (p: Publication)
      modifies this
      ensures enabled == old(enabled)
      ensures p == if !enabled then Said(false) else if sent.Thrown? then Raised else Said(sent.Accepted?)
      ensures forall q: Queue :: Contents(q) == old(Contents(q)) +
                if q == queue && enabled && !Lost(sent) then [body] else []
    {
      if !enabled {
        return Said(false);
      }
      if sent.Thrown? {
        return Raised;
      }
      if !Lost(sent) {
        match queue {
          case Process => process := process + [body];
          case RetryProcess => retryProcess := retryProcess + [body];
          case DeadLetter => deadLetter := deadLetter + [body];
        }
      }
      return Said(sent.Accepted?);
    }
  }

  class OrdersService {
    var rows: map<OrderId, Row>
    var markers: map<MessageId, OrderId>

    constructor ()
      ensures Tables() == Orders(map[], map[])
    {
      rows, markers := map[], map[];
    }

    function Tables(): Orders
      reads this
    {
      Orders(rows, markers)
    }

    /** A known message id is a duplicate and changes nothing; a new one is recorded and makes its order PROCESSED, now,
        unless it is already; without database, names or order it throws and changes nothing. */
    method ProcessOrderMessage(body: Body, dbFails: bool, now: Time) returns (result: Result)
      requires body.Msg?
      modifies this
      ensures (Tables(), result) == ProcessAlone(old(Tables()), body, dbFails, now)
      ensures result == Deduplicated <==>
              !dbFails && body.oid.Some? && body.mid.Some? && body.mid.value in old(markers)
      ensures result == AlreadyProcessed <==> Finds(old(Tables()), body, dbFails, true)
      ensures result == ProcessedNow <==> Finds(old(Tables()), body, dbFails, false)
      ensures result == Threw || result == Deduplicated ==> rows == old(rows) && markers == old(markers)
      ensures result == AlreadyProcessed || result == ProcessedNow ==>
                markers == old(markers)[body.mid.value := body.oid.value]
      ensures result == AlreadyProcessed ==> rows == old(rows)
      ensures result == ProcessedNow ==> rows == old(rows)[body.oid.value := Row(Processed, Some(now))]
    {
      if dbFails || !Named(body) {
        return Threw;
      }
      var m, o := body.mid.value, body.oid.value;
      if m in markers {
        return Deduplicated;   // unique violation
      }
      if o !in rows {
        return Threw;          // foreign key violation
      }
      markers := markers[m := o];
      var order := rows[o];
      if order.status == Processed {
        return AlreadyProcessed;
      }
      order := Row(Processed, Some(now));
      rows := rows[o := order];
      return ProcessedNow;
    }
  }

  class OrdersWorkerService {
    const rabbit: RabbitmqService
    const orders: OrdersService
    const maxAttempts: Positive
    const retryBaseDelayMs: nat
    const retryMaxDelayMs: nat

    constructor (rabbit: RabbitmqService, orders: OrdersService,
                 attempts: Backoff.Setting, base: Backoff.Setting, cap: Backoff.Setting)
      ensures this.rabbit == rabbit && this.orders == orders
      ensures maxAttempts == Backoff.ParsePositiveInt(attempts, 3)
      ensures retryBaseDelayMs == Backoff.ParsePositiveInt(base, 1000)
      ensures retryMaxDelayMs == Backoff.ParsePositiveInt(cap, 30000)
    {
      this.rabbit, this.orders := rabbit, orders;
      maxAttempts := Backoff.ParsePositiveInt(attempts, 3);
      retryBaseDelayMs := Backoff.ParsePositiveInt(base, 1000);
      retryMaxDelayMs := Backoff.ParsePositiveInt(cap, 30000);
    }

    /** The handler: process, then ack; or publish to the DLQ or the retry queue, then ack; or throw. */
    method HandleMessage(body: Body, luck: Luck) returns (threw: bool, delayMs: Option<int>)
      requires rabbit.enabled
      modifies rabbit, orders
      ensures rabbit.enabled
      ensures var h := HandleAlone(maxAttempts, old(orders.Tables()), body, luck);
              && orders.Tables() == h.db && threw == h.threw
              && (forall q: Queue :: rabbit.Contents(q) == old(rabbit.Contents(q)) +
                    Gained(h, luck.sent, q))
              && delayMs == (if h.moved.Some? && h.moved.value.0.RetryProcess?
                             then Some(Backoff.DelayMs(retryBaseDelayMs, retryMaxDelayMs, Attempt(body) + 1)) else None)
      ensures delayMs.Some? ==>
                delayMs.value == Backoff.Min(retryBaseDelayMs * Backoff.Pow2(Attempt(body)), retryMaxDelayMs)
    {
      delayMs := None;
      if body.Garbage? {
        var published := rabbit.PublishToQueue(DeadLetter, body, luck.sent);
        return published != Said(true), None;
      }
      if body.JsonNull? {
        return true, None;
      }
      var attempt := Attempt(body);
      var result := orders.ProcessOrderMessage(body, luck.dbFails, luck.now);
      if result != Threw {
        return false, None;  // ack
      }
      if attempt >= maxAttempts - 1 {
        var published := rabbit.PublishToQueue(DeadLetter, body.(attempt := Some(attempt)), luck.sent);
        return published != Said(true), None;
      }
      var nextAttempt := attempt + 1;
      delayMs := Some(Backoff.DelayMs(retryBaseDelayMs, retryMaxDelayMs, nextAttempt));
      var published := rabbit.PublishToQueue(RetryProcess, body.(attempt := Some(nextAttempt)), luck.sent);
      return published != Said(true), delayMs;
    }

    /** The consumer callback: the message goes back to the queue if and only if the handler throws. */
    method ConsumeOne(luck: Luck) returns (requeued: bool)
      requires rabbit.enabled && rabbit.process != []
      modifies rabbit, orders
      ensures var body := old(rabbit.process)[0];
              var h := HandleAlone(maxAttempts, old(orders.Tables()), body, luck);
              && orders.Tables() == h.db && requeued == h.threw
              && rabbit.process == old(rabbit.process)[1..] + (if requeued then [body] else [])
              && (forall q: Queue | q != Process :: rabbit.Contents(q) == old(rabbit.Contents(q)) +
                    Gained(h, luck.sent, q))
      ensures rabbit.enabled
    {
      var body := rabbit.process[0];
      rabbit.process := rabbit.process[1..];
      assert forall q: Queue :: q != Process ==> rabbit.Contents(q) == old(rabbit.Contents(q));
      var delayMs;
      requeued, delayMs := HandleMessage(body, luck);
      assert rabbit.Contents(Process) == old(rabbit.process)[1..];
      if requeued {
        rabbit.process := rabbit.process + [body];  // nack with requeue
      }
    }
  }

  // ---------------------------------------------------------------------------------------------
  // One message after another

  // A call of processOrderMessage.
  datatype Delivery = Delivery(body: Body, dbFails: bool, now: Time)

  predicate AllMessages(ds: seq<Delivery>) {
    forall i :: 0 <= i < |ds| ==> ds[i].body.Msg?
  }

  function TablesAfter(db: Orders, ds: seq<Delivery>): Orders
    requires AllMessages(ds)
  {
    if ds == [] then db
    else
      var d := ds[|ds| - 1];
      ProcessAlone(TablesAfter(db, ds[..|ds| - 1]), d.body, d.dbFails, d.now).0
  }

  // What delivery j is answered when those before it have been handled.
  function AnswerTo(db: Orders, ds: seq<Delivery>, j: nat): Result
    requires AllMessages(ds) && j < |ds|
  {
    ProcessAlone(TablesAfter(db, ds[..j]), ds[j].body, ds[j].dbFails, ds[j].now).1
  }

  // An earlier delivery of the message was seen through.
  ghost predicate SeenBefore(db: Orders, ds: seq<Delivery>, j: nat, m: MessageId)
    requires AllMessages(ds) && j <= |ds|
  {
    m in db.markers || exists i :: 0 <= i < j && Records(db, ds, i, m)
  }

  predicate Records(db: Orders, ds: seq<Delivery>, i: nat, m: MessageId)
    requires AllMessages(ds) && i < |ds|
  {
    ds[i].body.mid == Some(m) && (AnswerTo(db, ds, i).ProcessedNow? || AnswerTo(db, ds, i).AlreadyProcessed?)
  }

  predicate Processes(db: Orders, ds: seq<Delivery>, i: nat, o: OrderId)
    requires AllMessages(ds) && i < |ds|
  {
    ds[i].body.oid == Some(o) && AnswerTo(db, ds, i).ProcessedNow?
  }

  // The order was processed to begin with, or by an earlier delivery.
  ghost predicate ProcessedBefore(db: Orders, ds: seq<Delivery>, j: nat, o: OrderId)
    requires AllMessages(ds) && j <= |ds|
  {
    (o in db.rows && db.rows[o].status.Processed?) || exists i :: 0 <= i < j && Processes(db, ds, i, o)
  }

  lemma {:induction false} MarkersTell(db: Orders, ds: seq<Delivery>, j: nat, m: MessageId)
    requires AllMessages(ds) && j <= |ds|
    ensures m in TablesAfter(db, ds[..j]).markers <==> SeenBefore(db, ds, j, m)
    decreases j
  {
    if j > 0 {
      MarkersTell(db, ds, j - 1, m);
      assert ds[..j][..j - 1] == ds[..j - 1];
      assert SeenBefore(db, ds, j, m) <==> SeenBefore(db, ds, j - 1, m) || Records(db, ds, j - 1, m);
    }
  }

  lemma {:induction false} RowsTell(db: Orders, ds: seq<Delivery>, j: nat, o: OrderId)
    requires AllMessages(ds) && j <= |ds|
    ensures var rows := TablesAfter(db, ds[..j]).rows;
            && (o in rows <==> o in db.rows)
            && (o in rows ==> (rows[o].status.Processed? <==> ProcessedBefore(db, ds, j, o)))
    decreases j
  {
    if j > 0 {
      RowsTell(db, ds, j - 1, o);
      assert ds[..j][..j - 1] == ds[..j - 1];
      assert ProcessedBefore(db, ds, j, o) <==> ProcessedBefore(db, ds, j - 1, o) || Processes(db, ds, j - 1, o);
    }
  }

  // A delivery the transaction can begin with.
  predicate WellSent(d: Delivery) {
    !d.dbFails && d.body.Msg? && d.body.mid.Some? && d.body.oid.Some?
  }

  /** Over any list of deliveries: a message is a duplicate exactly once an earlier delivery of it was seen through, so
      each message id is seen through at most once; an order is processed by exactly the first such message, and later
      ones find it processed; the others throw. */
  lemma AnswersAreExact(db: Orders, ds: seq<Delivery>, j: nat)
    requires AllMessages(ds) && j < |ds|
    ensures var (d, answer) := (ds[j], AnswerTo(db, ds, j));
            if !WellSent(d) then answer == Threw
            else
              var (m, o) := (d.body.mid.value, d.body.oid.value);
              && (answer == Deduplicated <==> SeenBefore(db, ds, j, m))
              && (answer == Threw <==> !SeenBefore(db, ds, j, m) && o !in db.rows)
              && (answer == AlreadyProcessed <==>
                    !SeenBefore(db, ds, j, m) && o in db.rows && ProcessedBefore(db, ds, j, o))
              && (answer == ProcessedNow <==>
                    !SeenBefore(db, ds, j, m) && o in db.rows && !ProcessedBefore(db, ds, j, o))
  {
    if WellSent(ds[j]) {
      MarkersTell(db, ds, j, ds[j].body.mid.value);
      RowsTell(db, ds, j, ds[j].body.oid.value);
    }
  }

  // The delivery cannot be seen through: the database fails, a name is missing, or there is neither marker nor order.
  predicate CannotProcess(db: Orders, body: Body, dbFails: bool) {
    || dbFails || !body.Msg? || body.mid.None? || body.oid.None?
    || (body.mid.value !in db.markers && body.oid.value !in db.rows)
  }

  /** What the handler does with a delivery it cannot see through: to the DLQ with the last attempt or with a body that
      is no JSON, else to the retry queue with the next attempt number; nothing with a JSON null. It throws on that null
      and when what it publishes is not accepted. */
  lemma HandlingIsExact(max: Positive, db: Orders, body: Body, luck: Luck)
    ensures var attempt := if body.Msg? && body.attempt.Some? && body.attempt.value >= 0 then body.attempt.value else 0;
            var (h, last) := (HandleAlone(max, db, body, luck), attempt + 1 >= max);
            && (h.moved.None? <==> body.JsonNull? || !CannotProcess(db, body, luck.dbFails))
            && (h.moved.Some? ==>
                  && (h.moved.value.0 == DeadLetter <==> body.Garbage? || last)
                  && (h.moved.value.0 == RetryProcess <==> !body.Garbage? && !last)
                  && (body.Garbage? ==> h.moved.value.1 == body)
                  && (body.Msg? ==>
                        h.moved.value.1 == Msg(body.mid, body.oid, Some(attempt + if last then 0 else 1)))
                  && h.db == db)
            && (h.threw <==> body.JsonNull? || (h.moved.Some? && luck.sent != Accepted))
  {
  }

  // ---------------------------------------------------------------------------------------------
  // The handler is a run of the machine

  function TablesOf(s: State): Orders {
    Orders(s.orders, s.markers)
  }

  function PlaceOf(queue: Queue): Place {
    match queue
    case Process => Main
    case RetryProcess => Pipeline.Retry
    case DeadLetter => Dlq
  }

  ghost predicate NobodyElse(s: State, i: nat) {
    forall j :: 0 <= j < |s.copies| && j != i ==> !InTx(s.copies[j])
  }

  // From s, delivery i ended at t with tables db, the copy at place, and the publish made if there was one.
  predicate Ended(s: State, i: nat, db: Orders, place: Place, moved: Option<(Queue, Body)>, t: State) {
    && i < |s.copies| <= |t.copies|
    && TablesOf(t) == db && t.copies[i].place == place && t.copies[i].body == s.copies[i].body
    && (forall j :: 0 <= j < |s.copies| && j != i ==> t.copies[j] == s.copies[j])
    && |t.copies| == |s.copies| + (if moved.Some? then 1 else 0)
    && (moved.Some? ==>
          var added := t.copies[|s.copies|];
          added.body == moved.value.1 && added.place == PlaceOf(moved.value.0))
  }

  // The publish the machine makes, as the outside lets it.
  function Landed(h: Handled, sent: Sent): Option<(Queue, Body)> {
    if Lost(sent) then None else h.moved
  }

  function FinalPlace(h: Handled): Place {
    if h.threw then Main else Acked
  }

  // The copy is forwarded, then acked if that was accepted.
  lemma GivenUp(s: State, i: nat, step: Step, sent: Sent)
    requires i < |s.copies| && Enabled(s, step)
    requires step == (if s.copies[i].body.Garbage? then Discard(i, sent) else Divert(i, sent))
    ensures var s1 := Next(s, step);
            && i < |s1.copies|
            && s1.copies[i] == s.copies[i].(place := Held(if sent.Accepted? then AckingMoved else Throwing))
            && Ended(s, i, TablesOf(s), s1.copies[i].place,
                     if Lost(sent) then None else Some(GiveUpBody(s.maxAttempts, s.copies[i].body)), s1)
  {
  }

  lemma GiveUp(s: State, i: nat, step: Step, sent: Sent) returns (steps: seq<Step>, t: State)
    requires i < |s.copies| && Enabled(s, step)
    requires step == (if s.copies[i].body.Garbage? then Discard(i, sent) else Divert(i, sent))
    ensures Runs(s, steps, t)
    ensures Ended(s, i, TablesOf(s), if sent.Accepted? then Acked else Main,
                  if Lost(sent) then None else Some(GiveUpBody(s.maxAttempts, s.copies[i].body)), t)
  {
    var s1 := Next(s, step);
    GivenUp(s, i, step, sent);
    var last := if sent.Accepted? then Ack(i) else Nack(i);
    t := Next(s1, last);
    assert Runs(t, [], t);
    RunsCons(s1, last, [], t);
    RunsCons(s, step, [last] + [], t);
    steps := [step] + ([last] + []);
  }

  lemma ThrowOut(s: State, i: nat, sent: Sent) returns (steps: seq<Step>, t: State)
    requires HeldAt(s, i, Received) && s.copies[i].body.Msg?
    ensures Runs(s, steps, t)
    ensures Ended(s, i, TablesOf(s), if sent.Accepted? then Acked else Main,
                  if Lost(sent) then None else Some(GiveUpBody(s.maxAttempts, s.copies[i].body)), t)
  {
    var s1 := Next(s, DbFails(i));
    var rest;
    rest, t := GiveUp(s1, i, Divert(i, sent), sent);
    RunsCons(s, DbFails(i), rest, t);
    steps := [DbFails(i)] + rest;
  }

  lemma SaveAndCommit(s: State, i: nat, now: Time) returns (steps: seq<Step>, t: State)
    requires HeldAt(s, i, OrderSeen(false)) && Named(s.copies[i].body) && NobodyElse(s, i)
    ensures Runs(s, steps, t)
    ensures var m, o := s.copies[i].body.mid.value, s.copies[i].body.oid.value;
            Ended(s, i, Orders(s.orders[o := Row(Processed, Some(now))], s.markers[m := o]), Acked, None, t)
  {
    assert forall j :: 0 <= j < |s.copies| ==> !RowLocked(s.copies[j], s.copies[i].body.oid.value);
    steps, t := CommitAndAck(Next(s, SaveOrder(i, now)), i);
    RunsCons(s, SaveOrder(i, now), steps, t);
    steps := [SaveOrder(i, now)] + steps;
  }

  lemma Succeed(s: State, i: nat, now: Time) returns (steps: seq<Step>, t: State)
    requires HeldAt(s, i, MarkerInserted) && Named(s.copies[i].body) && NobodyElse(s, i)
    requires s.copies[i].body.oid.value in s.orders && s.copies[i].body.mid.value !in s.markers
    ensures Runs(s, steps, t)
    ensures Ended(s, i, ProcessAlone(TablesOf(s), s.copies[i].body, false, now).0, Acked, None, t)
  {
    var s1 := Next(s, FindOrder(i));
    if s.orders[s.copies[i].body.oid.value].status.Processed? {
      steps, t := CommitAndAck(s1, i);
    } else {
      steps, t := SaveAndCommit(s1, i, now);
    }
    RunsCons(s, FindOrder(i), steps, t);
    steps := [FindOrder(i)] + steps;
  }

  lemma CommitAndAck(s: State, i: nat) returns (steps: seq<Step>, t: State)
    requires Enabled(s, CommitTx(i, true))
    ensures Runs(s, steps, t)
    ensures Ended(s, i, TablesOf(Next(s, CommitTx(i, true))), Acked, None, t)
  {
    var s1 := Next(s, CommitTx(i, true));
    t := Next(s1, Ack(i));
    assert Runs(t, [], t);
    RunsCons(s1, Ack(i), [], t);
    RunsCons(s, CommitTx(i, true), [Ack(i)] + [], t);
    steps := [CommitTx(i, true)] + ([Ack(i)] + []);
  }

  lemma AckOnly(s: State, i: nat) returns (steps: seq<Step>, t: State)
    requires HeldAt(s, i, Acking)
    ensures Runs(s, steps, t) && Ended(s, i, TablesOf(s), Acked, None, t)
  {
    t := Next(s, Ack(i));
    assert Runs(t, [], t);
    RunsCons(s, Ack(i), [], t);
    steps := [Ack(i)] + [];
  }

  lemma HandleMsg(s: State, i: nat, luck: Luck) returns (steps: seq<Step>, t: State)
    requires HeldAt(s, i, Received) && s.copies[i].body.Msg? && NobodyElse(s, i)
    ensures Runs(s, steps, t)
    ensures var h := HandleAlone(s.maxAttempts, TablesOf(s), s.copies[i].body, luck);
            Ended(s, i, h.db, FinalPlace(h), Landed(h, luck.sent), t)
  {
    var body := s.copies[i].body;
    if luck.dbFails || ProcessAlone(TablesOf(s), body, luck.dbFails, luck.now).1.Threw? {
      steps, t := ThrowOut(s, i, luck.sent);
    } else {
      assert !MarkerHeld(s, i, body.mid.value);
      var s1 := Next(s, InsertMarker(i));
      if body.mid.value in s.markers {
        steps, t := AckOnly(s1, i);
      } else {
        steps, t := Succeed(s1, i, luck.now);
      }
      RunsCons(s, InsertMarker(i), steps, t);
      steps := [InsertMarker(i)] + steps;
    }
  }

  lemma HandleNull(s: State, i: nat) returns (steps: seq<Step>, t: State)
    requires HeldAt(s, i, Received) && s.copies[i].body.JsonNull?
    ensures Runs(s, steps, t) && Ended(s, i, TablesOf(s), Main, None, t)
  {
    var s1 := Next(s, FailNull(i));
    t := Next(s1, Nack(i));
    assert Runs(t, [], t);
    RunsCons(s1, Nack(i), [], t);
    RunsCons(s, FailNull(i), [Nack(i)] + [], t);
    steps := [FailNull(i)] + ([Nack(i)] + []);
  }

  lemma HandleReceived(s: State, i: nat, luck: Luck) returns (steps: seq<Step>, t: State)
    requires HeldAt(s, i, Received) && NobodyElse(s, i)
    ensures Runs(s, steps, t)
    ensures var h := HandleAlone(s.maxAttempts, TablesOf(s), s.copies[i].body, luck);
            Ended(s, i, h.db, FinalPlace(h), Landed(h, luck.sent), t)
  {
    match s.copies[i].body
    case Garbage(_) => steps, t := GiveUp(s, i, Discard(i, luck.sent), luck.sent);
    case JsonNull => steps, t := HandleNull(s, i);
    case Msg(_, _, _) => steps, t := HandleMsg(s, i, luck);
  }

  /** From any state in which no other delivery has an open transaction, taking a message from the main queue and
      handling it as OrdersWorkerService does is a run of the machine: same tables, same ack or requeue, same
      publish. */
  lemma DeliveryAloneIsHandled(s: State, i: nat, luck: Luck) returns (steps: seq<Step>, t: State)
    requires i < |s.copies| && s.copies[i].place == Main && NobodyElse(s, i)
    ensures Runs(s, steps, t)
    ensures var h := HandleAlone(s.maxAttempts, TablesOf(s), s.copies[i].body, luck);
            Ended(s, i, h.db, FinalPlace(h), Landed(h, luck.sent), t)
  {
    steps, t := HandleReceived(Next(s, Deliver(i)), i, luck);
    RunsCons(s, Deliver(i), steps, t);
    steps := [Deliver(i)] + steps;
  }
}
