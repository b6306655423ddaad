/**
 The order messages from publication to their end: the three queues, the worker's handling of each
 delivery (src/orders-worker/orders-worker.service.ts, lines 50-189), the database transaction inside it
 (src/orders/order.service.ts, lines 172-226) and the consumer wrapper that requeues on a throw
 (src/rabbitmq/rabbitmq.service.ts, lines 139-166), as one small-step machine. Any number of deliveries are
 in progress at once; a crash may hit any of them between any two steps. Beside them orders are created, deleted and
 updated; updateOrder (src/orders/order.service.ts, lines 315-323) reads the order and later saves what it read with
 its changes, and no lock spans the two.

 A copy of a message keeps its index in `copies` for ever; consuming it changes its place.
 */
module Pipeline {
  import opened Wrappers

  type MessageId = nat
  type OrderId = nat
  type UpdateId = nat
  type Time = int
  type Positive = n: nat | n > 0 witness 1

  // What JSON.parse makes of a body. None stands for a field that is missing or not what the database
  // column takes (a uuid) or, for attempt, not an integer.
  datatype Body =
    | Garbage(raw: nat)
    | JsonNull
    | Msg(mid: Option<MessageId>, oid: Option<OrderId>, attempt: Option<int>)

  datatype Pc =
    | Received
    | MarkerInserted           // transaction open, processed_messages row inserted
    | OrderSeen(processed: bool)
    | OrderSaved(at: Time)     // orders row updated, not committed
    | Caught                   // in the catch block, transaction rolled back
    | Acking                   // processing settled by a commit, ack next
    | AckingMoved              // another copy was published, ack next
    | Throwing                 // an error leaves the handler

  datatype Place = Main | Retry | Dlq | Held(pc: Pc) | Acked

  // deliveries: how often this copy and the copies it was retried from were taken from the main queue;
  // requeues: how often they fell back to it; first: the attempt number they started with.
  datatype Copy = Copy(body: Body, place: Place, trail: Trail)
  datatype Trail = Trail(first: nat, deliveries: nat, requeues: nat)

  datatype Status = Pending | Processed | OtherStatus
  datatype Row = Row(status: Status, processedAt: Option<Time>)

  // An updateOrder under way. TypeORM's save first looks the order up: if it is there it updates the columns that
  // differ from what is to be saved, if not it inserts the order again.
  datatype Update =
    | Loaded(o: OrderId, row: Row)
    | Updating(o: OrderId, row: Row, setsStatus: bool, setsTime: bool)
    | Inserting(o: OrderId, row: Row)

  // issued: message ids the producer drew, with their order. entered: what ever entered the broker.
  // marked: message ids for which a marker was ever committed. effects: commits that changed a row to
  // PROCESSED, in order. known: every order id there ever was. unannounced: orders whose producer has yet
  // to publish. overtaken, outlived: orders that were processed, deleted while an update of them was under way.
  datatype State = State(
    maxAttempts: Positive,
    orders: map<OrderId, Row>,
    markers: map<MessageId, OrderId>,
    updates: map<UpdateId, Update>,
    copies: seq<Copy>,
    known: set<OrderId>,
    unannounced: set<OrderId>,
    issued: map<MessageId, OrderId>,
    entered: set<Body>,
    marked: set<MessageId>,
    effects: seq<(MessageId, OrderId)>,
    overtaken: set<OrderId>,
    outlived: set<OrderId>)

  // publishToQueue: true means enqueued; false may go either way; on a closed channel it throws and nothing is sent.
  datatype Sent = Accepted | RefusedButKept | RefusedAndLost | Thrown

  datatype Step =
    | CreateOrder(o: OrderId)
    | Announce(o: OrderId, m: MessageId, sent: Sent)
    | LoseAnnouncement(o: OrderId)
    | Inject(body: Body)                  // somebody else publishes to orders.process
    | DeleteOrder(o: OrderId)
    | ReadForUpdate(u: UpdateId, o: OrderId, to: Option<Status>)
    | LookUpForSave(u: UpdateId)
    | SaveUpdate(u: UpdateId)
    | DropUpdate(u: UpdateId)             // a query fails or the process dies
    | Deliver(i: nat)
    | Expire(i: nat)                      // retry TTL is over, dead-letter back to the main queue
    | Discard(i: nat, sent: Sent)         // invalid JSON
    | FailNull(i: nat)                    // reading a field of null throws
    | InsertMarker(i: nat)
    | FindOrder(i: nat)
    | SaveOrder(i: nat, now: Time)
    | CommitTx(i: nat, seen: bool)        // not seen: it takes effect, but the connection drops before the answer
    | DbFails(i: nat)
    | Divert(i: nat, sent: Sent)          // publish to the retry queue or the DLQ
    | Ack(i: nat)
    | AckFails(i: nat)                    // ack throws inside the try block
    | Nack(i: nat)
    | CrashAt(i: nat)

  function Start(maxAttempts: Positive): State {
    State(maxAttempts, map[], map[], map[], [], {}, {}, map[], {}, {}, [], {}, {})
  }

  // ---------------------------------------------------------------------------------------------
  // Steps

  // The worker's attempt number: zero-based, and 0 when the field is unusable.
  function Attempt(body: Body): nat {
    if body.Msg? && body.attempt.Some? && body.attempt.value >= 0 then body.attempt.value else 0
  }

  // What a message is about; retries change the attempt number only.
  function Subject(body: Body): Body {
    if body.Msg? then body.(attempt := None) else body
  }

  predicate Named(body: Body) {
    body.Msg? && body.mid.Some? && body.oid.Some?
  }

  predicate IsHeld(s: State, i: nat) {
    i < |s.copies| && s.copies[i].place.Held?
  }

  predicate HeldAt(s: State, i: nat, pc: Pc) {
    i < |s.copies| && s.copies[i].place == Held(pc)
  }

  // A delivery with an open transaction, and what that transaction has locked: the marker's message id,
  // the order row against deletion (foreign key), and after the update the order row against updates.
  predicate InTx(c: Copy) {
    && c.place.Held? && (c.place.pc.MarkerInserted? || c.place.pc.OrderSeen? || c.place.pc.OrderSaved?)
    && Named(c.body)
  }

  predicate RowLocked(c: Copy, o: OrderId) {
    InTx(c) && c.place.pc.OrderSaved? && c.body.oid.value == o
  }

  ghost predicate MarkerHeld(s: State, i: nat, m: MessageId) {
    exists j :: 0 <= j < |s.copies| && j != i && InTx(s.copies[j]) && s.copies[j].body.mid.value == m
  }

  ghost predicate Enabled(s: State, step: Step) {
    match step
    case CreateOrder(o) => o !in s.known
    case Announce(o, m, _) => o in s.unannounced && m !in s.issued
    case LoseAnnouncement(o) => o in s.unannounced
    case Inject(_) => true
    case DeleteOrder(o) =>
      o in s.orders && forall j :: 0 <= j < |s.copies| ==> !(InTx(s.copies[j]) && s.copies[j].body.oid.value == o)
    case ReadForUpdate(u, o, _) => u !in s.updates && o in s.orders
    case LookUpForSave(u) => u in s.updates && s.updates[u].Loaded?
    case SaveUpdate(u) =>
      && u in s.updates && !s.updates[u].Loaded?
      && forall j :: 0 <= j < |s.copies| ==> !RowLocked(s.copies[j], s.updates[u].o)
    case DropUpdate(u) => u in s.updates
    case Deliver(i) => i < |s.copies| && s.copies[i].place.Main?
    case Expire(i) => i < |s.copies| && s.copies[i].place.Retry?
    case Discard(i, _) => HeldAt(s, i, Received) && s.copies[i].body.Garbage?
    case FailNull(i) => HeldAt(s, i, Received) && s.copies[i].body.JsonNull?
    case InsertMarker(i) =>
      HeldAt(s, i, Received) && s.copies[i].body.Msg?
      && (Named(s.copies[i].body) ==> !MarkerHeld(s, i, s.copies[i].body.mid.value))
    case FindOrder(i) => HeldAt(s, i, MarkerInserted) && Named(s.copies[i].body)
    case SaveOrder(i, _) =>
      HeldAt(s, i, OrderSeen(false)) && Named(s.copies[i].body)
      && forall j :: 0 <= j < |s.copies| ==> !RowLocked(s.copies[j], s.copies[i].body.oid.value)
    case CommitTx(i, _) =>
      IsHeld(s, i) && Named(s.copies[i].body)
      && (s.copies[i].place.pc == OrderSeen(true) || s.copies[i].place.pc.OrderSaved?)
    case DbFails(i) => IsHeld(s, i) && s.copies[i].body.Msg? && (s.copies[i].place.pc.Received? || InTx(s.copies[i]))
    case Divert(i, _) => HeldAt(s, i, Caught) && s.copies[i].body.Msg?
    case Ack(i) => HeldAt(s, i, Acking) || HeldAt(s, i, AckingMoved)
    case AckFails(i) => HeldAt(s, i, Acking)
    case Nack(i) => HeldAt(s, i, Throwing)
    case CrashAt(i) => IsHeld(s, i)
  }

  predicate UnderUpdate(s: State, o: OrderId) {
    exists u :: u in s.updates && s.updates[u].o == o
  }

  function IfUnderUpdate(s: State, o: OrderId): set<OrderId> {
    if UnderUpdate(s, o) then {o} else {}
  }

  function LookedUp(s: State, up: Update): Update {
    if up.o in s.orders
    then
      var now := s.orders[up.o];
      Updating(up.o, up.row, up.row.status != now.status, up.row.processedAt != now.processedAt)
    else Inserting(up.o, up.row)
  }

  // An update of a row that is gone changes none; an insert of one that is back violates the primary key.
  function Saved(s: State, up: Update): map<OrderId, Row>
    requires !up.Loaded?
  {
    if up.Updating? then
      if up.o !in s.orders then s.orders
      else
        s.orders[up.o := Row(if up.setsStatus then up.row.status else s.orders[up.o].status,
                             if up.setsTime then up.row.processedAt else s.orders[up.o].processedAt)]
    else if up.o in s.orders then s.orders
    else s.orders[up.o := up.row]
  }

  function Put(s: State, i: nat, place: Place): State
    requires i < |s.copies|
  {
    s.(copies := s.copies[i := s.copies[i].(place := place)])
  }

  function Goto(s: State, i: nat, pc: Pc): State
    requires i < |s.copies|
  {
    Put(s, i, Held(pc))
  }

  // Back to the main queue, by nack or by redelivery after a crash; an open transaction is gone.
  function Requeue(s: State, i: nat): State
    requires i < |s.copies|
  {
    var c := s.copies[i];
    s.(copies := s.copies[i := c.(place := Main, trail := c.trail.(requeues := c.trail.requeues + 1))])
  }

  function Enter(s: State, body: Body): State {
    s.(copies := s.copies + [Copy(body, Main, Trail(Attempt(body), 0, 0))],
       entered := s.entered + {Subject(body)})
  }

  // Publish `moved` on behalf of delivery i and go on to the ack, or throw.
  predicate Lost(sent: Sent) {
    sent.RefusedAndLost? || sent.Thrown?
  }

  function Forward(s: State, i: nat, moved: Copy, sent: Sent): State
    requires i < |s.copies|
  {
    var s' := Goto(s, i, if sent.Accepted? then AckingMoved else Throwing);
    if Lost(sent) then s' else s'.(copies := s'.copies + [moved])
  }

  // The copy the catch block publishes: the DLQ after the last attempt, else the retry queue.
  function Diverted(s: State, c: Copy): Copy
    requires c.body.Msg?
  {
    var attempt := Attempt(c.body);
    if attempt >= s.maxAttempts - 1 then c.(body := c.body.(attempt := Some(attempt)), place := Dlq)
    else c.(body := c.body.(attempt := Some(attempt + 1)), place := Retry)
  }

  function AfterInsert(s: State, body: Body): Pc
    requires body.Msg?
  {
    if !Named(body) then Caught                              // not a valid row
    else if body.mid.value in s.markers then Acking          // unique violation: duplicate delivery
    else if body.oid.value !in s.orders then Caught          // foreign key violation
    else MarkerInserted
  }

  function AfterFind(s: State, o: OrderId): Pc {
    if o !in s.orders then Caught else OrderSeen(s.orders[o].status.Processed?)
  }

  function Next(s: State, step: Step): State
    requires Enabled(s, step)
  {
    match step
    case CreateOrder(o) =>
      s.(orders := s.orders[o := Row(Pending, None)], known := s.known + {o}, unannounced := s.unannounced + {o})
    case Announce(o, m, sent) =>
      var s' := s.(unannounced := s.unannounced - {o}, issued := s.issued[m := o]);
      if Lost(sent) then s' else Enter(s', Msg(Some(m), Some(o), Some(0)))
    case LoseAnnouncement(o) => s.(unannounced := s.unannounced - {o})
    case Inject(body) => Enter(s, body)
    case DeleteOrder(o) =>
      s.(orders := s.orders - {o}, markers := map m | m in s.markers && s.markers[m] != o :: s.markers[m],
         outlived := s.outlived + IfUnderUpdate(s, o))
    case ReadForUpdate(u, o, to) =>
      s.(updates := s.updates[u := Loaded(o, if to.Some? then s.orders[o].(status := to.value) else s.orders[o])])
    case LookUpForSave(u) => s.(updates := s.updates[u := LookedUp(s, s.updates[u])])
    case SaveUpdate(u) => s.(orders := Saved(s, s.updates[u]), updates := s.updates - {u})
    case DropUpdate(u) => s.(updates := s.updates - {u})
    case Deliver(i) =>
      var c := s.copies[i];
      s.(copies := s.copies[i := c.(place := Held(Received), trail := c.trail.(deliveries := c.trail.deliveries + 1))])
    case Expire(i) => Put(s, i, Main)
    case Discard(i, sent) => Forward(s, i, s.copies[i].(place := Dlq), sent)
    case FailNull(i) => Goto(s, i, Throwing)
    case InsertMarker(i) => Goto(s, i, AfterInsert(s, s.copies[i].body))
    case FindOrder(i) => Goto(s, i, AfterFind(s, s.copies[i].body.oid.value))
    case SaveOrder(i, now) => Goto(s, i, OrderSaved(now))
    case CommitTx(i, seen) =>
      var m, o := s.copies[i].body.mid.value, s.copies[i].body.oid.value;
      var s' := Goto(s, i, if seen then Acking else Caught).(markers := s.markers[m := o], marked := s.marked + {m});
      if s.copies[i].place.pc.OrderSaved? then
        s'.(orders := s.orders[o := Row(Processed, Some(s.copies[i].place.pc.at))], effects := s.effects + [(m, o)],
            overtaken := s.overtaken + IfUnderUpdate(s, o))
      else s'
    case DbFails(i) => Goto(s, i, Caught)
    case Divert(i, sent) => Forward(s, i, Diverted(s, s.copies[i]), sent)
    case Ack(i) => Put(s, i, Acked)
    case AckFails(i) => Goto(s, i, Caught)
    case Nack(i) => Requeue(s, i)
    case CrashAt(i) => Requeue(s, i)
  }

  ghost predicate Runs(s: State, steps: seq<Step>, t: State)
    decreases |steps|
  {
    if steps == [] then s == t
    else Enabled(s, steps[0]) && Runs(Next(s, steps[0]), steps[1..], t)
  }

  lemma RunsCons(s: State, step: Step, steps: seq<Step>, t: State)
    requires Enabled(s, step) && Runs(Next(s, step), steps, t)
    ensures Runs(s, [step] + steps, t)
  {
    assert ([step] + steps)[1..] == steps;
  }

  lemma {:induction false} RunsAppend(s: State, before: seq<Step>, mid: State, later: seq<Step>, t: State)
    requires Runs(s, before, mid) && Runs(mid, later, t)
    ensures Runs(s, before + later, t)
    decreases |before|
  {
    if before == [] {
      assert before + later == later;
    } else {
      RunsAppend(Next(s, before[0]), before[1..], mid, later, t);
      assert (before + later)[1..] == before[1..] + later;
    }
  }

  lemma RunsSnoc(s: State, steps: seq<Step>, t: State, step: Step)
    requires Runs(s, steps, t) && Enabled(t, step)
    ensures Runs(s, steps + [step], Next(t, step))
  {
    assert Runs(Next(t, step), [], Next(t, step));
    RunsCons(t, step, [], Next(t, step));
    assert [step] + [] == [step];
    RunsAppend(s, steps, t, [step], Next(t, step));
  }
}
