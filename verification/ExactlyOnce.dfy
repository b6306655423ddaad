/**
 When processing happens once, and when an order's status tells whether it was processed: the exact conditions, with a
 concrete run of the pipeline for every case that does not meet them.
 */
module ExactlyOnce {
  import opened Wrappers
  import opened Pipeline
  import opened PipelineSafety
  import opened PipelineTheorems

  function Names(m: MessageId, o: OrderId): Body {
    Msg(Some(m), Some(o), None)
  }

  // ---------------------------------------------------------------------------------------------
  // Pieces of runs

  lemma ClosedSnoc(steps: seq<Step>, step: Step)
    requires ClosedSteps(steps) && ClosedStep(step)
    ensures ClosedSteps(steps + [step])
  {
  }

  lemma InsertsMarker(s0: State, before: seq<Step>, s: State, i: nat) returns (steps: seq<Step>, t: State)
    requires Runs(s0, before, s)
    requires i < |s.copies| && s.copies[i].place == Main && Named(s.copies[i].body) && s.markers == map[]
    requires !MarkerHeld(s, i, s.copies[i].body.mid.value) && s.copies[i].body.oid.value in s.orders
    ensures Runs(s0, steps, t) && (ClosedSteps(before) ==> ClosedSteps(steps))
    ensures t == s.(copies := t.copies) && |t.copies| == |s.copies|
    ensures t.copies[i].place == Held(MarkerInserted) && t.copies[i].body == s.copies[i].body
    ensures forall j :: 0 <= j < |s.copies| && j != i ==> t.copies[j] == s.copies[j]
  {
    var a := Next(s, Deliver(i));
    RunsSnoc(s0, before, s, Deliver(i));
    assert forall j :: 0 <= j < |s.copies| && j != i ==> a.copies[j] == s.copies[j];
    assert !MarkerHeld(a, i, a.copies[i].body.mid.value);
    t := Next(a, InsertMarker(i));
    RunsSnoc(s0, before + [Deliver(i)], a, InsertMarker(i));
    steps := before + [Deliver(i)] + [InsertMarker(i)];
  }

  // Delivery i is taken from the queue, inserts its marker and finds its order unprocessed.
  lemma SeesItPending(s0: State, before: seq<Step>, s: State, i: nat) returns (steps: seq<Step>, t: State)
    requires Runs(s0, before, s)
    requires i < |s.copies| && s.copies[i].place == Main && Named(s.copies[i].body) && s.markers == map[]
    requires !MarkerHeld(s, i, s.copies[i].body.mid.value)
    requires s.copies[i].body.oid.value in s.orders && s.orders[s.copies[i].body.oid.value].status == Pending
    ensures Runs(s0, steps, t) && (ClosedSteps(before) ==> ClosedSteps(steps))
    ensures t == s.(copies := t.copies) && |t.copies| == |s.copies|
    ensures t.copies[i].place == Held(OrderSeen(false)) && t.copies[i].body == s.copies[i].body
    ensures forall j :: 0 <= j < |s.copies| && j != i ==> t.copies[j] == s.copies[j]
  {
    var b;
    steps, b := InsertsMarker(s0, before, s, i);
    RunsSnoc(s0, steps, b, FindOrder(i));
    steps, t := steps + [FindOrder(i)], Next(b, FindOrder(i));
  }

  lemma SavesAndCommits(s0: State, before: seq<Step>, s: State, i: nat, now: Time) returns (steps: seq<Step>, t: State)
    requires Runs(s0, before, s)
    requires i < |s.copies| && s.copies[i].place == Held(OrderSeen(false)) && Named(s.copies[i].body)
    requires forall j :: 0 <= j < |s.copies| ==> !RowLocked(s.copies[j], s.copies[i].body.oid.value)
    ensures Runs(s0, steps, t) && (ClosedSteps(before) ==> ClosedSteps(steps))
    ensures var m, o := s.copies[i].body.mid.value, s.copies[i].body.oid.value;
            && t == s.(copies := t.copies, orders := s.orders[o := Row(Processed, Some(now))],
                       markers := s.markers[m := o], marked := s.marked + {m}, effects := s.effects + [(m, o)],
                       overtaken := s.overtaken + IfUnderUpdate(s, o))
            && |t.copies| == |s.copies| && t.copies[i].place == Held(Acking) && t.copies[i].body == s.copies[i].body
    ensures forall j :: 0 <= j < |s.copies| && j != i ==> t.copies[j] == s.copies[j]
  {
    var a := Next(s, SaveOrder(i, now));
    RunsSnoc(s0, before, s, SaveOrder(i, now));
    t := Next(a, CommitTx(i, true));
    RunsSnoc(s0, before + [SaveOrder(i, now)], a, CommitTx(i, true));
    steps := before + [SaveOrder(i, now)] + [CommitTx(i, true)];
  }

  // The worker dies before the ack: the message is back in the main queue.
  lemma ComesBack(s0: State, before: seq<Step>, s: State, i: nat) returns (steps: seq<Step>, t: State)
    requires Runs(s0, before, s) && IsHeld(s, i)
    ensures Runs(s0, steps, t) && t == s.(copies := t.copies) && |t.copies| == |s.copies|
    ensures t.copies[i].place == Main && t.copies[i].body == s.copies[i].body
  {
    RunsSnoc(s0, before, s, CrashAt(i));
    steps, t := before + [CrashAt(i)], Next(s, CrashAt(i));
  }

  // The order is deleted; the marker goes with it.
  lemma Deletes(s0: State, before: seq<Step>, s: State, m: MessageId, o: OrderId) returns (steps: seq<Step>, t: State)
    requires Runs(s0, before, s) && o in s.orders && s.markers == map[m := o]
    requires forall j :: 0 <= j < |s.copies| ==> !InTx(s.copies[j])
    ensures Runs(s0, steps, t) && (ClosedSteps(before) ==> ClosedSteps(steps))
    ensures t == s.(orders := s.orders - {o}, markers := map[], outlived := s.outlived + IfUnderUpdate(s, o))
  {
    RunsSnoc(s0, before, s, DeleteOrder(o));
    steps, t := before + [DeleteOrder(o)], Next(s, DeleteOrder(o));
  }

  // An update's save: the order is looked up, then written or inserted.
  lemma Saves(s0: State, before: seq<Step>, s: State, u: UpdateId) returns (steps: seq<Step>, t: State)
    requires Runs(s0, before, s) && u in s.updates && s.updates[u].Loaded?
    requires forall j :: 0 <= j < |s.copies| ==> !InTx(s.copies[j])
    ensures Runs(s0, steps, t) && (ClosedSteps(before) ==> ClosedSteps(steps))
    ensures t == s.(orders := s.orders[s.updates[u].o := s.updates[u].row], updates := s.updates - {u})
  {
    RunsSnoc(s0, before, s, LookUpForSave(u));
    var a := Next(s, LookUpForSave(u));
    RunsSnoc(s0, before + [LookUpForSave(u)], a, SaveUpdate(u));
    steps, t := before + [LookUpForSave(u)] + [SaveUpdate(u)], Next(a, SaveUpdate(u));
    assert a.updates - {u} == s.updates - {u};
  }

  // ---------------------------------------------------------------------------------------------
  // Two messages

  // Orders o and p exist, and both messages wait in the main queue.
  lemma TwoMessages(max: Positive, m: MessageId, o: OrderId, n: MessageId, p: OrderId)
    returns (steps: seq<Step>, t: State)
    ensures Runs(Start(max), steps, t)
    ensures t.orders == map[o := Row(Pending, None), p := Row(Pending, None)] && t.markers == map[] && t.effects == []
    ensures t.entered == {Names(m, o), Names(n, p)} && t.updates == map[] && t.outlived == {}
    ensures |t.copies| == 2 && t.copies[0].place == t.copies[1].place == Main
    ensures t.copies[0].body == Names(m, o) && t.copies[1].body == Names(n, p)
  {
    var s0 := Start(max);
    var s1 := Next(s0, CreateOrder(o));
    steps := [CreateOrder(o)];
    assert Runs(s1, [], s1);
    if p != o {
      RunsSnoc(s0, steps, s1, CreateOrder(p));
      s1 := Next(s1, CreateOrder(p));
      steps := steps + [CreateOrder(p)];
    }
    RunsSnoc(s0, steps, s1, Inject(Names(m, o)));
    var s2 := Next(s1, Inject(Names(m, o)));
    steps := steps + [Inject(Names(m, o))];
    RunsSnoc(s0, steps, s2, Inject(Names(n, p)));
    t := Next(s2, Inject(Names(n, p)));
    steps := steps + [Inject(Names(n, p))];
  }

  // Two messages with different ids for one order: both deliveries see it PENDING before either has saved it.
  lemma BothSeeItPending(max: Positive, m: MessageId, n: MessageId, o: OrderId) returns (steps: seq<Step>, t: State)
    requires m != n
    ensures Runs(Start(max), steps, t)
    ensures t.orders == map[o := Row(Pending, None)] && t.effects == [] && t.entered == {Names(m, o), Names(n, o)}
    ensures t.outlived == {} && t.updates == map[]
    ensures |t.copies| == 2 && t.copies[0].place == t.copies[1].place == Held(OrderSeen(false))
    ensures t.copies[0].body == Names(m, o) && t.copies[1].body == Names(n, o)
  {
    steps, t := TwoMessages(max, m, o, n, o);
    steps, t := SeesItPending(Start(max), steps, t, 0);
    steps, t := SeesItPending(Start(max), steps, t, 1);
  }

  /** Without a lock on the order row, two message ids for one order both take effect, and the second overwrites
      the time of processing. */
  lemma TwoIdsProcessOneOrderTwice(max: Positive, m: MessageId, n: MessageId, o: OrderId)
    returns (steps: seq<Step>, mid: State, later: seq<Step>, t: State)
    requires m != n
    ensures Runs(Start(max), steps, mid) && Runs(mid, later, t) && Runs(Start(max), steps + later, t)
    ensures t.entered == {Names(m, o), Names(n, o)} && t.outlived == {}
    ensures mid.effects == [(m, o)] && mid.orders == map[o := Row(Processed, Some(10))]
    ensures t.effects == [(m, o), (n, o)] && t.orders == map[o := Row(Processed, Some(20))]
  {
    var before, s := BothSeeItPending(max, m, n, o);
    steps, mid := SavesAndCommits(Start(max), before, s, 0, 10);
    assert Runs(mid, [], mid);
    later, t := SavesAndCommits(mid, [], mid, 1, 20);
    RunsAppend(Start(max), steps, mid, later, t);
  }

  lemma ProcessesFirst(max: Positive, m: MessageId, o: OrderId, p: OrderId) returns (steps: seq<Step>, t: State)
    requires o != p
    ensures Runs(Start(max), steps, t) && t.entered == {Names(m, o), Names(m, p)}
    ensures t.orders == map[o := Row(Processed, Some(10)), p := Row(Pending, None)] && t.markers == map[m := o]
    ensures t.effects == [(m, o)] && t.updates == map[] && t.outlived == {}
    ensures |t.copies| == 2 && t.copies[0].place == Held(Acking)
    ensures t.copies[1].place == Main && t.copies[1].body == Names(m, p)
  {
    steps, t := TwoMessages(max, m, o, m, p);
    steps, t := SeesItPending(Start(max), steps, t, 0);
    steps, t := SavesAndCommits(Start(max), steps, t, 0, 10);
  }

  /** One message id for two orders takes effect twice: deleting the first order takes the marker with it. */
  lemma OneIdProcessesTwoOrders(max: Positive, m: MessageId, o: OrderId, p: OrderId)
    returns (steps: seq<Step>, t: State)
    requires o != p
    ensures Runs(Start(max), steps, t)
    ensures t.entered == {Names(m, o), Names(m, p)} && t.outlived == {} && t.effects == [(m, o), (m, p)]
  {
    var s;
    steps, s := ProcessesFirst(max, m, o, p);
    steps, s := Deletes(Start(max), steps, s, m, o);
    steps, s := SeesItPending(Start(max), steps, s, 1);
    steps, t := SavesAndCommits(Start(max), steps, s, 1, 20);
  }

  // ---------------------------------------------------------------------------------------------
  // An update that outlives its order

  lemma WaitsUnderUpdate(max: Positive, m: MessageId, o: OrderId) returns (steps: seq<Step>, t: State)
    ensures Runs(Start(max), steps, t)
    ensures t.orders == map[o := Row(Pending, None)] && t.markers == map[] && t.effects == []
    ensures t.updates == map[0 := Loaded(o, Row(Pending, None))]
    ensures t.entered == {Names(m, o)} && t.outlived == {}
    ensures |t.copies| == 1 && t.copies[0].place == Main && t.copies[0].body == Names(m, o)
  {
    var s0 := Start(max);
    var s := Next(s0, CreateOrder(o));
    steps := [CreateOrder(o)];
    assert Runs(s, [], s);
    RunsSnoc(s0, steps, s, Inject(Names(m, o)));
    steps, s := steps + [Inject(Names(m, o))], Next(s, Inject(Names(m, o)));
    RunsSnoc(s0, steps, s, ReadForUpdate(0, o, None));
    steps, t := steps + [ReadForUpdate(0, o, None)], Next(s, ReadForUpdate(0, o, None));
  }

  // One message, processed while an update of the order is under way, and redelivered after a crash before the ack.
  lemma ProcessedUnderUpdate(max: Positive, m: MessageId, o: OrderId) returns (steps: seq<Step>, t: State)
    ensures Runs(Start(max), steps, t)
    ensures t.orders == map[o := Row(Processed, Some(10))] && t.markers == map[m := o] && t.effects == [(m, o)]
    ensures t.updates == map[0 := Loaded(o, Row(Pending, None))]
    ensures t.entered == {Names(m, o)} && t.outlived == {}
    ensures |t.copies| == 1 && t.copies[0].place == Main && t.copies[0].body == Names(m, o)
  {
    var s;
    steps, s := WaitsUnderUpdate(max, m, o);
    steps, s := SeesItPending(Start(max), steps, s, 0);
    steps, s := SavesAndCommits(Start(max), steps, s, 0, 10);
    steps, t := ComesBack(Start(max), steps, s, 0);
  }

  /** A message takes effect on its order twice: an updateOrder reads the order, the order is processed and deleted,
      the update saves what it read, and the message is redelivered. */
  lemma OutlivedOrderIsProcessedTwice(max: Positive, m: MessageId, o: OrderId) returns (steps: seq<Step>, t: State)
    ensures Runs(Start(max), steps, t)
    ensures t.entered == {Names(m, o)} && t.outlived == {o} && t.effects == [(m, o), (m, o)]
  {
    var s;
    steps, s := ProcessedUnderUpdate(max, m, o);
    assert 0 in s.updates && UnderUpdate(s, o);
    steps, s := Deletes(Start(max), steps, s, m, o);
    steps, s := Saves(Start(max), steps, s, 0);
    steps, s := SeesItPending(Start(max), steps, s, 0);
    steps, t := SavesAndCommits(Start(max), steps, s, 0, 20);
  }

  // ---------------------------------------------------------------------------------------------
  // Exactly when effects happen once

  // Runs in which only these messages enter and updates outlive none but these orders.
  ghost predicate Within(max: Positive, bodies: set<Body>, outlived: set<OrderId>, steps: seq<Step>, t: State) {
    Runs(Start(max), steps, t) && t.entered <= bodies && t.outlived <= outlived
  }

  predicate PairsOnce(effects: seq<(MessageId, OrderId)>) {
    forall j, k :: 0 <= j < k < |effects| ==> effects[j] != effects[k]
  }

  predicate OrdersOnce(effects: seq<(MessageId, OrderId)>) {
    forall j, k :: 0 <= j < k < |effects| ==> effects[j].1 != effects[k].1
  }

  predicate IdsOnce(effects: seq<(MessageId, OrderId)>) {
    forall j, k :: 0 <= j < k < |effects| ==> effects[j].0 != effects[k].0
  }

  ghost predicate Subjects(bodies: set<Body>) {
    forall b :: b in bodies ==> Subject(b) == b
  }

  // No message names one of these orders.
  ghost predicate Spared(bodies: set<Body>, orders: set<OrderId>) {
    forall b :: b in bodies && Named(b) ==> b.oid.value !in orders
  }

  lemma ConditionsShrink(small: set<Body>, large: set<Body>)
    requires small <= large
    ensures OneIdPerOrder(large) ==> OneIdPerOrder(small)
    ensures ConsistentIds(large) ==> ConsistentIds(small)
  {
  }

  lemma EffectsAreNamed(max: Positive, steps: seq<Step>, t: State, k: nat)
    requires Runs(Start(max), steps, t) && k < |t.effects|
    ensures Names(t.effects[k].0, t.effects[k].1) in t.entered
  {
    ReachableInv(max, steps, t);
    assert Settled(t, t.effects[k]);
  }

  // A message that names an order in the set can take effect on it twice.
  lemma UnsparedTwice(max: Positive, bodies: set<Body>, outlived: set<OrderId>) returns (steps: seq<Step>, t: State)
    requires Subjects(bodies) && !Spared(bodies, outlived)
    ensures Within(max, bodies, outlived, steps, t) && |t.effects| == 2 && t.effects[0] == t.effects[1]
  {
    var b :| b in bodies && Named(b) && b.oid.value in outlived;
    steps, t := OutlivedOrderIsProcessedTwice(max, b.mid.value, b.oid.value);
    assert b == Names(b.mid.value, b.oid.value);
  }

  /** For any messages that may enter and any orders whose updates may outlive them: no run lets a (message id, order)
      pair take effect twice if and only if none of the messages names one of those orders. */
  lemma PairsOnceExactly(max: Positive, bodies: set<Body>, outlived: set<OrderId>)
    requires Subjects(bodies)
    ensures (forall steps, t :: Within(max, bodies, outlived, steps, t) ==> PairsOnce(t.effects)) <==>
            Spared(bodies, outlived)
  {
    if Spared(bodies, outlived) {
      forall steps, t | Within(max, bodies, outlived, steps, t) ensures PairsOnce(t.effects) {
        EffectOncePerMessageAndOrder(max, steps, t);
        forall k | 0 <= k < |t.effects| ensures t.effects[k].1 !in t.outlived { EffectsAreNamed(max, steps, t, k); }
      }
    } else {
      var steps, t := UnsparedTwice(max, bodies, outlived);
      assert !PairsOnce(t.effects);
    }
  }

  /** No run processes an order twice if and only if, besides, no two of the messages name one order under different
      ids. */
  lemma OrdersOnceExactly(max: Positive, bodies: set<Body>, outlived: set<OrderId>)
    requires Subjects(bodies)
    ensures (forall steps, t :: Within(max, bodies, outlived, steps, t) ==> OrdersOnce(t.effects)) <==>
            OneIdPerOrder(bodies) && Spared(bodies, outlived)
  {
    if !Spared(bodies, outlived) {
      var steps, t := UnsparedTwice(max, bodies, outlived);
      assert !OrdersOnce(t.effects);
    } else if OneIdPerOrder(bodies) {
      forall steps, t | Within(max, bodies, outlived, steps, t) ensures OrdersOnce(t.effects) {
        ConditionsShrink(t.entered, bodies);
        EffectOncePerOrder(max, steps, t);
        forall k | 0 <= k < |t.effects| ensures t.effects[k].1 !in t.outlived { EffectsAreNamed(max, steps, t, k); }
      }
    } else {
      var a, b :| a in bodies && b in bodies && Named(a) && Named(b) && a.oid == b.oid && a.mid != b.mid;
      var steps, mid, later, t := TwoIdsProcessOneOrderTwice(max, a.mid.value, b.mid.value, a.oid.value);
      assert a == Names(a.mid.value, a.oid.value) && b == Names(b.mid.value, a.oid.value);
      assert Within(max, bodies, outlived, steps + later, t);
      assert !OrdersOnce(t.effects) by { assert t.effects[0].1 == t.effects[1].1; }
    }
  }

  /** No run lets a message id take effect twice if and only if, besides, each id names one order. */
  lemma IdsOnceExactly(max: Positive, bodies: set<Body>, outlived: set<OrderId>)
    requires Subjects(bodies)
    ensures (forall steps, t :: Within(max, bodies, outlived, steps, t) ==> IdsOnce(t.effects)) <==>
            ConsistentIds(bodies) && Spared(bodies, outlived)
  {
    if !Spared(bodies, outlived) {
      var steps, t := UnsparedTwice(max, bodies, outlived);
      assert !IdsOnce(t.effects);
    } else if ConsistentIds(bodies) {
      forall steps, t | Within(max, bodies, outlived, steps, t) ensures IdsOnce(t.effects) {
        ConditionsShrink(t.entered, bodies);
        EffectOncePerMessageId(max, steps, t);
        forall k | 0 <= k < |t.effects| ensures t.effects[k].1 !in t.outlived { EffectsAreNamed(max, steps, t, k); }
      }
    } else {
      var a, b :| a in bodies && b in bodies && Named(a) && Named(b) && a.mid == b.mid && a.oid != b.oid;
      var steps, t := OneIdProcessesTwoOrders(max, a.mid.value, a.oid.value, b.oid.value);
      assert a == Names(a.mid.value, a.oid.value) && b == Names(a.mid.value, b.oid.value);
      assert Within(max, bodies, outlived, steps, t);
      assert !IdsOnce(t.effects) by { assert t.effects[0].0 == t.effects[1].0; }
    }
  }

  // ---------------------------------------------------------------------------------------------
  // Exactly when the status tells

  // Runs of the closed system in which updates are crossed for these orders only.
  ghost predicate ClosedWithin(
      max: Positive, overtaken: set<OrderId>, outlived: set<OrderId>, steps: seq<Step>, t: State) {
    Runs(Start(max), steps, t) && ClosedSteps(steps) && t.overtaken <= overtaken && t.outlived <= outlived
  }

  ghost predicate Told(t: State, o: OrderId) {
    o in t.orders ==> StatusMatches(t, o)
  }

  // The order exists and its message waits in the main queue.
  lemma Announced(max: Positive, o: OrderId, underUpdate: bool) returns (steps: seq<Step>, t: State)
    ensures Runs(Start(max), steps, t) && ClosedSteps(steps)
    ensures t.orders == map[o := Row(Pending, None)] && t.markers == map[] && t.overtaken == {} && t.outlived == {}
    ensures t.updates == if underUpdate then map[0 := Loaded(o, Row(Pending, None))] else map[]
    ensures |t.copies| == 1 && t.copies[0].place == Main && Named(t.copies[0].body)
    ensures t.copies[0].body.mid == Some(0) && t.copies[0].body.oid == Some(o)
  {
    var s0 := Start(max);
    var s := Next(s0, CreateOrder(o));
    steps := [CreateOrder(o)];
    assert Runs(s, [], s);
    if underUpdate {
      RunsSnoc(s0, steps, s, ReadForUpdate(0, o, None));
      ClosedSnoc(steps, ReadForUpdate(0, o, None));
      steps, s := steps + [ReadForUpdate(0, o, None)], Next(s, ReadForUpdate(0, o, None));
    }
    RunsSnoc(s0, steps, s, Announce(o, 0, Accepted));
    ClosedSnoc(steps, Announce(o, 0, Accepted));
    steps, t := steps + [Announce(o, 0, Accepted)], Next(s, Announce(o, 0, Accepted));
  }

  /** A lost update: an updateOrder that changes no status reads the order, a worker processes it, and the save puts
      PENDING back while the marker stays. */
  lemma OvertakenUpdateUndoes(max: Positive, o: OrderId) returns (steps: seq<Step>, t: State)
    ensures ClosedWithin(max, {o}, {}, steps, t)
    ensures t.orders == map[o := Row(Pending, None)] && t.markers == map[0 := o]
  {
    var s;
    steps, s := Announced(max, o, true);
    assert 0 in s.updates;
    steps, s := SeesItPending(Start(max), steps, s, 0);
    steps, s := SavesAndCommits(Start(max), steps, s, 0, 10);
    steps, t := Saves(Start(max), steps, s, 0);
  }

  /** And one that reads the processed order and saves it after it was deleted leaves it PROCESSED without a marker. */
  lemma OutlivedOrderLosesMarker(max: Positive, o: OrderId) returns (steps: seq<Step>, t: State)
    ensures ClosedWithin(max, {}, {o}, steps, t)
    ensures t.orders == map[o := Row(Processed, Some(10))] && t.markers == map[]
  {
    var s;
    steps, s := Announced(max, o, false);
    steps, s := SeesItPending(Start(max), steps, s, 0);
    steps, s := SavesAndCommits(Start(max), steps, s, 0, 10);
    assert !UnderUpdate(s, o);
    RunsSnoc(Start(max), steps, s, ReadForUpdate(0, o, None));
    ClosedSnoc(steps, ReadForUpdate(0, o, None));
    steps, s := steps + [ReadForUpdate(0, o, None)], Next(s, ReadForUpdate(0, o, None));
    assert 0 in s.updates && UnderUpdate(s, o);
    steps, s := Deletes(Start(max), steps, s, 0, o);
    steps, t := Saves(Start(max), steps, s, 0);
  }

  /** With messages from the producer only and updates that ask for no status: an order is PROCESSED exactly when a
      committed marker names it, in every run, if and only if no update of it is ever under way while it is processed
      or deleted. */
  lemma StatusTellsExactly(max: Positive, overtaken: set<OrderId>, outlived: set<OrderId>, o: OrderId)
    ensures (forall steps, t :: ClosedWithin(max, overtaken, outlived, steps, t) ==> Told(t, o)) <==>
            o !in overtaken && o !in outlived
  {
    if o in overtaken {
      var steps, t := OvertakenUpdateUndoes(max, o);
      assert ClosedWithin(max, overtaken, outlived, steps, t);
      assert 0 in t.markers && t.markers[0] == o && !Told(t, o);
    } else if o in outlived {
      var steps, t := OutlivedOrderLosesMarker(max, o);
      assert ClosedWithin(max, overtaken, outlived, steps, t);
      assert !Told(t, o);
    } else {
      forall steps, t | ClosedWithin(max, overtaken, outlived, steps, t) ensures Told(t, o) {
        MarkerExactlyWhenProcessed(max, steps, t);
      }
    }
  }
}
