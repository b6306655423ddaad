/**
 What every run of the message pipeline guarantees.
 */
module PipelineTheorems {
  import opened Wrappers
  import opened Pipeline
  import opened PipelineSafety

  lemma ReachableInv(max: Positive, steps: seq<Step>, t: State)
    requires Runs(Start(max), steps, t)
    ensures Inv(t)
  {
    RunKeepsInv(Start(max), steps, t);
  }

  /** With crashes, requeues and refused publishes anywhere, every message that ever entered the broker still
      has a copy somewhere, or a marker for its id was committed. */
  lemma NoMessageLost(max: Positive, steps: seq<Step>, t: State)
    requires Runs(Start(max), steps, t)
    ensures forall b :: b in t.entered ==> Kept(t, b)
  {
    ReachableInv(max, steps, t);
  }

  /** So an ack that leaves no other live copy of its message behind only ever follows a commit. */
  lemma LastAckFollowsCommit(max: Positive, steps: seq<Step>, t: State, i: nat)
    requires Runs(Start(max), steps, t) && Enabled(t, Ack(i))
    requires forall j :: 0 <= j < |t.copies| && j != i ==> !LiveCopyOf(t.copies[j], Subject(t.copies[i].body))
    ensures t.copies[i].body.Msg? && t.copies[i].body.mid.Some? && t.copies[i].body.mid.value in t.marked
  {
    ReachableInv(max, steps, t);
    assert CopyOk(t, t.copies[i]);
    assert Kept(t, Subject(t.copies[i].body));
    assert !Live(t.copies[i]);
  }

  /** Committed markers always name live orders. */
  lemma MarkersNameLiveOrders(max: Positive, steps: seq<Step>, t: State)
    requires Runs(Start(max), steps, t)
    ensures forall m :: m in t.markers ==> t.markers[m] in t.orders
  {
    ReachableInv(max, steps, t);
  }

  // All messages that carry one message id name one order.
  ghost predicate ConsistentIds(entered: set<Body>) {
    forall a, b :: a in entered && b in entered && Named(a) && Named(b) && a.mid == b.mid ==> a.oid == b.oid
  }

  /** At-least-once delivery, parallel workers, rollbacks, deletes, updates and strangers' messages: no (message id,
      order) pair takes effect twice, unless the order was deleted while an update of it was under way, whose save
      then inserted it again. */
  lemma EffectOncePerMessageAndOrder(max: Positive, steps: seq<Step>, t: State)
    requires Runs(Start(max), steps, t)
    ensures forall j, k :: 0 <= j < k < |t.effects| && t.effects[j] == t.effects[k] ==> t.effects[j].1 in t.outlived
  {
    ReachableInv(max, steps, t);
  }

  /** If a message id always names the same order, it takes effect at most once, with the same exception. */
  lemma EffectOncePerMessageId(max: Positive, steps: seq<Step>, t: State)
    requires Runs(Start(max), steps, t) && ConsistentIds(t.entered)
    ensures forall j, k :: 0 <= j < k < |t.effects| && t.effects[j].0 == t.effects[k].0 ==>
              t.effects[j].1 in t.outlived
  {
    ReachableInv(max, steps, t);
    forall j, k | 0 <= j < k < |t.effects| && t.effects[j].0 == t.effects[k].0
      ensures t.effects[j].1 in t.outlived
    {
      assert Settled(t, t.effects[j]) && Settled(t, t.effects[k]);
    }
  }

  // No order is named by messages with two different ids.
  ghost predicate OneIdPerOrder(entered: set<Body>) {
    forall a, b :: a in entered && b in entered && Named(a) && Named(b) && a.oid == b.oid ==> a.mid == b.mid
  }

  /** If an order is named by one message id only, it is processed at most once, with the same exception, even when
      updateOrder sets its status back. ExactlyOnce shows that the conditions are needed. */
  lemma EffectOncePerOrder(max: Positive, steps: seq<Step>, t: State)
    requires Runs(Start(max), steps, t) && OneIdPerOrder(t.entered)
    ensures forall j, k :: 0 <= j < k < |t.effects| && t.effects[j].1 == t.effects[k].1 ==>
              t.effects[j].1 in t.outlived
  {
    ReachableInv(max, steps, t);
    forall j, k | 0 <= j < k < |t.effects| && t.effects[j].1 == t.effects[k].1
      ensures t.effects[j].1 in t.outlived
    {
      assert Settled(t, t.effects[j]) && Settled(t, t.effects[k]);
    }
  }

  /** The only ways a message id takes effect twice: its first order was deleted since, or was deleted once while an
      update of it was under way. */
  lemma SecondEffectNeedsDeletedOrder(max: Positive, steps: seq<Step>, t: State, j: nat, k: nat)
    requires Runs(Start(max), steps, t)
    requires j < k < |t.effects| && t.effects[j].0 == t.effects[k].0
    ensures t.effects[j].1 in t.known
    ensures t.effects[j].1 in t.outlived || (t.effects[j].1 != t.effects[k].1 && t.effects[j].1 !in t.orders)
  {
    ReachableInv(max, steps, t);
    assert Settled(t, t.effects[j]);
  }

  /** The branch of processOrderMessage that finds no order after inserting the marker is never taken: the
      marker's foreign key keeps the order row from being deleted until the transaction ends. */
  lemma OrderIsFoundAfterMarker(max: Positive, steps: seq<Step>, t: State, i: nat)
    requires Runs(Start(max), steps, t) && Enabled(t, FindOrder(i))
    ensures t.copies[i].body.oid.value in t.orders
    ensures IsHeld(Next(t, FindOrder(i)), i) && Next(t, FindOrder(i)).copies[i].place.pc.OrderSeen?
  {
    ReachableInv(max, steps, t);
    assert CopyOk(t, t.copies[i]);
  }

  // ---------------------------------------------------------------------------------------------
  // The closed system: messages come from the producer alone, and no update asks for another status

  predicate ClosedStep(step: Step) {
    !step.Inject? && (step.ReadForUpdate? ==> step.to.None?)
  }

  predicate ClosedSteps(steps: seq<Step>) {
    forall k :: 0 <= k < |steps| ==> ClosedStep(steps[k])
  }

  ghost predicate Marked(s: State, o: OrderId) {
    exists m :: m in s.markers && s.markers[m] == o
  }

  // An update of this order, as it was read, was overtaken by a worker's commit or outlived the order.
  predicate Crossed(s: State, o: OrderId) {
    o in s.overtaken || o in s.outlived
  }

  predicate IssuedCopy(s: State, c: Copy) {
    && Named(c.body) && c.body.attempt.Some? && c.body.attempt.value >= 0
    && c.body.mid.value in s.issued && s.issued[c.body.mid.value] == c.body.oid.value
    && (c.place == Held(OrderSeen(true)) ==> Crossed(s, c.body.oid.value))
  }

  ghost predicate IssuedOnce(s: State) {
    && (forall m :: m in s.issued ==> s.issued[m] in s.known && s.issued[m] !in s.unannounced)
    && (forall m, n :: m in s.issued && n in s.issued && s.issued[m] == s.issued[n] ==> m == n)
    && (forall m :: m in s.markers ==> m in s.issued && s.issued[m] == s.markers[m])
    && (forall k :: 0 <= k < |s.effects| ==> s.effects[k].0 in s.issued && s.issued[s.effects[k].0] == s.effects[k].1)
  }

  ghost predicate RowOk(s: State, o: OrderId)
    requires o in s.orders
  {
    && (s.orders[o].status == Processed <==> Marked(s, o))
    && (s.orders[o].status == Pending <==> !Marked(s, o))
    && (s.orders[o].processedAt.Some? <==> Marked(s, o))
  }

  // An update of an order that was not crossed has nothing to change.
  predicate UpdateOk(s: State, up: Update) {
    !Crossed(s, up.o) ==>
      && up.o in s.orders
      && match up
         case Loaded(o, row) => row == s.orders[o]
         case Updating(_, _, setsStatus, setsTime) => !setsStatus && !setsTime
         case Inserting(_, _) => false
  }

  ghost predicate UpdatesOk(s: State) {
    forall u :: u in s.updates ==> UpdateOk(s, s.updates[u])
  }

  ghost predicate RowsOk(s: State) {
    forall o :: o in s.orders && !Crossed(s, o) ==> RowOk(s, o)
  }

  ghost predicate ClosedInv(s: State) {
    && IssuedOnce(s)
    && (forall i :: 0 <= i < |s.copies| ==> IssuedCopy(s, s.copies[i]))
    && RowsOk(s) && UpdatesOk(s)
  }

  lemma CommitKeepsIssued(s: State, step: Step)
    requires Enabled(s, step) && step.CommitTx? && IssuedOnce(s) && IssuedCopy(s, s.copies[step.i])
    ensures IssuedOnce(Next(s, step))
  {
  }

  lemma AnnounceKeepsIssued(s: State, step: Step)
    requires Enabled(s, step) && step.Announce? && TablesOk(s) && IssuedOnce(s)
    ensures IssuedOnce(Next(s, step))
  {
  }

  lemma ClosedStepKeepsIssued(s: State, step: Step)
    requires Enabled(s, step) && ClosedStep(step) && Inv(s) && ClosedInv(s)
    ensures IssuedOnce(Next(s, step))
  {
    if step.CommitTx? {
      CommitKeepsIssued(s, step);
    } else if step.Announce? {
      AnnounceKeepsIssued(s, step);
    } else {
      QuietStep(s, step);
      IssuedStays(s, Next(s, step));
    }
  }

  predicate Quieter(s: State, s': State) {
    && s'.issued == s.issued && s'.effects == s.effects && s.known <= s'.known
    && (forall m :: m in s'.markers ==> m in s.markers && s'.markers[m] == s.markers[m])
    && (forall o :: o in s'.unannounced && o in s.known ==> o in s.unannounced)
  }

  lemma QuietStep(s: State, step: Step)
    requires Enabled(s, step) && TablesOk(s) && !step.CommitTx? && !step.Announce?
    ensures Quieter(s, Next(s, step))
  {
    if Moved(step).Some? {
      MoveKeepsTables(s, step);
    } else if IsUpdateStep(step) {
      UpdateKeepsTables(s, step);
    }
  }

  lemma IssuedStays(s: State, s': State)
    requires Quieter(s, s') && IssuedOnce(s)
    ensures IssuedOnce(s')
  {
  }

  lemma IssuedGrows(s: State, step: Step)
    requires Enabled(s, step)
    ensures forall m :: m in s.issued ==> m in Next(s, step).issued && Next(s, step).issued[m] == s.issued[m]
    ensures s.overtaken <= Next(s, step).overtaken && s.outlived <= Next(s, step).outlived
  {
    if Moved(step).Some? && !step.CommitTx? { MoveKeepsTables(s, step); }
  }

  // Only looking the order up can find it processed.
  lemma MovedCopyKeepsBody(s: State, step: Step)
    requires Enabled(s, step) && Moved(step).Some? && !step.FindOrder?
    ensures var i := Moved(step).value;
            && i < |s.copies| && i < |Next(s, step).copies|
            && Next(s, step).copies[i].body == s.copies[i].body
            && (Next(s, step).copies[i].place == Held(OrderSeen(true)) ==> s.copies[i].place == Held(OrderSeen(true)))
  {
  }

  lemma FoundOrderIsPending(s: State, i: nat)
    requires Enabled(s, FindOrder(i)) && Inv(s) && ClosedInv(s)
    ensures Crossed(s, s.copies[i].body.oid.value)
            || Next(s, FindOrder(i)).copies[i] == s.copies[i].(place := Held(OrderSeen(false)))
  {
    if !Crossed(s, s.copies[i].body.oid.value) { PendingBeforeMarker(s, i); }
  }

  lemma NewCopyIsIssued(s: State, step: Step)
    requires Enabled(s, step) && ClosedStep(step) && |Next(s, step).copies| == |s.copies| + 1
    requires forall i :: 0 <= i < |s.copies| ==> IssuedCopy(s, s.copies[i])
    ensures IssuedCopy(Next(s, step), Next(s, step).copies[|s.copies|])
  {
    if Moved(step).Some? { assert IssuedCopy(s, s.copies[Moved(step).value]); }
  }

  lemma ClosedStepKeepsCopies(s: State, step: Step)
    requires Enabled(s, step) && ClosedStep(step) && Inv(s) && ClosedInv(s)
    ensures forall i :: 0 <= i < |Next(s, step).copies| ==> IssuedCopy(Next(s, step), Next(s, step).copies[i])
  {
    forall i | 0 <= i < |Next(s, step).copies| ensures IssuedCopy(Next(s, step), Next(s, step).copies[i]) {
      CopyIsIssued(s, step, i);
    }
  }

  lemma CopyIsIssued(s: State, step: Step, i: nat)
    requires Enabled(s, step) && ClosedStep(step) && Inv(s) && ClosedInv(s) && i < |Next(s, step).copies|
    ensures IssuedCopy(Next(s, step), Next(s, step).copies[i])
  {
    if i < |s.copies| {
      OldCopyStaysIssued(s, step, i);
    } else {
      assert i == |s.copies| && |Next(s, step).copies| == |s.copies| + 1 by { StepMovesOneCopy(s, step); }
      NewCopyIsIssued(s, step);
    }
  }

  lemma OldCopyStaysIssued(s: State, step: Step, i: nat)
    requires Enabled(s, step) && ClosedStep(step) && Inv(s) && ClosedInv(s)
    requires i < |s.copies| && i < |Next(s, step).copies|
    ensures IssuedCopy(Next(s, step), Next(s, step).copies[i])
  {
    assert IssuedCopy(s, s.copies[i]);
    IssuedGrows(s, step);
    StepMovesOneCopy(s, step);
    if step == FindOrder(i) {
      FoundOrderIsPending(s, i);
      assert CopyOk(s, s.copies[i]);
    } else if Moved(step) == Some(i) {
      MovedCopyKeepsBody(s, step);
    }
  }

  // An open transaction's order is still pending: its only message id has no marker yet.
  lemma PendingBeforeMarker(s: State, i: nat)
    requires Inv(s) && ClosedInv(s) && i < |s.copies| && InTx(s.copies[i])
    requires !Crossed(s, s.copies[i].body.oid.value)
    ensures s.copies[i].body.oid.value in s.orders && !Marked(s, s.copies[i].body.oid.value)
    ensures s.orders[s.copies[i].body.oid.value] == Row(Pending, None)
  {
    assert CopyOk(s, s.copies[i]) && IssuedCopy(s, s.copies[i]);
    assert RowOk(s, s.copies[i].body.oid.value);
  }

  lemma DeleteKeepsRow(s: State, step: Step, o: OrderId)
    requires Enabled(s, step) && step.DeleteOrder? && o in Next(s, step).orders && RowOk(s, o)
    ensures RowOk(Next(s, step), o) && Next(s, step).orders[o] == s.orders[o]
  {
    if m :| m in s.markers && s.markers[m] == o { assert m in Next(s, step).markers; }
  }

  lemma CommitKeepsOtherRow(s: State, step: Step, o: OrderId)
    requires Enabled(s, step) && step.CommitTx? && o in Next(s, step).orders && o in s.orders && RowOk(s, o)
    requires o != s.copies[step.i].body.oid.value && s.copies[step.i].body.mid.value !in s.markers
    ensures RowOk(Next(s, step), o) && Next(s, step).orders[o] == s.orders[o]
  {
    if m :| m in s.markers && s.markers[m] == o {
      assert m in Next(s, step).markers && Next(s, step).markers[m] == o;
    }
  }

  lemma CommitSetsRow(s: State, step: Step)
    requires Enabled(s, step) && step.CommitTx? && s.copies[step.i].place.pc.OrderSaved?
    ensures s.copies[step.i].body.oid.value in Next(s, step).orders
    ensures RowOk(Next(s, step), s.copies[step.i].body.oid.value)
  {
    assert Next(s, step).markers[s.copies[step.i].body.mid.value] == s.copies[step.i].body.oid.value;
  }

  lemma CommitKeepsRow(s: State, step: Step, o: OrderId)
    requires Enabled(s, step) && step.CommitTx? && Inv(s) && ClosedInv(s)
    requires o in Next(s, step).orders && !Crossed(s, o)
    ensures RowOk(Next(s, step), o)
    ensures o in s.orders && s.orders[o].processedAt.Some? ==> Next(s, step).orders[o] == s.orders[o]
  {
    var c := s.copies[step.i];
    assert CopyOk(s, c) && IssuedCopy(s, c);
    if o == c.body.oid.value {
      PendingBeforeMarker(s, step.i);
      CommitSetsRow(s, step);
    } else {
      CommitKeepsOtherRow(s, step, o);
    }
  }

  // The save of an update that was not crossed writes nothing.
  lemma UpdateKeepsRow(s: State, step: Step, o: OrderId)
    requires Enabled(s, step) && IsUpdateStep(step) && UpdatesOk(s) && o in Next(s, step).orders && !Crossed(s, o)
    ensures o in s.orders && Next(s, step).orders[o] == s.orders[o]
  {
    if step.SaveUpdate? { assert UpdateOk(s, s.updates[step.u]); }
  }

  lemma QuietStepKeepsRow(s: State, step: Step, o: OrderId)
    requires Enabled(s, step) && ClosedStep(step) && !step.CommitTx? && !step.DeleteOrder?
    requires TablesOk(s) && UpdatesOk(s) && o in Next(s, step).orders && !Crossed(s, o)
    requires o in s.orders ==> RowOk(s, o)
    ensures RowOk(Next(s, step), o)
    ensures o in s.orders ==> Next(s, step).orders[o] == s.orders[o]
  {
    if Moved(step).Some? {
      MoveKeepsTables(s, step);
    } else if IsUpdateStep(step) {
      UpdateKeepsTables(s, step);
      UpdateKeepsRow(s, step, o);
    }
    assert Next(s, step).markers == s.markers;
    assert Marked(Next(s, step), o) <==> Marked(s, o);
  }

  lemma ClosedStepKeepsRow(s: State, step: Step, o: OrderId)
    requires Enabled(s, step) && ClosedStep(step) && Inv(s) && ClosedInv(s)
    requires o in Next(s, step).orders && !Crossed(Next(s, step), o)
    ensures RowOk(Next(s, step), o)
    ensures o in s.orders && s.orders[o].processedAt.Some? ==> Next(s, step).orders[o] == s.orders[o]
  {
    IssuedGrows(s, step);
    if step.CommitTx? {
      CommitKeepsRow(s, step, o);
    } else if step.DeleteOrder? {
      DeleteKeepsRow(s, step, o);
    } else {
      QuietStepKeepsRow(s, step, o);
    }
  }

  // Whatever a step does to an order with an update under way, the update still fits it or the order was crossed.
  lemma OldUpdateStaysOk(s: State, step: Step, up: Update)
    requires Enabled(s, step) && TablesOk(s) && UpdatesOk(s) && UpdateOk(s, up)
    requires exists u :: u in s.updates && s.updates[u] == up
    ensures UpdateOk(Next(s, step), up)
  {
    IssuedGrows(s, step);
    if Moved(step).Some? && !step.CommitTx? {
      MoveKeepsTables(s, step);
    } else if IsUpdateStep(step) && !Crossed(s, up.o) {
      UpdateKeepsTables(s, step);
      UpdateKeepsRow(s, step, up.o);
    } else if step.CommitTx? || step.DeleteOrder? {
      assert UnderUpdate(s, up.o);
    }
  }

  lemma ClosedStepKeepsUpdates(s: State, step: Step)
    requires Enabled(s, step) && ClosedStep(step) && TablesOk(s) && UpdatesOk(s)
    ensures UpdatesOk(Next(s, step))
  {
    var s' := Next(s, step);
    forall u | u in s'.updates ensures UpdateOk(s', s'.updates[u]) {
      if u in s.updates && s'.updates[u] == s.updates[u] {
        OldUpdateStaysOk(s, step, s.updates[u]);
      } else {
        NewUpdateIsOk(s, step, u);
      }
    }
  }

  lemma NewUpdateIsOk(s: State, step: Step, u: UpdateId)
    requires Enabled(s, step) && ClosedStep(step) && UpdatesOk(s)
    requires u in Next(s, step).updates && !(u in s.updates && Next(s, step).updates[u] == s.updates[u])
    ensures UpdateOk(Next(s, step), Next(s, step).updates[u])
  {
    assert step.ReadForUpdate? || step.LookUpForSave?;
    if step.LookUpForSave? { LookedUpIsOk(s, step.u); }
  }

  lemma LookedUpIsOk(s: State, u: UpdateId)
    requires Enabled(s, LookUpForSave(u)) && UpdateOk(s, s.updates[u])
    ensures UpdateOk(Next(s, LookUpForSave(u)), LookedUp(s, s.updates[u]))
  {
  }

  lemma ClosedStepKeepsRows(s: State, step: Step)
    requires Enabled(s, step) && ClosedStep(step) && Inv(s) && ClosedInv(s)
    ensures RowsOk(Next(s, step))
  {
    forall o | o in Next(s, step).orders && !Crossed(Next(s, step), o) ensures RowOk(Next(s, step), o) {
      ClosedStepKeepsRow(s, step, o);
    }
  }

  lemma {:induction false} ClosedRunKeepsInv(s: State, steps: seq<Step>, t: State)
    requires Inv(s) && ClosedInv(s) && Runs(s, steps, t) && ClosedSteps(steps)
    ensures Inv(t) && ClosedInv(t)
    decreases |steps|
  {
    if steps != [] {
      var step, s' := steps[0], Next(s, steps[0]);
      StepKeepsInv(s, step);
      ClosedStepKeepsIssued(s, step);
      ClosedStepKeepsCopies(s, step);
      ClosedStepKeepsRows(s, step);
      ClosedStepKeepsUpdates(s, step);
      ClosedRunKeepsInv(s', steps[1..], t);
    }
  }

  lemma ClosedReachable(max: Positive, steps: seq<Step>, t: State)
    requires Runs(Start(max), steps, t) && ClosedSteps(steps)
    ensures Inv(t) && ClosedInv(t)
  {
    ClosedRunKeepsInv(Start(max), steps, t);
  }

  ghost predicate StatusMatches(s: State, o: OrderId)
    requires o in s.orders
  {
    && (s.orders[o].status == Processed <==> exists m :: m in s.markers && s.markers[m] == o)
    && (s.orders[o].processedAt.Some? <==> s.orders[o].status == Processed)
  }

  /** In the closed system every order has at most one message id and, unless an update outlived it, takes effect at
      most once; and while it lives it is PROCESSED (with a time) exactly when a committed marker names it, unless an
      update of it was crossed by a commit or a delete. */
  lemma MarkerExactlyWhenProcessed(max: Positive, steps: seq<Step>, t: State)
    requires Runs(Start(max), steps, t) && ClosedSteps(steps)
    ensures forall m, n :: m in t.issued && n in t.issued && t.issued[m] == t.issued[n] ==> m == n
    ensures forall j, k :: 0 <= j < k < |t.effects| && t.effects[j].1 == t.effects[k].1 ==> t.effects[j].1 in t.outlived
    ensures forall o :: o in t.orders && !Crossed(t, o) ==> StatusMatches(t, o)
  {
    ClosedReachable(max, steps, t);
    forall o | o in t.orders && !Crossed(t, o) ensures StatusMatches(t, o) {
      assert RowOk(t, o);
    }
  }

  /** In the closed system the time of processing, once set, is never changed, and no delivery finds its order
      processed already, unless an update of the order was crossed. */
  lemma ProcessedAtIsFinal(max: Positive, steps: seq<Step>, t: State, step: Step, o: OrderId)
    requires Runs(Start(max), steps, t) && ClosedSteps(steps) && Enabled(t, step) && ClosedStep(step)
    requires o in t.orders && o in Next(t, step).orders && t.orders[o].processedAt.Some?
    requires !Crossed(Next(t, step), o)
    ensures Next(t, step).orders[o] == t.orders[o]
    ensures forall i :: 0 <= i < |t.copies| && t.copies[i].place == Held(OrderSeen(true)) ==>
              Named(t.copies[i].body) && Crossed(t, t.copies[i].body.oid.value)
  {
    ClosedReachable(max, steps, t);
    ClosedStepKeepsRow(t, step, o);
    forall i | 0 <= i < |t.copies| && t.copies[i].place == Held(OrderSeen(true))
      ensures Named(t.copies[i].body) && Crossed(t, t.copies[i].body.oid.value)
    {
      assert IssuedCopy(t, t.copies[i]);
    }
  }

  // ---------------------------------------------------------------------------------------------
  // updateOrder by itself

  /** With nothing in between, an update sets the status it is asked to set, leaves the time and every other order as
      they were, and changes nothing else. */
  lemma UpdateAlone(s: State, u: UpdateId, o: OrderId, to: Option<Status>)
    requires u !in s.updates && o in s.orders && forall j :: 0 <= j < |s.copies| ==> !RowLocked(s.copies[j], o)
    ensures Enabled(s, ReadForUpdate(u, o, to))
    ensures var read := Next(s, ReadForUpdate(u, o, to));
            && Enabled(read, LookUpForSave(u))
            && var found := Next(read, LookUpForSave(u));
               && Enabled(found, SaveUpdate(u))
               && Next(found, SaveUpdate(u)) ==
                  s.(orders := s.orders[o :=
                       Row(if to.Some? then to.value else s.orders[o].status, s.orders[o].processedAt)])
  {
    var read := Next(s, ReadForUpdate(u, o, to));
    var found := Next(read, LookUpForSave(u));
    assert found.updates - {u} == s.updates;
    assert Saved(found, found.updates[u]) ==
           s.orders[o := Row(if to.Some? then to.value else s.orders[o].status, s.orders[o].processedAt)];
  }
}
