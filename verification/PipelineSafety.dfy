/**
 Safety of the message pipeline over whole runs: nothing is lost, effects happen once, and the closed
 system (messages only from the producer, statuses only from the worker) keeps markers and statuses in step.
 */
module PipelineSafety {
  import opened Wrappers
  import opened Pipeline

  // ---------------------------------------------------------------------------------------------
  // Invariants of every run

  ghost predicate CopyOk(s: State, c: Copy) {
    && Subject(c.body) in s.entered
    && (c.place.Retry? ==> c.body.Msg? && c.body.attempt.Some? && 0 < c.body.attempt.value <= s.maxAttempts - 1)
    && (c.place.Held? ==>
          match c.place.pc
          case MarkerInserted => Named(c.body)
          case OrderSeen(_) => Named(c.body)
          case OrderSaved(_) => Named(c.body)
          case Caught => c.body.Msg?
          case Acking => Named(c.body) && c.body.mid.value in s.marked
          case _ => true)
    && (c.body.JsonNull? ==> c.place.Main? || c.place == Held(Received) || c.place == Held(Throwing))
    && (InTx(c) ==> c.body.mid.value !in s.markers && c.body.oid.value in s.orders)
  }

  ghost predicate CopiesOk(s: State) {
    forall i :: 0 <= i < |s.copies| ==> CopyOk(s, s.copies[i])
  }

  // Open transactions hold different markers and have saved different rows.
  predicate Apart(c: Copy, d: Copy) {
    InTx(c) && InTx(d) ==>
      c.body.mid != d.body.mid && !(c.place.pc.OrderSaved? && d.place.pc.OrderSaved? && c.body.oid == d.body.oid)
  }

  ghost predicate TxsApart(s: State) {
    forall i, j :: 0 <= i < |s.copies| && 0 <= j < |s.copies| && i != j ==> Apart(s.copies[i], s.copies[j])
  }

  // Markers name live orders: the foreign key, with its cascade.
  ghost predicate TablesOk(s: State) {
    && s.orders.Keys <= s.known && s.markers.Keys <= s.marked && s.unannounced <= s.known
    && (forall m :: m in s.markers ==> s.markers[m] in s.orders)
    && (forall u :: u in s.updates ==>
          s.updates[u].o in s.known && (s.updates[u].o in s.orders || s.updates[u].o in s.outlived))
  }

  // An effect's marker stands until its order is deleted, and deleted orders come back only if an update outlived
  // them.
  ghost predicate Settled(s: State, e: (MessageId, OrderId)) {
    && e.1 in s.known && Msg(Some(e.0), Some(e.1), None) in s.entered
    && ((e.0 in s.markers && s.markers[e.0] == e.1) || e.1 !in s.orders || e.1 in s.outlived)
  }

  ghost predicate EffectsOk(s: State) {
    && (forall k :: 0 <= k < |s.effects| ==> Settled(s, s.effects[k]))
    && (forall j, k :: 0 <= j < k < |s.effects| && s.effects[j].0 == s.effects[k].0 ==>
          s.effects[j].1 in s.outlived || (s.effects[j].1 != s.effects[k].1 && s.effects[j].1 !in s.orders))
  }

  predicate Live(c: Copy) {
    !c.place.Acked? && c.place != Held(Acking) && c.place != Held(AckingMoved)
  }

  predicate LiveCopyOf(c: Copy, subject: Body) {
    Live(c) && Subject(c.body) == subject
  }

  /** A message is kept while a copy of it is in the main queue, the retry queue, the DLQ or the hands of a
      worker that is not about to ack, or once a marker for its id was committed. */
  ghost predicate Kept(s: State, subject: Body) {
    || (exists i :: 0 <= i < |s.copies| && LiveCopyOf(s.copies[i], subject))
    || (subject.Msg? && subject.mid.Some? && subject.mid.value in s.marked)
  }

  ghost predicate NothingLost(s: State) {
    forall b :: b in s.entered ==> Kept(s, b)
  }

  ghost predicate Inv(s: State) {
    CopiesOk(s) && TxsApart(s) && TablesOk(s) && EffectsOk(s) && NothingLost(s)
  }

  // ---------------------------------------------------------------------------------------------
  // Every step keeps them

  // The copy a step moves, if it moves one.
  function Moved(step: Step): Option<nat> {
    match step
    case Deliver(i) => Some(i)
    case Expire(i) => Some(i)
    case Discard(i, _) => Some(i)
    case FailNull(i) => Some(i)
    case InsertMarker(i) => Some(i)
    case FindOrder(i) => Some(i)
    case SaveOrder(i, _) => Some(i)
    case CommitTx(i, _) => Some(i)
    case DbFails(i) => Some(i)
    case Divert(i, _) => Some(i)
    case Ack(i) => Some(i)
    case AckFails(i) => Some(i)
    case Nack(i) => Some(i)
    case CrashAt(i) => Some(i)
    case _ => None
  }

  lemma StepKeepsRecords(s: State, step: Step)
    requires Enabled(s, step)
    ensures var s' := Next(s, step);
            s.entered <= s'.entered && s.marked <= s'.marked && s.maxAttempts == s'.maxAttempts
  {
    if Moved(step).Some? && !step.CommitTx? { MoveKeepsTables(s, step); }
  }

  lemma StepMovesOneCopy(s: State, step: Step)
    requires Enabled(s, step)
    ensures var s' := Next(s, step);
            && |s.copies| <= |s'.copies| <= |s.copies| + 1
            && s.entered <= s'.entered && s.marked <= s'.marked && s.maxAttempts == s'.maxAttempts
            && (forall j :: 0 <= j < |s.copies| && Moved(step) != Some(j) ==> s'.copies[j] == s.copies[j])
            && (Moved(step).Some? ==> Moved(step).value < |s.copies|)
  {
    StepKeepsRecords(s, step);
    if Moved(step).None? && !step.Announce? && !step.Inject? { assert Next(s, step).copies == s.copies; }
  }

  // Only a commit writes the tables on behalf of a delivery.
  lemma MoveKeepsTables(s: State, step: Step)
    requires Enabled(s, step) && Moved(step).Some? && !step.CommitTx?
    ensures Next(s, step) == s.(copies := Next(s, step).copies)
  {
  }

  predicate IsUpdateStep(step: Step) {
    step.ReadForUpdate? || step.LookUpForSave? || step.SaveUpdate? || step.DropUpdate?
  }

  lemma OtherCopyStaysOk(s: State, step: Step, j: nat)
    requires Enabled(s, step) && CopiesOk(s) && TxsApart(s) && TablesOk(s)
    requires j < |s.copies| && Moved(step) != Some(j)
    ensures CopyOk(Next(s, step), s.copies[j])
  {
    assert CopyOk(s, s.copies[j]);
    if step.CommitTx? {
      assert Apart(s.copies[step.i], s.copies[j]);
    } else if Moved(step).Some? {
      MoveKeepsTables(s, step);
    } else if IsUpdateStep(step) {
      UpdateKeepsTables(s, step);
    }
  }

  lemma MovedCopyIsOk(s: State, step: Step)
    requires Enabled(s, step) && CopiesOk(s) && TablesOk(s) && Moved(step).Some?
    ensures var s' := Next(s, step);
            var i := Moved(step).value;
            i < |s'.copies| && CopyOk(s', s'.copies[i]) && Subject(s'.copies[i].body) == Subject(s.copies[i].body)
  {
    StepMovesOneCopy(s, step);
    assert CopyOk(s, s.copies[Moved(step).value]);
  }

  lemma NewCopyIsOk(s: State, step: Step)
    requires Enabled(s, step) && CopiesOk(s) && |Next(s, step).copies| == |s.copies| + 1
    ensures var s' := Next(s, step);
            var added := s'.copies[|s.copies|];
            && CopyOk(s', added) && Live(added) && !added.place.Held?
            && (Moved(step).Some? ==> Subject(added.body) == Subject(s.copies[Moved(step).value].body))
  {
    StepMovesOneCopy(s, step);
    if Moved(step).Some? { assert CopyOk(s, s.copies[Moved(step).value]); }
  }

  lemma StepKeepsCopies(s: State, step: Step)
    requires Enabled(s, step) && CopiesOk(s) && TxsApart(s) && TablesOk(s)
    ensures CopiesOk(Next(s, step))
  {
    var s' := Next(s, step);
    StepMovesOneCopy(s, step);
    forall j | 0 <= j < |s'.copies| ensures CopyOk(s', s'.copies[j]) {
      if j == |s.copies| {
        NewCopyIsOk(s, step);
      } else if Moved(step) == Some(j) {
        MovedCopyIsOk(s, step);
      } else {
        OtherCopyStaysOk(s, step, j);
      }
    }
  }

  // Only inserting a marker opens a transaction, only saving locks a row; both find the lock free.
  lemma MovedCopyLocks(s: State, step: Step, j: nat)
    requires Enabled(s, step) && CopiesOk(s) && TxsApart(s) && Moved(step).Some?
    requires j < |s.copies| && j != Moved(step).value
    ensures var c := Next(s, step).copies[Moved(step).value];
            Apart(c, s.copies[j]) && Apart(s.copies[j], c)
  {
    var i := Moved(step).value;
    StepMovesOneCopy(s, step);
    assert CopyOk(s, s.copies[i]);
    assert Apart(s.copies[i], s.copies[j]);
    if step.SaveOrder? && InTx(s.copies[j]) && s.copies[j].place.pc.OrderSaved? {
      assert !RowLocked(s.copies[j], s.copies[i].body.oid.value);
    }
  }

  lemma StepKeepsApart(s: State, step: Step)
    requires Enabled(s, step) && CopiesOk(s) && TxsApart(s) && TablesOk(s)
    ensures TxsApart(Next(s, step))
  {
    var s' := Next(s, step);
    StepMovesOneCopy(s, step);
    forall i, j | 0 <= i < |s'.copies| && 0 <= j < |s'.copies| && i != j
      ensures Apart(s'.copies[i], s'.copies[j])
    {
      if i == |s.copies| || j == |s.copies| {
        NewCopyIsOk(s, step);
      } else if Moved(step) == Some(i) {
        MovedCopyLocks(s, step, j);
      } else if Moved(step) == Some(j) {
        MovedCopyLocks(s, step, i);
      } else {
        assert Apart(s.copies[i], s.copies[j]);
      }
    }
  }

  lemma UpdateKeepsTables(s: State, step: Step)
    requires Enabled(s, step) && IsUpdateStep(step) && TablesOk(s)
    ensures TablesOk(Next(s, step)) && s.orders.Keys <= Next(s, step).orders.Keys
    ensures Next(s, step) == s.(orders := Next(s, step).orders, updates := Next(s, step).updates)
  {
  }

  lemma DeleteKeepsTables(s: State, step: Step)
    requires Enabled(s, step) && step.DeleteOrder? && TablesOk(s)
    ensures TablesOk(Next(s, step))
  {
  }

  lemma StepKeepsTables(s: State, step: Step)
    requires Enabled(s, step) && CopiesOk(s) && TablesOk(s)
    ensures TablesOk(Next(s, step))
  {
    if Moved(step).Some? && !step.CommitTx? {
      MoveKeepsTables(s, step);
    } else if IsUpdateStep(step) {
      UpdateKeepsTables(s, step);
    } else if step.DeleteOrder? {
      DeleteKeepsTables(s, step);
    }
  }

  // Without a new effect: markers go only with their orders, and orders come back only through an update.
  lemma QuietStepKeepsEffect(s: State, step: Step, e: (MessageId, OrderId))
    requires Enabled(s, step) && !step.CommitTx? && TablesOk(s) && Settled(s, e)
    ensures Settled(Next(s, step), e)
  {
    if Moved(step).Some? { MoveKeepsTables(s, step); }
  }

  lemma QuietStepKeepsEffects(s: State, step: Step)
    requires Enabled(s, step) && !step.CommitTx? && TablesOk(s) && EffectsOk(s)
    ensures EffectsOk(Next(s, step))
  {
    QuietStepRevives(s, step);
    forall k | 0 <= k < |s.effects| ensures Settled(Next(s, step), s.effects[k]) {
      QuietStepKeepsEffect(s, step, s.effects[k]);
    }
  }

  lemma QuietStepRevives(s: State, step: Step)
    requires Enabled(s, step) && !step.CommitTx? && TablesOk(s)
    ensures var s' := Next(s, step);
            && s'.effects == s.effects && s.outlived <= s'.outlived
            && forall o :: o in s.known && o in s'.orders ==> o in s.orders || o in s.outlived
  {
    if Moved(step).Some? {
      MoveKeepsTables(s, step);
    } else if IsUpdateStep(step) {
      UpdateKeepsTables(s, step);
    }
  }

  lemma CommitKeepsEffects(s: State, step: Step)
    requires Enabled(s, step) && step.CommitTx? && TablesOk(s) && EffectsOk(s) && CopyOk(s, s.copies[step.i])
    ensures EffectsOk(Next(s, step))
  {
    var s' := Next(s, step);
    forall k | 0 <= k < |s'.effects| ensures Settled(s', s'.effects[k]) {
      if k < |s.effects| { assert Settled(s, s.effects[k]); }
    }
  }

  lemma StepKeepsEffects(s: State, step: Step)
    requires Enabled(s, step) && CopiesOk(s) && TablesOk(s) && EffectsOk(s)
    ensures EffectsOk(Next(s, step))
  {
    if step.CommitTx? {
      CommitKeepsEffects(s, step);
    } else {
      QuietStepKeepsEffects(s, step);
    }
  }

  // A live copy stops being live only for the ack, and then a commit or a new live copy came first.
  lemma LiveCopyHandsOver(s: State, step: Step)
    requires Enabled(s, step) && TablesOk(s) && Moved(step).Some?
    requires Live(s.copies[Moved(step).value]) && !Live(Next(s, step).copies[Moved(step).value])
    ensures var s' := Next(s, step);
            var c := s.copies[Moved(step).value];
            || (|s'.copies| == |s.copies| + 1)
            || (Named(c.body) && c.body.mid.value in s'.marked)
  {
    assert step.Ack? || step.InsertMarker? || step.CommitTx? || step.Discard? || step.Divert?;
  }

  lemma StepKeepsMessage(s: State, step: Step, subject: Body)
    requires Enabled(s, step) && CopiesOk(s) && TablesOk(s) && Kept(s, subject)
    ensures Kept(Next(s, step), subject)
  {
    var s' := Next(s, step);
    StepMovesOneCopy(s, step);
    if i :| 0 <= i < |s.copies| && LiveCopyOf(s.copies[i], subject) {
      if Moved(step) == Some(i) {
        MovedCopyIsOk(s, step);
        if Live(s'.copies[i]) {
          assert LiveCopyOf(s'.copies[i], subject);
        } else {
          LiveCopyHandsOver(s, step);
          if |s'.copies| == |s.copies| + 1 {
            NewCopyIsOk(s, step);
            assert LiveCopyOf(s'.copies[|s.copies|], subject);
          }
        }
      } else {
        assert LiveCopyOf(s'.copies[i], subject);
      }
    }
  }

  lemma StepKeepsMessages(s: State, step: Step)
    requires Enabled(s, step) && CopiesOk(s) && TablesOk(s) && NothingLost(s)
    ensures NothingLost(Next(s, step))
  {
    var s' := Next(s, step);
    forall b | b in s'.entered ensures Kept(s', b) {
      if b in s.entered {
        StepKeepsMessage(s, step, b);
      } else {
        assert LiveCopyOf(s'.copies[|s.copies|], b);
      }
    }
  }

  lemma StepKeepsInv(s: State, step: Step)
    requires Enabled(s, step) && Inv(s)
    ensures Inv(Next(s, step))
  {
    StepKeepsCopies(s, step);
    StepKeepsApart(s, step);
    StepKeepsTables(s, step);
    StepKeepsEffects(s, step);
    StepKeepsMessages(s, step);
  }

  lemma {:induction false} RunKeepsInv(s: State, steps: seq<Step>, t: State)
    requires Inv(s) && Runs(s, steps, t)
    ensures Inv(t)
    decreases |steps|
  {
    if steps != [] {
      StepKeepsInv(s, steps[0]);
      RunKeepsInv(Next(s, steps[0]), steps[1..], t);
    }
  }
}
