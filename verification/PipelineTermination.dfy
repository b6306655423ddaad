/**
 The worker's work is bounded, and it ends for every body but one: each copy of a message is worth a number of steps
 that every step but a fault uses up, and fault-free steps can finish it exactly if its body is not the JSON null.
 */
module PipelineTermination {
  import opened Wrappers
  import opened Pipeline
  import opened PipelineSafety
  import opened PipelineTheorems

  // Handlings left before the attempt limit sends the message to the DLQ.
  function Remaining(max: Positive, attempt: nat): nat {
    if attempt + 1 < max then max - attempt else 1
  }

  function Worth(max: Positive, c: Copy): nat {
    var full := 10 * Remaining(max, Attempt(c.body));
    match c.place
    case Main => full
    case Retry => full + 1
    case Dlq => 0
    case Acked => 0
    case Held(pc) =>
      match pc
      case Received => full - 1
      case MarkerInserted => full - 2
      case OrderSeen(_) => full - 3
      case OrderSaved(_) => full - 4
      case Caught => full - 5
      case Throwing => full + 1
      case Acking => 1
      case AckingMoved => 1
  }

  function TotalWorth(max: Positive, copies: seq<Copy>): nat {
    if copies == [] then 0 else TotalWorth(max, copies[..|copies| - 1]) + Worth(max, copies[|copies| - 1])
  }

  lemma {:induction false} TotalWorthUpdate(max: Positive, copies: seq<Copy>, i: nat, c: Copy)
    requires i < |copies|
    ensures TotalWorth(max, copies[i := c]) == TotalWorth(max, copies) - Worth(max, copies[i]) + Worth(max, c)
  {
    var last := |copies| - 1;
    if i == last {
      assert copies[i := c][..last] == copies[..last];
    } else {
      TotalWorthUpdate(max, copies[..last], i, c);
      assert copies[i := c][..last] == copies[..last][i := c];
    }
  }

  lemma TotalWorthAppend(max: Positive, copies: seq<Copy>, c: Copy)
    ensures TotalWorth(max, copies + [c]) == TotalWorth(max, copies) + Worth(max, c)
  {
    assert (copies + [c])[..|copies|] == copies;
  }

  // Crashes, a failing ack, refused publishes and the exception over a JSON null put work back; the requeue that
  // follows the last two is part of them.
  predicate IsFault(step: Step) {
    || step.CrashAt? || step.FailNull? || step.AckFails?
    || (step.Discard? && !step.sent.Accepted?) || (step.Divert? && !step.sent.Accepted?)
  }

  predicate EntersMessage(step: Step) {
    step.Announce? || step.Inject?
  }

  function FaultCost(max: Positive): nat {
    10 * max + 3
  }

  // What a step's copy and the copy it adds are worth together.
  function WorthAfter(s: State, step: Step, i: nat): nat
    requires Enabled(s, step) && i < |s.copies| <= |Next(s, step).copies|
  {
    var s' := Next(s, step);
    Worth(s.maxAttempts, s'.copies[i])
    + if |s'.copies| == |s.copies| then 0 else Worth(s.maxAttempts, s'.copies[|s.copies|])
  }

  lemma DiscardWorth(s: State, step: Step)
    requires Enabled(s, step) && step.Discard?
    ensures WorthAfter(s, step, step.i) + 1
            <= Worth(s.maxAttempts, s.copies[step.i]) + if IsFault(step) then FaultCost(s.maxAttempts) else 0
  {
  }

  lemma DivertWorth(s: State, step: Step)
    requires Enabled(s, step) && step.Divert?
    ensures WorthAfter(s, step, step.i) + 1
            <= Worth(s.maxAttempts, s.copies[step.i]) + if IsFault(step) then FaultCost(s.maxAttempts) else 0
  {
  }

  lemma MovedCopyWorth(s: State, step: Step)
    requires Enabled(s, step) && CopiesOk(s) && Moved(step).Some?
    ensures Moved(step).value < |s.copies| <= |Next(s, step).copies|
    ensures WorthAfter(s, step, Moved(step).value) + 1
            <= Worth(s.maxAttempts, s.copies[Moved(step).value]) + if IsFault(step) then FaultCost(s.maxAttempts) else 0
  {
    if step.Discard? {
      DiscardWorth(s, step);
    } else if step.Divert? {
      DivertWorth(s, step);
    } else {
      assert CopyOk(s, s.copies[Moved(step).value]);
    }
  }

  lemma StepUsesWorth(s: State, step: Step)
    requires Enabled(s, step) && CopiesOk(s) && !EntersMessage(step)
    ensures TotalWorth(s.maxAttempts, Next(s, step).copies) + (if Moved(step).Some? then 1 else 0)
            <= TotalWorth(s.maxAttempts, s.copies) + if IsFault(step) then FaultCost(s.maxAttempts) else 0
  {
    var s' := Next(s, step);
    if Moved(step).Some? {
      var i := Moved(step).value;
      MovedCopyWorth(s, step);
      StepMovesOneCopy(s, step);
      TotalWorthUpdate(s.maxAttempts, s.copies, i, s'.copies[i]);
      if |s'.copies| == |s.copies| {
        assert s'.copies == s.copies[i := s'.copies[i]];
      } else {
        var added := s'.copies[|s.copies|];
        assert s'.copies == s.copies[i := s'.copies[i]] + [added];
        TotalWorthAppend(s.maxAttempts, s.copies[i := s'.copies[i]], added);
      }
    } else {
      assert s'.copies == s.copies;
    }
  }

  function WorkSteps(steps: seq<Step>): nat {
    if steps == [] then 0 else (if Moved(steps[0]).Some? then 1 else 0) + WorkSteps(steps[1..])
  }

  function Faults(steps: seq<Step>): nat {
    if steps == [] then 0 else (if IsFault(steps[0]) then 1 else 0) + Faults(steps[1..])
  }

  lemma {:induction false} RunUsesWorth(s: State, steps: seq<Step>, t: State)
    requires Inv(s) && Runs(s, steps, t)
    requires forall k :: 0 <= k < |steps| ==> !EntersMessage(steps[k])
    ensures WorkSteps(steps) + TotalWorth(t.maxAttempts, t.copies)
            <= TotalWorth(s.maxAttempts, s.copies) + Faults(steps) * FaultCost(s.maxAttempts)
    decreases |steps|
  {
    if steps != [] {
      StepKeepsRecords(s, steps[0]);
      StepUsesWorth(s, steps[0]);
      StepKeepsInv(s, steps[0]);
      RunUsesWorth(Next(s, steps[0]), steps[1..], t);
      FaultsUnfold(steps, FaultCost(s.maxAttempts));
    }
  }

  /** From any reachable state on, once no message enters any more, the number of steps the worker and the
      broker can still take is bounded by what is in the queues and by the number of faults, whatever the
      interleaving. */
  lemma WorkIsBounded(max: Positive, before: seq<Step>, s: State, steps: seq<Step>, t: State)
    requires Runs(Start(max), before, s) && Runs(s, steps, t)
    requires forall k :: 0 <= k < |steps| ==> !EntersMessage(steps[k])
    ensures WorkSteps(steps) <= TotalWorth(max, s.copies) + Faults(steps) * FaultCost(max)
  {
    RunKeepsTrails(Start(max), before, s);
    RunUsesWorth(s, steps, t);
  }

  lemma FaultsUnfold(steps: seq<Step>, cost: nat)
    requires steps != []
    ensures Faults(steps) * cost == (if IsFault(steps[0]) then cost else 0) + Faults(steps[1..]) * cost
  {
    if IsFault(steps[0]) {
      assert (1 + Faults(steps[1..])) * cost == cost + Faults(steps[1..]) * cost;
    }
  }

  // ---------------------------------------------------------------------------------------------
  // What can end

  predicate Finished(c: Copy) {
    c.place.Dlq? || c.place.Acked?
  }

  // The steps of the worker and the broker when nothing goes wrong.
  predicate Willing(step: Step) {
    Moved(step).Some? && !step.DbFails? && !IsFault(step)
  }

  predicate AllWilling(steps: seq<Step>) {
    forall k :: 0 <= k < |steps| ==> Willing(steps[k])
  }

  lemma TxCanMove(s: State, i: nat) returns (step: Step)
    requires Inv(s) && i < |s.copies| && InTx(s.copies[i])
    ensures Enabled(s, step) && Willing(step)
  {
    match s.copies[i].place.pc
    case MarkerInserted => step := FindOrder(i);
    case OrderSaved(_) => step := CommitTx(i, true);
    case OrderSeen(processed) =>
      if processed {
        step := CommitTx(i, true);
      } else if j :| 0 <= j < |s.copies| && RowLocked(s.copies[j], s.copies[i].body.oid.value) {
        step := CommitTx(j, true);
      } else {
        step := SaveOrder(i, 0);
      }
  }

  /** While any copy but one of a JSON null is neither acked nor in the DLQ, some fault-free step is enabled: the
      marker lock and the row lock cannot deadlock. */
  lemma NeverStuck(s: State, i: nat) returns (step: Step)
    requires Inv(s) && i < |s.copies| && !Finished(s.copies[i]) && !s.copies[i].body.JsonNull?
    ensures Enabled(s, step) && Willing(step)
  {
    var c := s.copies[i];
    assert CopyOk(s, c);
    match c.place
    case Main => step := Deliver(i);
    case Retry => step := Expire(i);
    case Held(pc) =>
      match pc {
        case Received =>
          if c.body.Garbage? {
            step := Discard(i, Accepted);
          } else if Named(c.body) && MarkerHeld(s, i, c.body.mid.value) {
            var j :| 0 <= j < |s.copies| && j != i && InTx(s.copies[j]) && s.copies[j].body.mid == c.body.mid;
            step := TxCanMove(s, j);
          } else {
            step := InsertMarker(i);
          }
        case Caught => step := Divert(i, Accepted);
        case Throwing => step := Nack(i);
        case Acking => step := Ack(i);
        case AckingMoved => step := Ack(i);
        case MarkerInserted => step := TxCanMove(s, i);
        case OrderSeen(_) => step := TxCanMove(s, i);
        case OrderSaved(_) => step := TxCanMove(s, i);
      }
  }

  // Deliveries keep their bodies and leave orders in place.
  predicate SameWork(s: State, t: State) {
    && |s.copies| <= |t.copies| && (forall i :: 0 <= i < |s.copies| ==> t.copies[i].body == s.copies[i].body)
    && t.orders.Keys == s.orders.Keys && t.updates == s.updates
  }

  lemma MovedCopyKeepsItsBody(s: State, step: Step)
    requires Enabled(s, step) && Moved(step).Some?
    ensures Moved(step).value < |s.copies| <= |Next(s, step).copies|
    ensures Next(s, step).copies[Moved(step).value].body == s.copies[Moved(step).value].body
  {
  }

  lemma StepKeepsBodies(s: State, step: Step)
    requires Enabled(s, step)
    ensures |s.copies| <= |Next(s, step).copies|
    ensures forall i :: 0 <= i < |s.copies| ==> Next(s, step).copies[i].body == s.copies[i].body
  {
    StepMovesOneCopy(s, step);
    if Moved(step).Some? { MovedCopyKeepsItsBody(s, step); }
  }

  lemma StepIsSameWork(s: State, step: Step)
    requires Enabled(s, step) && CopiesOk(s) && Moved(step).Some?
    ensures SameWork(s, Next(s, step))
  {
    StepKeepsBodies(s, step);
    if step.CommitTx? {
      assert CopyOk(s, s.copies[step.i]);
    } else {
      MoveKeepsTables(s, step);
    }
  }

  lemma Advance(s: State, i: nat) returns (step: Step)
    requires Inv(s) && i < |s.copies| && !Finished(s.copies[i]) && !s.copies[i].body.JsonNull?
    ensures Enabled(s, step) && Willing(step)
    ensures Inv(Next(s, step)) && SameWork(s, Next(s, step))
    ensures TotalWorth(Next(s, step).maxAttempts, Next(s, step).copies) < TotalWorth(s.maxAttempts, s.copies)
  {
    step := NeverStuck(s, i);
    StepUsesWorth(s, step);
    StepKeepsRecords(s, step);
    StepKeepsInv(s, step);
    StepIsSameWork(s, step);
  }

  predicate Ended(s: State) {
    forall i :: 0 <= i < |s.copies| ==> Finished(s.copies[i]) || s.copies[i].body.JsonNull?
  }

  lemma SameWorkChains(s: State, m: State, t: State)
    requires SameWork(s, m) && SameWork(m, t)
    ensures SameWork(s, t)
  {
  }

  lemma WillingCons(s: State, step: Step, steps: seq<Step>, t: State)
    requires Enabled(s, step) && Willing(step) && Runs(Next(s, step), steps, t) && AllWilling(steps)
    ensures Runs(s, [step] + steps, t) && AllWilling([step] + steps)
  {
    RunsCons(s, step, steps, t);
  }

  /** From any state in the invariant, fault-free steps can finish every copy that is not of a JSON null. */
  lemma {:induction false} FinishAll(s: State) returns (steps: seq<Step>, t: State)
    requires Inv(s)
    ensures Runs(s, steps, t) && AllWilling(steps) && SameWork(s, t) && Ended(t)
    decreases TotalWorth(s.maxAttempts, s.copies)
  {
    if Ended(s) {
      steps, t := [], s;
    } else {
      var i :| 0 <= i < |s.copies| && !Finished(s.copies[i]) && !s.copies[i].body.JsonNull?;
      var step := Advance(s, i);
      var rest;
      rest, t := FinishAll(Next(s, step));
      SameWorkChains(s, Next(s, step), t);
      WillingCons(s, step, rest, t);
      steps := [step] + rest;
    }
  }

  lemma {:induction false} RunKeepsBodies(s: State, steps: seq<Step>, t: State)
    requires Runs(s, steps, t)
    ensures |s.copies| <= |t.copies| && forall i :: 0 <= i < |s.copies| ==> t.copies[i].body == s.copies[i].body
    decreases |steps|
  {
    if steps != [] {
      StepKeepsBodies(s, steps[0]);
      RunKeepsBodies(Next(s, steps[0]), steps[1..], t);
    }
  }

  /** A JSON null is never acked and never reaches the DLQ, with or without faults: it is requeued for ever. */
  lemma NullNeverFinishes(max: Positive, steps: seq<Step>, t: State, i: nat)
    requires Runs(Start(max), steps, t) && i < |t.copies| && t.copies[i].body.JsonNull?
    ensures !Finished(t.copies[i])
  {
    ReachableInv(max, steps, t);
    assert CopyOk(t, t.copies[i]);
  }

  ghost predicate FinishesBy(t: State, i: nat, steps: seq<Step>, u: State) {
    Runs(t, steps, u) && AllWilling(steps) && i < |u.copies| && Finished(u.copies[i])
  }

  /** In every reachable state, whatever faults came before: fault-free steps can finish a copy if and only if its body
      is not the JSON null. */
  lemma CanFinishExactly(max: Positive, before: seq<Step>, t: State, i: nat)
    requires Runs(Start(max), before, t) && i < |t.copies|
    ensures (exists steps, u :: FinishesBy(t, i, steps, u)) <==> !t.copies[i].body.JsonNull?
  {
    ReachableInv(max, before, t);
    if t.copies[i].body.JsonNull? {
      forall steps, u ensures !FinishesBy(t, i, steps, u) {
        if FinishesBy(t, i, steps, u) {
          RunsAppend(Start(max), before, t, steps, u);
          RunKeepsBodies(t, steps, u);
          NullNeverFinishes(max, before + steps, u, i);
        }
      }
    } else {
      var steps, u := FinishAll(t);
      assert FinishesBy(t, i, steps, u);
    }
  }

  ghost predicate AllFinishBy(t: State, steps: seq<Step>, u: State) {
    Runs(t, steps, u) && AllWilling(steps) && forall i :: 0 <= i < |u.copies| ==> Finished(u.copies[i])
  }

  /** And they can finish everything if and only if no JSON null ever entered. */
  lemma AllCanFinishExactly(max: Positive, before: seq<Step>, t: State)
    requires Runs(Start(max), before, t)
    ensures (exists steps, u :: AllFinishBy(t, steps, u)) <==> JsonNull !in t.entered
  {
    ReachableInv(max, before, t);
    if JsonNull in t.entered {
      assert Kept(t, JsonNull);
      var i :| 0 <= i < |t.copies| && LiveCopyOf(t.copies[i], JsonNull);
      forall steps, u ensures !AllFinishBy(t, steps, u) {
        if AllFinishBy(t, steps, u) {
          RunKeepsBodies(t, steps, u);
          CanFinishExactly(max, before, t, i);
          assert FinishesBy(t, i, steps, u);
        }
      }
    } else {
      var steps, u := FinishAll(t);
      NoNullCopies(t);
      EnteredStays(t, steps, u);
      RunKeepsInv(t, steps, u);
      NoNullCopies(u);
      assert AllFinishBy(t, steps, u);
    }
  }

  lemma NoNullCopies(t: State)
    requires CopiesOk(t) && JsonNull !in t.entered
    ensures forall i :: 0 <= i < |t.copies| ==> !t.copies[i].body.JsonNull?
  {
    forall i | 0 <= i < |t.copies| ensures !t.copies[i].body.JsonNull? { assert CopyOk(t, t.copies[i]); }
  }

  lemma {:induction false} EnteredStays(t: State, steps: seq<Step>, u: State)
    requires Runs(t, steps, u) && AllWilling(steps)
    ensures u.entered == t.entered
    decreases |steps|
  {
    if steps != [] {
      if !steps[0].CommitTx? { MoveKeepsTables(t, steps[0]); }
      EnteredStays(Next(t, steps[0]), steps[1..], u);
    }
  }

  /** A reachable state in which no fault-free step is enabled has exactly the copies finished that are not of a JSON
      null; with WorkIsBounded, every run without faults and nulls ends with every message acked or in the DLQ. */
  lemma StoppedMeansFinished(max: Positive, steps: seq<Step>, t: State)
    requires Runs(Start(max), steps, t)
    requires forall step :: Willing(step) ==> !Enabled(t, step)
    ensures forall i :: 0 <= i < |t.copies| ==> (Finished(t.copies[i]) <==> !t.copies[i].body.JsonNull?)
  {
    ReachableInv(max, steps, t);
    forall i | 0 <= i < |t.copies| ensures Finished(t.copies[i]) <==> !t.copies[i].body.JsonNull? {
      if t.copies[i].body.JsonNull? {
        NullNeverFinishes(max, steps, t, i);
      } else if !Finished(t.copies[i]) {
        var step := NeverStuck(t, i);
      }
    }
  }

  lemma NothingOpen(u: State)
    requires Ended(u)
    ensures forall o :: o in u.orders ==> Enabled(u, DeleteOrder(o))
    ensures forall x :: x in u.updates && !u.updates[x].Loaded? ==> Enabled(u, SaveUpdate(x))
  {
    assert forall i :: 0 <= i < |u.copies| ==> !InTx(u.copies[i]);
  }

  /** A delete or a save may have to wait for message transactions, but never for ever: in every reachable state
      fault-free steps of the worker alone lead to one where it goes ahead. */
  lemma WaitsEnd(max: Positive, before: seq<Step>, t: State) returns (steps: seq<Step>, u: State)
    requires Runs(Start(max), before, t)
    ensures Runs(t, steps, u) && AllWilling(steps)
    ensures forall o :: o in t.orders ==> Enabled(u, DeleteOrder(o))
    ensures forall x :: x in t.updates && !t.updates[x].Loaded? ==> Enabled(u, SaveUpdate(x))
  {
    ReachableInv(max, before, t);
    steps, u := FinishAll(t);
    NothingOpen(u);
  }

  // ---------------------------------------------------------------------------------------------
  // How often a message is handled

  // Every attempt but the current one took a delivery that was not requeued.
  predicate TrailOk(s: State, c: Copy) {
    var a, t := Attempt(c.body), c.trail;
    var taken := a - t.first + if c.place.Main? || c.place.Retry? then 0 else 1;
    && t.first <= a && (a <= t.first || a <= s.maxAttempts - 1)
    && taken <= t.deliveries <= taken + t.requeues
    && (c.place.Dlq? && c.body.Msg? ==> a >= s.maxAttempts - 1)
  }

  ghost predicate TrailsOk(s: State) {
    forall i :: 0 <= i < |s.copies| ==> TrailOk(s, s.copies[i])
  }

  lemma RequeuedKeepsTrail(s: State, step: Step)
    requires Enabled(s, step) && (step.Nack? || step.CrashAt?) && TrailOk(s, s.copies[step.i])
    ensures TrailOk(Next(s, step), Next(s, step).copies[step.i])
  {
  }

  lemma MovedCopyKeepsTrail(s: State, step: Step, i: nat)
    requires Enabled(s, step) && Moved(step) == Some(i) && i < |s.copies| && TrailOk(s, s.copies[i])
    ensures i < |Next(s, step).copies| && TrailOk(Next(s, step), Next(s, step).copies[i])
  {
    if step.Nack? || step.CrashAt? {
      RequeuedKeepsTrail(s, step);
    } else if !step.CommitTx? {
      MoveKeepsTables(s, step);
    }
  }

  lemma OldCopyKeepsTrail(s: State, step: Step, i: nat)
    requires Enabled(s, step) && i < |s.copies| && TrailOk(s, s.copies[i])
    ensures i < |Next(s, step).copies| && TrailOk(Next(s, step), Next(s, step).copies[i])
  {
    StepMovesOneCopy(s, step);
    if Moved(step) == Some(i) { MovedCopyKeepsTrail(s, step, i); }
  }

  lemma DivertedHasTrail(s: State, c: Copy)
    requires c.body.Msg? && c.place == Held(Caught) && TrailOk(s, c)
    ensures TrailOk(s, Diverted(s, c))
  {
  }

  lemma DivertAddsTrail(s: State, step: Step)
    requires Enabled(s, step) && step.Divert? && |Next(s, step).copies| == |s.copies| + 1
    requires TrailOk(s, s.copies[step.i])
    ensures TrailOk(Next(s, step), Next(s, step).copies[|s.copies|])
  {
    DivertedHasTrail(s, s.copies[step.i]);
  }

  lemma NewCopyHasTrail(s: State, step: Step)
    requires Enabled(s, step) && |Next(s, step).copies| == |s.copies| + 1
    requires Moved(step).Some? ==> Moved(step).value < |s.copies| && TrailOk(s, s.copies[Moved(step).value])
    ensures TrailOk(Next(s, step), Next(s, step).copies[|s.copies|])
  {
    if step.Divert? {
      DivertAddsTrail(s, step);
    } else {
      assert step.Discard? || step.Announce? || step.Inject?;
    }
  }

  lemma StepKeepsTrails(s: State, step: Step)
    requires Enabled(s, step) && TrailsOk(s)
    ensures TrailsOk(Next(s, step))
  {
    StepMovesOneCopy(s, step);
    forall i | 0 <= i < |Next(s, step).copies| ensures TrailOk(Next(s, step), Next(s, step).copies[i]) {
      if i < |s.copies| {
        OldCopyKeepsTrail(s, step, i);
      } else {
        NewCopyHasTrail(s, step);
      }
    }
  }

  lemma {:induction false} RunKeepsTrails(s: State, steps: seq<Step>, t: State)
    requires Inv(s) && TrailsOk(s) && Runs(s, steps, t)
    ensures TrailsOk(t) && Inv(t) && t.maxAttempts == s.maxAttempts
    decreases |steps|
  {
    if steps != [] {
      StepKeepsInv(s, steps[0]);
      StepKeepsTrails(s, steps[0]);
      StepKeepsRecords(s, steps[0]);
      RunKeepsTrails(Next(s, steps[0]), steps[1..], t);
    }
  }

  /** A message that entered with attempt number `first` is taken from the main queue at most
      max(1, maxAttempts - first) times, plus once for every requeue, and at least that often before it is given up
      to the DLQ; and nothing in the retry queue has an attempt number above maxAttempts - 1. */
  lemma HandlingsAreBounded(max: Positive, steps: seq<Step>, t: State, i: nat)
    requires Runs(Start(max), steps, t) && i < |t.copies|
    ensures t.copies[i].trail.deliveries <= Remaining(max, t.copies[i].trail.first) + t.copies[i].trail.requeues
    ensures t.copies[i].place.Dlq? && t.copies[i].body.Msg? ==>
              t.copies[i].trail.deliveries >= Remaining(max, t.copies[i].trail.first)
    ensures t.copies[i].place.Retry? ==> 1 <= Attempt(t.copies[i].body) <= max - 1
  {
    RunKeepsTrails(Start(max), steps, t);
    assert TrailOk(t, t.copies[i]) && CopyOk(t, t.copies[i]);
  }

  lemma {:induction false} ProducersStartAtZero(s: State, steps: seq<Step>, t: State)
    requires Runs(s, steps, t) && ClosedSteps(steps) && forall i :: 0 <= i < |s.copies| ==> s.copies[i].trail.first == 0
    ensures forall i :: 0 <= i < |t.copies| ==> t.copies[i].trail.first == 0
    decreases |steps|
  {
    if steps != [] {
      StepStartsAtZero(s, steps[0]);
      assert forall k :: 0 <= k < |steps| - 1 ==> steps[1..][k] == steps[k + 1];
      ProducersStartAtZero(Next(s, steps[0]), steps[1..], t);
    }
  }

  lemma OldCopyKeepsFirst(s: State, step: Step, i: nat)
    requires Enabled(s, step) && i < |s.copies|
    ensures i < |Next(s, step).copies| && Next(s, step).copies[i].trail.first == s.copies[i].trail.first
  {
    StepMovesOneCopy(s, step);
  }

  lemma NewCopyStartsAtZero(s: State, step: Step)
    requires Enabled(s, step) && ClosedStep(step) && |Next(s, step).copies| == |s.copies| + 1
    requires Moved(step).Some? ==> Moved(step).value < |s.copies| && s.copies[Moved(step).value].trail.first == 0
    ensures Next(s, step).copies[|s.copies|].trail.first == 0
  {
    assert step.Divert? || step.Discard? || step.Announce?;
  }

  lemma StepStartsAtZero(s: State, step: Step)
    requires Enabled(s, step) && ClosedStep(step)
    requires forall i :: 0 <= i < |s.copies| ==> s.copies[i].trail.first == 0
    ensures forall i :: 0 <= i < |Next(s, step).copies| ==> Next(s, step).copies[i].trail.first == 0
  {
    StepMovesOneCopy(s, step);
    forall i | 0 <= i < |Next(s, step).copies| ensures Next(s, step).copies[i].trail.first == 0 {
      if i < |s.copies| {
        OldCopyKeepsFirst(s, step, i);
      } else {
        NewCopyStartsAtZero(s, step);
      }
    }
  }

  /** While messages come from the producer only, none is given up to the DLQ before it was handled maxAttempts times,
      and none is handled more often than that plus once for every requeue. */
  lemma AllAttemptsAreMade(max: Positive, steps: seq<Step>, t: State, i: nat)
    requires Runs(Start(max), steps, t) && ClosedSteps(steps) && i < |t.copies|
    ensures t.copies[i].trail.deliveries <= max + t.copies[i].trail.requeues
    ensures t.copies[i].place.Dlq? ==> t.copies[i].trail.deliveries >= max
  {
    HandlingsAreBounded(max, steps, t, i);
    ProducersStartAtZero(Start(max), steps, t);
    ClosedRunKeepsInv(Start(max), steps, t);
    assert IssuedCopy(t, t.copies[i]);
  }
}
