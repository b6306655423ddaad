/**
 Why a create call failed: in every run of interleaved calls, the reason it was given is true.
 */
module CreateRefusals {
  import opened Wrappers
  import opened Cart
  import opened OrderStore
  import opened CreateRuns
  import opened CreateTheorems
  import opened LockOrder

  // The lines before k could be had from the start; line k is due this error by now.
  ghost predicate RefusedSince(db0: Db, db: Db, lines: seq<Line>, k: nat, error: Error) {
    k < |lines| && Acceptable(db0.stock, lines[..k]) && Due(db.stock, lines[..k], lines[k], error)
  }

  ghost predicate KeyCarried(db: Db, key: Option<string>) {
    exists o :: Carries(db, o, key)
  }

  // Some order carries the key, or one that did was deleted or lost it.
  ghost predicate KeyWasTaken(s: State, key: Option<string>) {
    key.Some? && (KeyCarried(s.db, key) || Disturbed(s.history, key))
  }

  ghost predicate IsTrue(db0: Db, s: State, req: Request, error: Error) {
    match error
    case EmptyItems => req.lines == []
    case UserNotFound => req.lines != [] && req.user !in db0.users
    case KeyTaken => KeyWasTaken(s, req.key)
    case DatabaseError => true
    case BrokerError => true
    case Crashed => true
    case _ => exists k: nat :: RefusedSince(db0, s.db, req.lines, k, error)
  }

  ghost predicate ReasonOk(db0: Db, s: State, call: Call) {
    match call.pc
    case InTx(_, phase) => phase.Aborting? ==> IsTrue(db0, s, call.req, phase.error)
    case LookAgain => KeyWasTaken(s, call.req.key)
    case Done(outcome) =>
      outcome.Failed? ==>
        && IsTrue(db0, s, call.req, outcome.error)
        && (outcome.error.KeyTaken? && HasKey(call.req.key) ==> Disturbed(s.history, call.req.key))
    case _ => true
  }

  ghost predicate ReasonsOk(db0: Db, s: State) {
    Fallen(db0, s.db) && forall c :: c in s.calls ==> ReasonOk(db0, s, s.calls[c])
  }

  // ---------------------------------------------------------------------------------------------
  // A reason that was true stays true

  lemma KeyWasTakenStays(s: State, step: Step, key: Option<string>)
    requires Enabled(s, step) && IdsFresh(s) && KeyWasTaken(s, key)
    ensures KeyWasTaken(Next(s, step), key)
  {
    if Disturbed(s.history, key) {
      DisturbedStays(s, step, key);
    } else {
      var o :| Carries(s.db, o, key);
      StepKeepsCarried(s, step, o, key);
    }
  }

  lemma RefusalStays(db0: Db, db: Db, db': Db, lines: seq<Line>, k: nat, error: Error)
    requires RefusedSince(db0, db, lines, k, error) && Fallen(db, db')
    ensures RefusedSince(db0, db', lines, k, error)
  {
  }

  lemma TruthStays(db0: Db, s: State, step: Step, req: Request, error: Error)
    requires Inv(db0, s) && Enabled(s, step) && IsTrue(db0, s, req, error)
    ensures IsTrue(db0, Next(s, step), req, error)
  {
    StepLowersStock(db0, s, step);
    if error.KeyTaken? { KeyWasTakenStays(s, step, req.key); }
    if error.ProductNotFound? || error.BadQuantity? || error.InsufficientStock? {
      var k: nat :| RefusedSince(db0, s.db, req.lines, k, error);
      RefusalStays(db0, s.db, Next(s, step).db, req.lines, k, error);
    }
  }

  lemma ReasonStays(db0: Db, s: State, step: Step, call: Call)
    requires Inv(db0, s) && Enabled(s, step) && ReasonOk(db0, s, call)
    ensures ReasonOk(db0, Next(s, step), call)
  {
    match call.pc
    case InTx(_, phase) => if phase.Aborting? { TruthStays(db0, s, step, call.req, phase.error); }
    case LookAgain => KeyWasTakenStays(s, step, call.req.key);
    case Done(outcome) =>
      if outcome.Failed? {
        TruthStays(db0, s, step, call.req, outcome.error);
        if Disturbed(s.history, call.req.key) { DisturbedStays(s, step, call.req.key); }
      }
    case _ =>
  }

  // ---------------------------------------------------------------------------------------------
  // A reason is true when it is given

  lemma StoredIsCarried(db: Db, key: Option<string>)
    requires Valid(db) && key.Some?
    ensures KeyCarried(db, key) <==> !KeyFree(db, key)
  {
    if !KeyFree(db, key) { assert Carries(db, db.byKey[key.value], key); }
  }

  // What the transaction reads is the stock less what the lines before ask.
  lemma ReadIsWhatIsLeft(db: Db, call: Call)
    requires call.pc.InTx? && (call.pc.phase.AtLock? || call.pc.phase.HasRow?) && CallOk(db, call) && MoreLines(call)
    ensures var (before, line) := (call.req.lines[..|call.pc.tx.items|], NextLine(call));
            && Acceptable(db.stock, before)
            && (call.pc.phase.HasRow? ==>
                  && line.product in db.stock
                  && call.pc.phase.read == db.stock[line.product] - Demand(before, line.product))
  {
    var tx, phase := call.pc.tx, call.pc.phase;
    assert Taken(call.req, tx, phase) == call.req.lines[..|tx.items|];
    CartIsExact(db.stock, call.req.lines[..|tx.items|]);
    if phase.HasRow? { assert (db.stock + tx.writes)[NextLine(call).product] == phase.read; }
  }

  lemma AcceptableFromStart(db0: Db, db: Db, lines: seq<Line>)
    requires Fallen(db0, db) && Acceptable(db.stock, lines)
    ensures Acceptable(db0.stock, lines)
  {
    CartIsExact(db.stock, lines);
    MoreStockFits(db.stock, db0.stock, lines);
    CartIsExact(db0.stock, lines);
  }

  lemma LineIsRefused(db0: Db, s: State, step: Step)
    requires Inv(db0, s) && Fallen(db0, s.db) && Enabled(s, step) && (step.LockProduct? || step.SaveStock?)
    ensures ReasonOk(db0, s, Next(s, step).calls[step.c])
  {
    var call := s.calls[step.c];
    var k, lines := |call.pc.tx.items|, call.req.lines;
    assert CallOk(s.db, call);
    ReadIsWhatIsLeft(s.db, call);
    AcceptableFromStart(db0, s.db, lines[..k]);
    var pc := Next(s, step).calls[step.c].pc;
    if pc.phase.Aborting? { assert RefusedSince(db0, s.db, lines, k, pc.phase.error); }
  }

  lemma MovedCallHasReason(db0: Db, s: State, step: Step)
    requires Inv(db0, s) && ReasonsOk(db0, s) && Enabled(s, step) && !ChangesTables(step)
    ensures ReasonOk(db0, s, Next(s, step).calls[step.c])
  {
    match step
    case LockProduct(_) => LineIsRefused(db0, s, step);
    case SaveStock(_) => LineIsRefused(db0, s, step);
    case InsertRow(c, _) => if !KeyFree(s.db, s.calls[c].req.key) { StoredIsCarried(s.db, s.calls[c].req.key); }
    case Rollback(c) => assert ReasonOk(db0, s, s.calls[c]);
    case Reread(c) =>
      assert ReasonOk(db0, s, s.calls[c]) && CallOk(s.db, s.calls[c]);
      StoredIsCarried(s.db, s.calls[c].req.key);
    case _ =>
  }

  lemma MovedCallKeepsReason(db0: Db, s: State, step: Step)
    requires Inv(db0, s) && ReasonsOk(db0, s) && Enabled(s, step) && Mover(step).Some?
    ensures ReasonOk(db0, Next(s, step), Next(s, step).calls[step.c])
  {
    if !Commits(step) {
      MovedCallHasReason(db0, s, step);
      ReasonStays(db0, s, step, Next(s, step).calls[step.c]);
    }
  }

  lemma StepKeepsReasons(db0: Db, s: State, step: Step)
    requires Inv(db0, s) && ReasonsOk(db0, s) && Enabled(s, step)
    ensures ReasonsOk(db0, Next(s, step))
  {
    StepMovesOneCall(s, step);
    StepLowersStock(db0, s, step);
    forall c | c in Next(s, step).calls ensures ReasonOk(db0, Next(s, step), Next(s, step).calls[c]) {
      if Mover(step) == Some(c) {
        MovedCallKeepsReason(db0, s, step);
      } else {
        ReasonStays(db0, s, step, s.calls[c]);
      }
    }
  }

  lemma {:induction false} RunKeepsReasons(db0: Db, s: State, steps: seq<Step>, t: State)
    requires Inv(db0, s) && ReasonsOk(db0, s) && Runs(s, steps, t)
    ensures ReasonsOk(db0, t)
    decreases |steps|
  {
    if steps != [] {
      StepKeepsInv(db0, s, steps[0]);
      StepKeepsReasons(db0, s, steps[0]);
      RunKeepsReasons(db0, Next(s, steps[0]), steps[1..], t);
    }
  }

  /** In every run, a call that failed was told the truth, and it still is: its cart was empty, its user unknown, a line
      of its cart names no product or no positive quantity, or asks with the lines before it for more than there is.
      It fails on its key only if the key is the empty one and was taken, or an order lost the key. */
  lemma RefusalsAreTrue(db0: Db, steps: seq<Step>, t: State, c: CallId, error: Error)
    requires Valid(db0) && Runs(Start(db0), steps, t)
    requires c in t.calls && t.calls[c].pc == Done(Failed(error))
    ensures var req := t.calls[c].req;
            match error
            case EmptyItems => req.lines == []
            case UserNotFound => req.lines != [] && req.user !in db0.users
            case KeyTaken =>
              req.key.Some? && (if req.key.value == "" then KeyWasTaken(t, req.key) else Disturbed(t.history, req.key))
            case DatabaseError => true
            case BrokerError => true
            case Crashed => true
            case _ => exists k: nat :: RefusedSince(db0, t.db, req.lines, k, error)
  {
    RunKeepsReasons(db0, Start(db0), steps, t);
    assert ReasonOk(db0, t, t.calls[c]);
  }
}
