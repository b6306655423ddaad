/**
 The interleaving machine run with one call only is the service running alone: from any reachable state in which
 no other call has an open transaction, a call can run through, and its outcome and tables are SerialCreate's.
 */
module CreateAlone {
  import opened Cart
  import opened OrderStore
  import opened CreateRuns

  ghost predicate NobodyElse(s: State, c: CallId) {
    forall d :: InTransaction(s, d) ==> d == c
  }

  predicate OwnStep(step: Step, c: CallId) {
    match step
    case Lookup(d) => c == d
    case Check(d) => c == d
    case Connect(d) => c == d
    case InsertRow(d, _) => c == d
    case LockProduct(d) => c == d
    case SaveStock(d) => c == d
    case SaveItem(d) => c == d
    case _ => false
  }

  // A step of c before its commit keeps the invariant, the tables, the request and everybody else.
  lemma OwnStepIsLocal(db0: Db, s: State, step: Step, c: CallId)
    requires Inv(db0, s) && Enabled(s, step) && OwnStep(step, c) && NobodyElse(s, c)
    ensures var s' := Next(s, step);
            && Inv(db0, s') && NobodyElse(s', c) && s'.db == s.db
            && c in s.calls && c in s'.calls && s'.calls[c].req == s.calls[c].req
            && CallOk(s'.db, s'.calls[c])
  {
    StepKeepsInv(db0, s, step);
    var s' := Next(s, step);
    forall d | InTransaction(s', d) ensures d == c {
      if d != c { assert InTransaction(s, d); }
    }
  }

  // Call c, at state s, ran to its end at t as SerialCreate would have from s.
  predicate EndsAs(s: State, c: CallId, id: OrderId, t: State) {
    && c in s.calls && c in t.calls && t.calls[c].pc.Done?
    && (t.db, t.calls[c].pc.outcome) == SerialCreate(s.db, s.calls[c].req, id)
  }

  lemma RollBack(db0: Db, s: State, c: CallId) returns (steps: seq<Step>, t: State)
    requires AtPhase(s, c, true) && !s.calls[c].pc.phase.error.KeyTaken?
    ensures Runs(s, steps, t) && t.db == s.db
    ensures c in t.calls && t.calls[c].pc == Done(Failed(s.calls[c].pc.phase.error))
  {
    t := Next(s, Rollback(c));
    assert Runs(t, [], t);
    steps := [Rollback(c)] + [];
    RunsCons(s, Rollback(c), [], t);
  }

  // The line the transaction is at decides the whole cart if it is rejected.
  lemma RejectedLine(s: State, c: CallId, error: Error)
    requires AtPhase(s, c, false) && MoreLines(s.calls[c]) && CallOk(s.db, s.calls[c])
    requires !s.calls[c].pc.phase.StockSaved?
    requires TakeLine(s.db.stock + s.calls[c].pc.tx.writes, NextLine(s.calls[c])) == Rejected(error)
    ensures SerialCreate(s.db, s.calls[c].req, s.calls[c].pc.tx.order) == (s.db, Failed(error))
  {
    var req, n := s.calls[c].req, |s.calls[c].pc.tx.items|;
    TakeAllStep(s.db.stock, req.lines, n);
    TakeAllStops(s.db.stock, req.lines, n + 1);
  }

  lemma {:induction false} FinishFromLoop(db0: Db, s: State, c: CallId) returns (steps: seq<Step>, t: State)
    requires Inv(db0, s) && AtPhase(s, c, false) && s.calls[c].pc.phase.AtLock? && NobodyElse(s, c)
    ensures Runs(s, steps, t) && EndsAs(s, c, s.calls[c].pc.tx.order, t)
    decreases |s.calls[c].req.lines| - |s.calls[c].pc.tx.items|, 2
  {
    assert CallOk(s.db, s.calls[c]);
    if !MoreLines(s.calls[c]) {
      CommitIsSerial(s, c);
      var s1 := Next(s, Commit(c));
      t := Next(s1, Publish(c));
      assert Runs(t, [], t);
      RunsCons(s1, Publish(c), [], t);
      RunsCons(s, Commit(c), [Publish(c)] + [], t);
      steps := [Commit(c)] + ([Publish(c)] + []);
    } else {
      OwnStepIsLocal(db0, s, LockProduct(c), c);
      var s1 := Next(s, LockProduct(c));
      var rest;
      if s1.calls[c].pc.phase.Aborting? {
        RejectedLine(s, c, s1.calls[c].pc.phase.error);
        rest, t := RollBack(db0, s1, c);
      } else {
        rest, t := FinishFromRow(db0, s1, c);
      }
      RunsCons(s, LockProduct(c), rest, t);
      steps := [LockProduct(c)] + rest;
    }
  }

  lemma {:induction false} FinishFromRow(db0: Db, s: State, c: CallId) returns (steps: seq<Step>, t: State)
    requires Inv(db0, s) && AtPhase(s, c, false) && s.calls[c].pc.phase.HasRow? && NobodyElse(s, c)
    requires MoreLines(s.calls[c])
    ensures Runs(s, steps, t) && EndsAs(s, c, s.calls[c].pc.tx.order, t)
    decreases |s.calls[c].req.lines| - |s.calls[c].pc.tx.items|, 1
  {
    assert CallOk(s.db, s.calls[c]);
    OwnStepIsLocal(db0, s, SaveStock(c), c);
    var s1 := Next(s, SaveStock(c));
    var rest;
    if s1.calls[c].pc.phase.Aborting? {
      RejectedLine(s, c, s1.calls[c].pc.phase.error);
      rest, t := RollBack(db0, s1, c);
    } else {
      rest, t := FinishFromItem(db0, s1, c);
    }
    RunsCons(s, SaveStock(c), rest, t);
    steps := [SaveStock(c)] + rest;
  }

  lemma {:induction false} FinishFromItem(db0: Db, s: State, c: CallId) returns (steps: seq<Step>, t: State)
    requires Inv(db0, s) && AtPhase(s, c, false) && s.calls[c].pc.phase.StockSaved? && NobodyElse(s, c)
    requires MoreLines(s.calls[c])
    ensures Runs(s, steps, t) && EndsAs(s, c, s.calls[c].pc.tx.order, t)
    decreases |s.calls[c].req.lines| - |s.calls[c].pc.tx.items|, 0
  {
    OwnStepIsLocal(db0, s, SaveItem(c), c);
    var s1 := Next(s, SaveItem(c));
    var rest;
    rest, t := FinishFromLoop(db0, s1, c);
    RunsCons(s, SaveItem(c), rest, t);
    steps := [SaveItem(c)] + rest;
  }

  lemma FinishFromBegin(db0: Db, s: State, c: CallId, id: OrderId) returns (steps: seq<Step>, t: State)
    requires Inv(db0, s) && c in s.calls && s.calls[c].pc.Begin? && id !in s.used && NobodyElse(s, c)
    requires HasKey(s.calls[c].req.key) ==> KeyFree(s.db, s.calls[c].req.key)
    ensures Runs(s, steps, t) && EndsAs(s, c, id, t)
  {
    OwnStepIsLocal(db0, s, Connect(c), c);
    var rest;
    rest, t := FinishFromOpened(db0, Next(s, Connect(c)), c, id);
    RunsCons(s, Connect(c), rest, t);
    steps := [Connect(c)] + rest;
  }

  lemma FinishFromOpened(db0: Db, s: State, c: CallId, id: OrderId) returns (steps: seq<Step>, t: State)
    requires Inv(db0, s) && c in s.calls && s.calls[c].pc.Opened? && id !in s.used && NobodyElse(s, c)
    requires HasKey(s.calls[c].req.key) ==> KeyFree(s.db, s.calls[c].req.key)
    ensures Runs(s, steps, t) && EndsAs(s, c, id, t)
  {
    assert CallOk(s.db, s.calls[c]);
    OwnStepIsLocal(db0, s, InsertRow(c, id), c);
    var s1 := Next(s, InsertRow(c, id));
    var rest;
    if s1.calls[c].pc.phase.Aborting? {
      // an empty key that is taken: not looked up again
      t := Next(s1, Rollback(c));
      assert Runs(t, [], t);
      rest := [Rollback(c)] + [];
      RunsCons(s1, Rollback(c), [], t);
    } else {
      rest, t := FinishFromLoop(db0, s1, c);
    }
    RunsCons(s, InsertRow(c, id), rest, t);
    steps := [InsertRow(c, id)] + rest;
  }

  /** What OrdersService.Create does is one of the runs of the machine, so the guarantees for all runs speak about
      the service. */
  lemma AloneIsSerial(db0: Db, before: seq<Step>, s: State, c: CallId, id: OrderId) returns (steps: seq<Step>, t: State)
    requires Valid(db0) && Runs(Start(db0), before, s)
    requires c in s.calls && s.calls[c].pc.LookUpKey? && id !in s.used && NobodyElse(s, c)
    ensures Runs(s, steps, t) && EndsAs(s, c, id, t)
  {
    ReachableInv(db0, before, s);
    OwnStepIsLocal(db0, s, Lookup(c), c);
    var s1 := Next(s, Lookup(c));
    if s1.calls[c].pc.Done? {
      steps, t := [], s1;
    } else {
      steps, t := FinishFromCheck(db0, s1, c, id);
    }
    RunsCons(s, Lookup(c), steps, t);
    steps := [Lookup(c)] + steps;
  }

  lemma FinishFromCheck(db0: Db, s: State, c: CallId, id: OrderId) returns (steps: seq<Step>, t: State)
    requires Inv(db0, s) && c in s.calls && s.calls[c].pc.Validate? && id !in s.used && NobodyElse(s, c)
    requires HasKey(s.calls[c].req.key) ==> KeyFree(s.db, s.calls[c].req.key)
    ensures Runs(s, steps, t) && EndsAs(s, c, id, t)
  {
    OwnStepIsLocal(db0, s, Check(c), c);
    var s1 := Next(s, Check(c));
    if s1.calls[c].pc.Done? {
      steps, t := [], s1;
    } else {
      steps, t := FinishFromBegin(db0, s1, c, id);
    }
    RunsCons(s, Check(c), steps, t);
    steps := [Check(c)] + steps;
  }
}
