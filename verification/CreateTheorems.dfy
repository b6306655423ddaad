/**
 What every run of interleaved create calls guarantees.
 */
module CreateTheorems {
  import opened Wrappers
  import opened Cart
  import opened OrderStore
  import opened CreateRuns

  // ---------------------------------------------------------------------------------------------
  // Stock is conserved

  // Quantity of product p held by the items of all live orders.
  ghost function ItemsTotal(orders: map<OrderId, OrderRow>, p: ProductId): int
    decreases |orders|
  {
    if orders == map[] then 0
    else
      var o :| o in orders;
      Demand(orders[o].items, p) + ItemsTotal(orders - {o}, p)
  }

  // Quantity of product p that went away with deleted orders; deleteOrder does not restock.
  function DeletedTotal(history: seq<Event>, p: ProductId): int {
    if history == [] then 0
    else
      var last := history[|history| - 1];
      DeletedTotal(history[..|history| - 1], p) + if last.Deleted? then Demand(last.row.items, p) else 0
  }

  lemma {:induction false} ItemsTotalSplit(orders: map<OrderId, OrderRow>, o: OrderId, p: ProductId)
    requires o in orders
    ensures ItemsTotal(orders, p) == Demand(orders[o].items, p) + ItemsTotal(orders - {o}, p)
    decreases |orders|
  {
    var x :| x in orders
          && ItemsTotal(orders, p) == Demand(orders[x].items, p) + ItemsTotal(orders - {x}, p);
    if x != o {
      ItemsTotalSplit(orders - {x}, o, p);
      ItemsTotalSplit(orders - {o}, x, p);
      assert orders - {x} - {o} == orders - {o} - {x};
    }
  }

  lemma EventConserves(db: Db, e: Event, p: ProductId)
    requires Valid(db) && ReplayEvent(db, e).Some? && p in db.stock
    ensures var db' := ReplayEvent(db, e).value;
            && Valid(db') && p in db'.stock
            && db'.stock[p] + ItemsTotal(db'.orders, p) + (if e.Deleted? then Demand(e.row.items, p) else 0)
               == db.stock[p] + ItemsTotal(db.orders, p)
  {
    var db' := ReplayEvent(db, e).value;
    match e
    case Committed(_, o, req) =>
      CreateIsExact(db, req, o);
      CreateKeepsValid(db, req, o);
      ItemsTotalSplit(db'.orders, o, p);
      assert db'.orders - {o} == db.orders;
    case Deleted(o, row) =>
      RemoveKeepsValid(db, o);
      ItemsTotalSplit(db.orders, o, p);
    case Rekeyed(o, oldKey, newKey) =>
      RekeyKeepsValid(db, o, newKey);
      ItemsTotalSplit(db.orders, o, p);
      ItemsTotalSplit(db'.orders, o, p);
      assert db'.orders - {o} == db.orders - {o};
    case Restored(o, row) =>
      RestoreKeepsValid(db, o, row);
      ItemsTotalSplit(db'.orders, o, p);
      assert db'.orders - {o} == db.orders;
  }

  lemma {:induction false} ReplayConserves(db0: Db, history: seq<Event>, p: ProductId)
    requires Valid(db0) && Replay(db0, history).Some? && p in db0.stock
    ensures var db := Replay(db0, history).value;
            && Valid(db) && p in db.stock
            && db.stock[p] + ItemsTotal(db.orders, p) + DeletedTotal(history, p)
               == db0.stock[p] + ItemsTotal(db0.orders, p)
  {
    if history != [] {
      var before := history[..|history| - 1];
      ReplayConserves(db0, before, p);
      EventConserves(Replay(db0, before).value, history[|history| - 1], p);
    }
  }

  /** In every reachable state of any interleaving: committed tables are those of a serial run of just
      the committed calls (and deletes and key rewrites), in commit order. */
  lemma Serializable(db0: Db, steps: seq<Step>, t: State)
    requires Valid(db0) && Runs(Start(db0), steps, t)
    ensures Replay(db0, t.history) == Some(t.db)
    ensures forall i :: 0 <= i < |t.history| && t.history[i].Committed? ==>
              var e := t.history[i];
              e.call in t.calls && t.calls[e.call].req == e.req && CommittedWith(t.calls[e.call].pc, e.order)
    ensures forall i, j :: 0 <= i < j < |t.history| && t.history[i].Committed? && t.history[j].Committed? ==>
              t.history[i].call != t.history[j].call && t.history[i].order != t.history[j].order
  {
    ReachableInv(db0, steps, t);
    ReachableAnswers(db0, steps, t);
  }

  /** In every reachable state no product is oversold, and its stock, its live order items and its
      deleted order items add up to what there was at the start. */
  lemma StockConserved(db0: Db, steps: seq<Step>, t: State, p: ProductId)
    requires Valid(db0) && Runs(Start(db0), steps, t) && p in db0.stock
    ensures p in t.db.stock && t.db.stock[p] >= 0
    ensures t.db.stock[p] + ItemsTotal(t.db.orders, p) + DeletedTotal(t.history, p)
            == db0.stock[p] + ItemsTotal(db0.orders, p)
  {
    ReachableInv(db0, steps, t);
    ReplayConserves(db0, t.history, p);
  }

  // ---------------------------------------------------------------------------------------------
  // Who answered what

  // Outcomes that leave it open: the answer to the commit was lost, the announcement after it threw, or the process
  // died.
  predicate MayHaveCommitted(outcome: Outcome) {
    outcome.Failed? && (outcome.error.Crashed? || outcome.error.DatabaseError? || outcome.error.BrokerError?)
  }

  predicate CommittedWith(pc: Pc, o: OrderId) {
    pc == Announce(o) || pc == Done(Returned(o, false)) || (pc.Done? && MayHaveCommitted(pc.outcome))
  }

  // The order a caller got, or is about to get.
  predicate Answers(pc: Pc, o: OrderId) {
    pc == Announce(o) || (pc.Done? && pc.outcome.Returned? && pc.outcome.order == o)
  }

  // Some order that carried this key was deleted or lost it to updateOrder.
  ghost predicate Disturbed(history: seq<Event>, key: Option<string>) {
    exists i :: 0 <= i < |history| && TakesKeyAway(history[i], key)
  }

  predicate TakesKeyAway(e: Event, key: Option<string>) {
    match e
    case Committed(_, _, _) => false
    case Deleted(_, row) => row.key == key
    case Rekeyed(_, oldKey, newKey) => oldKey == key && newKey != key
    case Restored(_, _) => false
  }

  predicate Carries(db: Db, o: OrderId, key: Option<string>) {
    o in db.orders && db.orders[o].key == key
  }

  // The call behind a commit still shows it, and no open transaction reuses its order id.
  ghost predicate EventHasCall(s: State, e: Event) {
    e.Committed? ==>
      && e.call in s.calls && s.calls[e.call].req == e.req && CommittedWith(s.calls[e.call].pc, e.order)
      && e.order in s.used
      && (forall d :: InTransaction(s, d) ==> s.calls[d].pc.tx.order != e.order)
  }

  ghost predicate EventsHaveCalls(s: State) {
    forall i :: 0 <= i < |s.history| ==> EventHasCall(s, s.history[i])
  }

  ghost predicate EventsDistinct(s: State) {
    forall i, j :: 0 <= i < j < |s.history| && s.history[i].Committed? && s.history[j].Committed? ==>
      s.history[i].call != s.history[j].call && s.history[i].order != s.history[j].order
  }

  ghost predicate AnswersHaveEvents(s: State) {
    forall c, o :: c in s.calls && (s.calls[c].pc == Announce(o) || s.calls[c].pc == Done(Returned(o, false))) ==>
      Committed(c, o, s.calls[c].req) in s.history
  }

  ghost predicate AnswersCarryKey(s: State) {
    forall c, o :: c in s.calls && HasKey(s.calls[c].req.key) && Answers(s.calls[c].pc, o) ==>
      Carries(s.db, o, s.calls[c].req.key) || Disturbed(s.history, s.calls[c].req.key)
  }

  ghost predicate EventsCarryKey(s: State) {
    forall i :: 0 <= i < |s.history| && s.history[i].Committed? && s.history[i].req.key.Some? ==>
      Carries(s.db, s.history[i].order, s.history[i].req.key) || Disturbed(s.history, s.history[i].req.key)
  }

  // An order whose key was never taken away was never deleted.
  ghost predicate KeyKeepsOrder(s: State) {
    forall i, j :: 0 <= i < |s.history| && 0 <= j < |s.history| && Deletes(s.history[i], s.history[j]) ==>
      Disturbed(s.history, s.history[i].req.key)
  }

  predicate Deletes(commit: Event, e: Event) {
    commit.Committed? && commit.req.key.Some? && e.Deleted? && e.order == commit.order
  }

  ghost predicate AnnouncedOnce(s: State) {
    && (forall i :: 0 <= i < |s.published| ==>
          var (c, o) := s.published[i];
          c in s.calls && s.calls[c].pc == Done(Returned(o, false)))
    && (forall i, j :: 0 <= i < j < |s.published| ==> s.published[i].0 != s.published[j].0)
    && (forall c: CallId, o: OrderId :: c in s.calls && s.calls[c].pc == Done(Returned(o, false)) ==>
          (c, o) in s.published)
  }

  ghost predicate AnswersOk(s: State) {
    && EventsHaveCalls(s) && EventsDistinct(s) && AnswersHaveEvents(s)
    && AnswersCarryKey(s) && EventsCarryKey(s) && KeyKeepsOrder(s) && AnnouncedOnce(s)
  }

  // A call that committed keeps showing it, whatever step it takes next.
  lemma CommittedStays(s: State, step: Step, c: CallId, o: OrderId)
    requires Enabled(s, step) && c in s.calls && CommittedWith(s.calls[c].pc, o)
    ensures c in Next(s, step).calls && Next(s, step).calls[c].req == s.calls[c].req
    ensures CommittedWith(Next(s, step).calls[c].pc, o)
  {
  }

  lemma UsedOrderIsNotReused(s: State, step: Step, o: OrderId, d: CallId)
    requires Enabled(s, step) && o in s.used && InTransaction(Next(s, step), d)
    requires forall c :: InTransaction(s, c) ==> s.calls[c].pc.tx.order != o
    ensures Next(s, step).calls[d].pc.tx.order != o
  {
    StepMovesOneCall(s, step);
    if !ChangesTables(step) && Mover(step) == Some(d) { MovedTx(s, step, d); }
  }

  lemma OldEventKeepsCall(s: State, step: Step, e: Event)
    requires Enabled(s, step) && EventHasCall(s, e)
    ensures EventHasCall(Next(s, step), e)
  {
    if e.Committed? {
      StepMovesOneCall(s, step);
      CommittedStays(s, step, e.call, e.order);
      forall d | InTransaction(Next(s, step), d) ensures Next(s, step).calls[d].pc.tx.order != e.order {
        UsedOrderIsNotReused(s, step, e.order, d);
      }
    }
  }

  lemma CommitHasCall(s: State, step: Step)
    requires Enabled(s, step) && Commits(step) && TxsApart(s) && IdsFresh(s)
    ensures EventHasCall(Next(s, step), Committed(step.c, s.calls[step.c].pc.tx.order, s.calls[step.c].req))
  {
    forall d | InTransaction(Next(s, step), d)
      ensures Next(s, step).calls[d].pc.tx.order != s.calls[step.c].pc.tx.order
    {
      assert Apart(s.calls[d].pc.tx, s.calls[step.c].pc.tx);
    }
  }

  // The call that commits was in a transaction, so no earlier event is its own or bears its order's id.
  lemma CommitIsNew(s: State, step: Step, e: Event)
    requires Enabled(s, step) && Commits(step) && EventHasCall(s, e) && e.Committed?
    ensures e.call != step.c && e.order != s.calls[step.c].pc.tx.order
  {
    assert InTransaction(s, step.c);
  }

  lemma StepKeepsEvents(s: State, step: Step)
    requires Enabled(s, step) && TxsApart(s) && IdsFresh(s)
    requires EventsHaveCalls(s) && EventsDistinct(s)
    ensures EventsHaveCalls(Next(s, step)) && EventsDistinct(Next(s, step))
  {
    StepMovesOneCall(s, step);
    forall i | 0 <= i < |Next(s, step).history| ensures EventHasCall(Next(s, step), Next(s, step).history[i]) {
      if i < |s.history| {
        OldEventKeepsCall(s, step, s.history[i]);
        assert Next(s, step).history[i] == s.history[i];
      } else if Commits(step) {
        CommitHasCall(s, step);
      }
    }
    if Commits(step) {
      forall i | 0 <= i < |s.history| && s.history[i].Committed?
        ensures s.history[i].call != step.c && s.history[i].order != s.calls[step.c].pc.tx.order
      {
        CommitIsNew(s, step, s.history[i]);
      }
    }
  }

  lemma StepKeepsAnswers(s: State, step: Step)
    requires Enabled(s, step) && AnswersHaveEvents(s)
    ensures AnswersHaveEvents(Next(s, step))
  {
    var s' := Next(s, step);
    assert s.history <= s'.history;
    if Commits(step) {
      assert s'.history[|s.history|] == Committed(step.c, s.calls[step.c].pc.tx.order, s.calls[step.c].req);
    }
  }

  lemma StepKeepsAnnounced(s: State, step: Step)
    requires Enabled(s, step) && AnnouncedOnce(s)
    ensures AnnouncedOnce(Next(s, step))
  {
    var s' := Next(s, step);
    assert s.published <= s'.published;
    if step.Publish? {
      assert s'.published[|s.published|] == (step.c, s.calls[step.c].pc.order);
    }
  }

  // A key, once carried, stays with its order until it is taken away; and then that is on record.
  lemma StepKeepsCarried(s: State, step: Step, o: OrderId, key: Option<string>)
    requires Enabled(s, step) && IdsFresh(s)
    requires Carries(s.db, o, key) || Disturbed(s.history, key)
    ensures Carries(Next(s, step).db, o, key) || Disturbed(Next(s, step).history, key)
  {
    var s' := Next(s, step);
    assert s.history <= s'.history;
    if Disturbed(s.history, key) {
      var i :| 0 <= i < |s.history| && TakesKeyAway(s.history[i], key);
      assert TakesKeyAway(s'.history[i], key);
    } else if (step.Delete? && step.o == o) || (step.Rekey? && step.o == o && step.key != key) {
      assert TakesKeyAway(s'.history[|s.history|], key);
    }
  }

  lemma AnswerCarriesKey(s: State, step: Step, c: CallId, o: OrderId)
    requires Enabled(s, step) && CallsOk(s) && IdsFresh(s) && Valid(s.db) && AnswersCarryKey(s)
    requires c in Next(s, step).calls && HasKey(Next(s, step).calls[c].req.key) && Answers(Next(s, step).calls[c].pc, o)
    ensures var key, s' := Next(s, step).calls[c].req.key, Next(s, step);
            Carries(s'.db, o, key) || Disturbed(s'.history, key)
  {
    if c in s.calls && Answers(s.calls[c].pc, o) {
      StepMovesOneCall(s, step);
      StepKeepsCarried(s, step, o, s.calls[c].req.key);
    }
  }

  lemma StepKeepsCarriers(s: State, step: Step)
    requires Enabled(s, step) && CallsOk(s) && IdsFresh(s) && Valid(s.db)
    requires AnswersCarryKey(s) && EventsCarryKey(s)
    ensures AnswersCarryKey(Next(s, step)) && EventsCarryKey(Next(s, step))
  {
    var s' := Next(s, step);
    forall c, o | c in s'.calls && HasKey(s'.calls[c].req.key) && Answers(s'.calls[c].pc, o)
      ensures Carries(s'.db, o, s'.calls[c].req.key) || Disturbed(s'.history, s'.calls[c].req.key)
    {
      AnswerCarriesKey(s, step, c, o);
    }
    forall i | 0 <= i < |s'.history| && s'.history[i].Committed? && s'.history[i].req.key.Some?
      ensures Carries(s'.db, s'.history[i].order, s'.history[i].req.key) || Disturbed(s'.history, s'.history[i].req.key)
    {
      if i < |s.history| {
        assert s'.history[i] == s.history[i];
        StepKeepsCarried(s, step, s.history[i].order, s.history[i].req.key);
      }
    }
  }

  lemma DisturbedStays(s: State, step: Step, key: Option<string>)
    requires Enabled(s, step) && Disturbed(s.history, key)
    ensures Disturbed(Next(s, step).history, key)
  {
    StepMovesOneCall(s, step);
    var i :| 0 <= i < |s.history| && TakesKeyAway(s.history[i], key);
    assert TakesKeyAway(Next(s, step).history[i], key);
  }

  lemma NewDeletionDisturbs(s: State, step: Step, commit: Event)
    requires Enabled(s, step) && step.Delete? && commit.Committed? && commit.order == step.o
    requires Carries(s.db, commit.order, commit.req.key) || Disturbed(s.history, commit.req.key)
    ensures Disturbed(Next(s, step).history, commit.req.key)
  {
    if Disturbed(s.history, commit.req.key) {
      DisturbedStays(s, step, commit.req.key);
    } else {
      assert TakesKeyAway(Next(s, step).history[|s.history|], commit.req.key);
    }
  }

  lemma StepKeepsKeyed(s: State, step: Step)
    requires Enabled(s, step) && IdsFresh(s) && EventsCarryKey(s) && KeyKeepsOrder(s)
    ensures KeyKeepsOrder(Next(s, step))
  {
    var history, n := Next(s, step).history, |s.history|;
    StepMovesOneCall(s, step);
    if Commits(step) {
      forall j | 0 <= j < n && s.history[j].Deleted? ensures s.history[j].order != s.calls[step.c].pc.tx.order {
        assert OutOfUse(s, s.history[j].order) && InTransaction(s, step.c);
      }
    }
    forall i, j | 0 <= i < |history| && 0 <= j < |history| && Deletes(history[i], history[j])
      ensures Disturbed(history, history[i].req.key)
    {
      if i < n && j < n {
        assert Deletes(s.history[i], s.history[j]);
        DisturbedStays(s, step, s.history[i].req.key);
      } else if i < n {
        assert history[i] == s.history[i];
        NewDeletionDisturbs(s, step, s.history[i]);
      }
    }
  }

  lemma {:induction false} RunKeepsAnswers(db0: Db, s: State, steps: seq<Step>, t: State)
    requires Inv(db0, s) && AnswersOk(s) && Runs(s, steps, t)
    ensures AnswersOk(t)
    decreases |steps|
  {
    if steps != [] {
      StepKeepsInv(db0, s, steps[0]);
      StepKeepsEvents(s, steps[0]);
      StepKeepsAnswers(s, steps[0]);
      StepKeepsAnnounced(s, steps[0]);
      StepKeepsCarriers(s, steps[0]);
      StepKeepsKeyed(s, steps[0]);
      RunKeepsAnswers(db0, Next(s, steps[0]), steps[1..], t);
    }
  }

  lemma ReachableAnswers(db0: Db, steps: seq<Step>, t: State)
    requires Valid(db0) && Runs(Start(db0), steps, t)
    ensures AnswersOk(t)
  {
    RunKeepsAnswers(db0, Start(db0), steps, t);
  }

  // ---------------------------------------------------------------------------------------------
  // Idempotent create under races

  /** At any moment at most one live order carries a given stored key. */
  lemma KeysAreUnique(db0: Db, steps: seq<Step>, t: State, a: OrderId, b: OrderId)
    requires Valid(db0) && Runs(Start(db0), steps, t)
    requires a in t.db.orders && b in t.db.orders
    requires t.db.orders[a].key.Some? && t.db.orders[a].key == t.db.orders[b].key
    ensures a == b
  {
    ReachableInv(db0, steps, t);
  }

  predicate AskedWith(t: State, c: CallId, key: string) {
    c in t.calls && t.calls[c].req.key == Some(key)
  }

  predicate CommitsKey(e: Event, key: string) {
    e.Committed? && e.req.key == Some(key)
  }

  ghost predicate CommitsAtMostOnce(history: seq<Event>, key: string) {
    forall i, j | 0 <= i < |history| && 0 <= j < |history| ::
      CommitsKey(history[i], key) && CommitsKey(history[j], key) ==> i == j
  }

  /** A non-empty key that was never taken away from an order names one order for ever: at most one call
      with it commits, every caller that gets an answer gets that order, and one caller at most is told
      that it created it. */
  lemma IdempotentCreate(db0: Db, steps: seq<Step>, t: State, key: string)
    requires Valid(db0) && Runs(Start(db0), steps, t)
    requires key != "" && !Disturbed(t.history, Some(key))
    ensures forall c, d, a, b | AskedWith(t, c, key) && AskedWith(t, d, key) ::
              Answers(t.calls[c].pc, a) && Answers(t.calls[d].pc, b) ==> a == b
    ensures forall c, d, a, b | AskedWith(t, c, key) && AskedWith(t, d, key) ::
              t.calls[c].pc == Done(Returned(a, false)) && t.calls[d].pc == Done(Returned(b, false)) ==> c == d
    ensures CommitsAtMostOnce(t.history, key)
  {
    ReachableInv(db0, steps, t);
    ReachableAnswers(db0, steps, t);
    OneCommitPerKey(t, key);
    forall c, d, a, b | AskedWith(t, c, key) && t.calls[c].pc == Done(Returned(a, false))
                     && AskedWith(t, d, key) && t.calls[d].pc == Done(Returned(b, false))
      ensures c == d
    {
      assert Committed(c, a, t.calls[c].req) in t.history && Committed(d, b, t.calls[d].req) in t.history;
    }
  }

  lemma OneCommitPerKey(t: State, key: string)
    requires Valid(t.db) && AnswersOk(t) && !Disturbed(t.history, Some(key))
    ensures CommitsAtMostOnce(t.history, key)
  {
    forall i, j | 0 <= i < |t.history| && CommitsKey(t.history[i], key)
               && 0 <= j < |t.history| && CommitsKey(t.history[j], key)
      ensures i == j
    {
      assert Carries(t.db, t.history[i].order, Some(key)) && Carries(t.db, t.history[j].order, Some(key));
      assert t.history[i].order == t.history[j].order;
    }
  }

  /** A call that answers "duplicate", or fails with anything but a database error, a broker error or the death of its
      process, committed nothing (so it took no stock); one that fails in these three ways committed at most one order;
      exactly the calls that answer "created" announce, each once, and each of them committed. CreateOutcomes has the
      other half: each of the three may have committed. */
  lemma OnlyCreatorsHaveEffects(db0: Db, steps: seq<Step>, t: State, c: CallId)
    requires Valid(db0) && Runs(Start(db0), steps, t)
    requires c in t.calls && t.calls[c].pc.Done?
    ensures var outcome := t.calls[c].pc.outcome;
            && (!MayHaveCommitted(outcome) && !(outcome.Returned? && !outcome.wasDuplicate) ==>
                  forall i :: 0 <= i < |t.history| && t.history[i].Committed? ==> t.history[i].call != c)
            && (outcome.Returned? && !outcome.wasDuplicate ==>
                  Committed(c, outcome.order, t.calls[c].req) in t.history)
            && ((exists i :: 0 <= i < |t.published| && t.published[i].0 == c) <==>
                  outcome.Returned? && !outcome.wasDuplicate)
    ensures forall i, j :: 0 <= i < j < |t.history| && t.history[i].Committed? && t.history[j].Committed? ==>
              t.history[i].call != t.history[j].call
    ensures forall i, j :: 0 <= i < j < |t.published| ==> t.published[i].0 != t.published[j].0
  {
    ReachableAnswers(db0, steps, t);
    var outcome := t.calls[c].pc.outcome;
    if outcome.Returned? && !outcome.wasDuplicate {
      assert (c, outcome.order) in t.published;
      var i :| 0 <= i < |t.published| && t.published[i] == (c, outcome.order);
      assert t.published[i].0 == c;
    }
  }
}
