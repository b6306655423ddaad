/**
 When callers of one idempotency key use up the connection pool. A create that loses the race for its key looks the
 key up again before it gives its connection back (src/orders/order.service.ts, lines 131-145), and that look-up takes a
 second connection. If as many calls as there are connections get there together, none of them ever gets one. This
 module says exactly which requests can bring that about.
 */
module KeyJam {
  import opened Wrappers
  import opened Cart
  import opened OrderStore
  import opened CreateRuns
  import opened CreateTheorems
  import opened ConnectionPool
  import opened CreateBuilds
  import opened LockOrder

  /** A jam lasts until the database fails the look-up of a call in it, or the process dies. */
  lemma JamStays(pool: nat, s: State, step: Step)
    requires Allowed(pool, s, step) && Jammed(pool, s)
    requires step.DbFails? || step.Crash? ==> step.c !in Rereaders(s)
    ensures Jammed(pool, Next(s, step))
  {
    Subset(Rereaders(s), Holders(s));
    StepMovesOneCall(s, step);
    assert Mover(step).Some? ==> step.c !in Rereaders(s);
    Subset(Rereaders(s), Rereaders(Next(s, step)));
  }

  // Passes the checks before the transaction.
  predicate Ready(db0: Db, req: Request) {
    req.lines != [] && req.user in db0.users
  }

  predicate PastChecks(pc: Pc) {
    pc.Begin? || pc.Opened? || pc.InTx? || pc.LookAgain?
  }

  predicate LostKey(pc: Pc) {
    pc.LookAgain? || (pc.InTx? && pc.phase == Aborting(KeyTaken))
  }

  predicate UsesRequests(t: State, reqs: map<CallId, Request>) {
    forall c :: c in t.calls ==> c in reqs && t.calls[c].req == reqs[c]
  }

  // ---------------------------------------------------------------------------------------------
  // What leads to a jam

  // Who is past the checks passed them, and what has committed was acceptable from the start.
  ghost predicate Checked(db0: Db, s: State) {
    && Fallen(db0, s.db)
    && (forall c :: c in s.calls && PastChecks(s.calls[c].pc) ==> Ready(db0, s.calls[c].req))
    && (forall i :: 0 <= i < |s.history| ==> WasAcceptable(db0, s.history[i]))
  }

  ghost predicate WasAcceptable(db0: Db, e: Event) {
    e.Committed? ==> Ready(db0, e.req) && Acceptable(db0.stock, e.req.lines)
  }

  // A key can only be lost to an order.
  ghost predicate LostToOrder(db0: Db, s: State) {
    (exists c :: c in s.calls && LostKey(s.calls[c].pc)) || s.history != [] ==>
      db0.orders != map[] || exists i :: 0 <= i < |s.history| && s.history[i].Committed?
  }

  lemma CommitWasAcceptable(db0: Db, s: State, step: Step)
    requires Inv(db0, s) && Checked(db0, s) && Enabled(s, step) && Commits(step)
    ensures WasAcceptable(db0, Committed(step.c, s.calls[step.c].pc.tx.order, s.calls[step.c].req))
  {
    var lines := s.calls[step.c].req.lines;
    CommitIsSerial(s, step.c);
    MoreStockFits(s.db.stock, db0.stock, lines);
    CartIsExact(db0.stock, lines);
  }

  lemma StepKeepsChecked(db0: Db, s: State, step: Step)
    requires Inv(db0, s) && Checked(db0, s) && Enabled(s, step)
    ensures Checked(db0, Next(s, step))
  {
    StepLowersStock(db0, s, step);
    StepKeepsPast(db0, s, step);
    forall i | 0 <= i < |Next(s, step).history| ensures WasAcceptable(db0, Next(s, step).history[i]) {
      StepMovesOneCall(s, step);
      if i < |s.history| {
        assert Next(s, step).history[i] == s.history[i];
      } else if Commits(step) {
        CommitWasAcceptable(db0, s, step);
      }
    }
  }

  lemma StepKeepsPast(db0: Db, s: State, step: Step)
    requires Checked(db0, s) && Enabled(s, step)
    ensures forall c :: c in Next(s, step).calls && PastChecks(Next(s, step).calls[c].pc) ==>
              Ready(db0, Next(s, step).calls[c].req)
  {
    StepMovesOneCall(s, step);
    forall c | c in Next(s, step).calls && PastChecks(Next(s, step).calls[c].pc)
      ensures Ready(db0, Next(s, step).calls[c].req)
    {
      if Mover(step) == Some(c) { OnlyChecksLetPast(s, step); }
    }
  }

  lemma OnlyChecksLetPast(s: State, step: Step)
    requires Enabled(s, step) && Mover(step).Some? && PastChecks(Next(s, step).calls[step.c].pc)
    ensures step.c in s.calls && Next(s, step).calls[step.c].req == s.calls[step.c].req
    ensures PastChecks(s.calls[step.c].pc) || Ready(s.db, s.calls[step.c].req)
  {
  }

  lemma StepKeepsLost(db0: Db, s: State, step: Step)
    requires Valid(db0) && Inv(db0, s) && LostToOrder(db0, s) && Enabled(s, step)
    ensures LostToOrder(db0, Next(s, step))
  {
    var s' := Next(s, step);
    StepMovesOneCall(s, step);
    if i :| 0 <= i < |s.history| && s.history[i].Committed? {
      assert s'.history[i].Committed?;
    } else if Commits(step) {
      assert s'.history[|s.history|].Committed?;
    } else if db0.orders == map[] {
      NothingLost(db0, s, step);
    }
  }

  lemma NoOrdersNoKeys(db: Db)
    requires Valid(db) && db.orders == map[]
    ensures db.byKey == map[]
  {
  }

  lemma NothingLost(db0: Db, s: State, step: Step)
    requires Valid(db0) && Inv(db0, s) && LostToOrder(db0, s) && Enabled(s, step) && !Commits(step)
    requires db0.orders == map[] && forall i :: 0 <= i < |s.history| ==> !s.history[i].Committed?
    ensures Next(s, step).history == []
    ensures forall c :: c in Next(s, step).calls ==> !LostKey(Next(s, step).calls[c].pc)
  {
    assert s.history == [] && s.db == db0;
    NoOrdersNoKeys(db0);
    NoKeysNoLoss(s, step);
  }

  lemma NoKeysNoLoss(s: State, step: Step)
    requires Enabled(s, step) && s.db.byKey == map[] && forall c :: c in s.calls ==> !LostKey(s.calls[c].pc)
    ensures forall c :: c in Next(s, step).calls ==> !LostKey(Next(s, step).calls[c].pc)
  {
    StepMovesOneCall(s, step);
  }

  lemma {:induction false} RunKeepsChecked(db0: Db, s: State, steps: seq<Step>, t: State)
    requires Valid(db0) && Inv(db0, s) && Checked(db0, s) && LostToOrder(db0, s) && Runs(s, steps, t)
    ensures Inv(db0, t) && Checked(db0, t) && LostToOrder(db0, t)
    decreases |steps|
  {
    if steps != [] {
      StepKeepsInv(db0, s, steps[0]);
      StepKeepsChecked(db0, s, steps[0]);
      StepKeepsLost(db0, s, steps[0]);
      RunKeepsChecked(db0, Next(s, steps[0]), steps[1..], t);
    }
  }

  // ---------------------------------------------------------------------------------------------
  // How a jam comes about

  lemma Pick(all: set<CallId>, n: nat) returns (some: set<CallId>)
    requires n <= |all|
    ensures some <= all && |some| == n
    decreases |all|
  {
    if n == |all| {
      some := all;
    } else {
      var c :| c in all;
      some := Pick(all - {c}, n);
    }
  }

  // A call whose key is taken by now connects, fails on the key and asks for a second connection.
  lemma Loses(pool: nat, db0: Db, before: seq<Step>, s: State, c: CallId) returns (steps: seq<Step>, t: State)
    requires Built(pool, db0, before, s) && NoTransactions(s) && |Holders(s)| < pool
    requires c in s.calls && s.calls[c].pc.Begin? && HasKey(s.calls[c].req.key) && !KeyFree(s.db, s.calls[c].req.key)
    ensures Built(pool, db0, steps, t) && t.db == s.db && t.calls == s.calls[c := s.calls[c].(pc := LookAgain)]
    ensures NoTransactions(t) && Holders(t) == Holders(s) + {c}
    ensures CreatesOnly(before) ==> CreatesOnly(steps)
  {
    var call := s.calls[c];
    var u;
    steps, u := Opens(pool, db0, before, s, c);
    StillNone(s, u, c, call.(pc := Opened));
    var id := Unused(u.used);
    steps, u := Extend(pool, db0, steps, u, InsertRow(c, id));
    assert u.calls == s.calls[c := call.(pc := InTx(Tx(id, None, [], map[], {}), Aborting(KeyTaken)))];
    steps, t := Extend(pool, db0, steps, u, Rollback(c));
    assert t.calls == s.calls[c := call.(pc := LookAgain)];
    StillNone(s, t, c, call.(pc := LookAgain));
  }

  // If need be, the key is written to order o before.
  lemma LosesAnyhow(pool: nat, db0: Db, before: seq<Step>, s: State, c: CallId, o: OrderId)
    returns (steps: seq<Step>, t: State)
    requires Built(pool, db0, before, s) && NoTransactions(s) && |Holders(s)| < pool && o in s.db.orders
    requires c in s.calls && s.calls[c].pc.Begin? && HasKey(s.calls[c].req.key)
    ensures Built(pool, db0, steps, t) && NoTransactions(t) && o in t.db.orders && Holders(t) == Holders(s) + {c}
    ensures t.calls == s.calls[c := s.calls[c].(pc := LookAgain)]
    ensures !KeyFree(s.db, s.calls[c].req.key) ==> t.db == s.db && (CreatesOnly(before) ==> CreatesOnly(steps))
  {
    var u := s;
    steps := before;
    if KeyFree(s.db, s.calls[c].req.key) {
      steps, u := Extend(pool, db0, steps, u, Rekey(o, s.calls[c].req.key));
      assert forall d :: InTransaction(u, d) ==> InTransaction(s, d);
    }
    steps, t := Loses(pool, db0, steps, u, c);
  }

  predicate AllBegun(s: State, todo: set<CallId>) {
    forall c :: c in todo ==> c in s.calls && s.calls[c].pc.Begin? && HasKey(s.calls[c].req.key)
  }

  predicate KeysTaken(s: State, todo: set<CallId>)
    requires AllBegun(s, todo)
  {
    forall c :: c in todo ==> !KeyFree(s.db, s.calls[c].req.key)
  }

  lemma {:induction false} LoseAll(pool: nat, db0: Db, before: seq<Step>, s: State, todo: set<CallId>, o: OrderId)
    returns (steps: seq<Step>, t: State)
    requires Built(pool, db0, before, s) && NoTransactions(s) && o in s.db.orders && AllBegun(s, todo)
    requires |Holders(s)| + |todo| <= pool
    ensures Built(pool, db0, steps, t) && todo <= Rereaders(t) && OnlyTheseMoved(s, t, todo)
    ensures KeysTaken(s, todo) && CreatesOnly(before) ==> CreatesOnly(steps)
    decreases |todo|
  {
    if c :| c in todo {
      var u;
      steps, u := LosesAnyhow(pool, db0, before, s, c, o);
      assert Holders(s) !! {c};
      steps, t := LoseAll(pool, db0, steps, u, todo - {c}, o);
    } else {
      steps, t := before, s;
    }
  }

  predicate OnlyTheseMoved(s: State, t: State, moved: set<CallId>) {
    && t.calls.Keys == s.calls.Keys && (forall c :: c in s.calls ==> t.calls[c].req == s.calls[c].req)
    && forall c :: c in s.calls && c !in moved ==> t.calls[c] == s.calls[c]
  }

  // ---------------------------------------------------------------------------------------------
  // Calls that may lose their key

  // The call is past its checks and about to take a connection.
  predicate Begun(s: State, reqs: map<CallId, Request>, c: CallId) {
    c in reqs && c in s.calls && s.calls[c] == Call(reqs[c], Begin)
  }

  predicate AllWaiting(s: State, reqs: map<CallId, Request>, todo: set<CallId>) {
    forall c :: c in todo ==> Begun(s, reqs, c)
  }

  predicate SameTablesBut(db0: Db, db: Db) {
    db.users == db0.users && db.stock == db0.stock && db.orders.Keys == db0.orders.Keys
  }

  // A taken key is first written off its order.
  lemma FreeKey(pool: nat, db0: Db, before: seq<Step>, s: State, key: Option<string>)
    returns (steps: seq<Step>, t: State)
    requires Built(pool, db0, before, s)
    ensures Built(pool, db0, steps, t) && t.calls == s.calls && KeyFree(t.db, key) && SameTablesBut(s.db, t.db)
    ensures KeyFree(s.db, key) ==> t.db == s.db && (CreatesOnly(before) ==> CreatesOnly(steps))
    ensures s.history <= t.history
    ensures forall e :: e in t.history ==> e in s.history || (e.Rekeyed? && e.oldKey == key)
  {
    steps, t := before, s;
    if !KeyFree(s.db, key) {
      BuiltInv(pool, db0, before, s);
      steps, t := Extend(pool, db0, before, s, Rekey(s.db.byKey[key.value], None));
    }
  }

  lemma ArrivesAnyhow(pool: nat, db0: Db, before: seq<Step>, s: State, c: CallId, req: Request)
    returns (steps: seq<Step>, t: State)
    requires Built(pool, db0, before, s) && NoTransactions(s) && Holders(s) == {} && pool > 0
    requires c !in s.calls && Ready(s.db, req)
    ensures Built(pool, db0, steps, t) && NoTransactions(t) && Holders(t) == {} && SameTablesBut(s.db, t.db)
    ensures t.calls == s.calls[c := Call(req, Begin)]
    ensures KeyFree(s.db, req.key) ==> t.db == s.db && (CreatesOnly(before) ==> CreatesOnly(steps))
  {
    var u;
    steps, u := FreeKey(pool, db0, before, s, req.key);
    steps, t := Arrives(pool, db0, steps, u, c, req);
    StillNone(s, t, c, Call(req, Begin));
    HoldersWithout(s, c, Call(req, Begin));
  }

  // Just these calls have arrived since.
  predicate Arrived(s: State, t: State, reqs: map<CallId, Request>, todo: set<CallId>) {
    && t.calls.Keys == s.calls.Keys + todo && (forall c :: c in s.calls ==> t.calls[c] == s.calls[c])
    && AllWaiting(t, reqs, todo)
  }

  lemma OneMoreArrived(
      s: State, u: State, t: State, reqs: map<CallId, Request>, todo: set<CallId>, c: CallId)
    requires c in todo && c !in s.calls && c in reqs && u.calls == s.calls[c := Call(reqs[c], Begin)]
    requires Arrived(u, t, reqs, todo - {c})
    ensures Arrived(s, t, reqs, todo)
  {
    assert Begun(u, reqs, c);
  }

  predicate AllReady(db: Db, reqs: map<CallId, Request>, todo: set<CallId>) {
    forall c :: c in todo ==> c in reqs && Ready(db, reqs[c])
  }

  predicate KeysFree(db: Db, reqs: map<CallId, Request>, todo: set<CallId>) {
    forall c :: c in todo ==> c in reqs && KeyFree(db, reqs[c].key)
  }

  lemma {:induction false} ArriveAll(
      pool: nat, db0: Db, before: seq<Step>, s: State, reqs: map<CallId, Request>, todo: set<CallId>)
    returns (steps: seq<Step>, t: State)
    requires Built(pool, db0, before, s) && NoTransactions(s) && Holders(s) == {} && pool > 0
    requires AllReady(s.db, reqs, todo) && todo !! s.calls.Keys
    ensures Built(pool, db0, steps, t) && NoTransactions(t) && Holders(t) == {} && SameTablesBut(s.db, t.db)
    ensures Arrived(s, t, reqs, todo)
    ensures KeysFree(s.db, reqs, todo) && CreatesOnly(before) ==> t.db == s.db && CreatesOnly(steps)
    decreases |todo|
  {
    if c :| c in todo {
      var u;
      steps, u := ArrivesAnyhow(pool, db0, before, s, c, reqs[c]);
      assert AllReady(u.db, reqs, todo - {c});
      assert KeysFree(s.db, reqs, todo) ==> KeyFree(s.db, reqs[c].key) && KeysFree(s.db, reqs, todo - {c});
      steps, t := ArriveAll(pool, db0, steps, u, reqs, todo - {c});
      OneMoreArrived(s, u, t, reqs, todo, c);
    } else {
      steps, t := before, s;
    }
  }

  // ---------------------------------------------------------------------------------------------
  // Exactly which requests can jam the pool

  // Requests that can lose a key, once it is another order's.
  function Keyed(db0: Db, reqs: map<CallId, Request>): set<CallId> {
    set c | c in reqs && Ready(db0, reqs[c]) && HasKey(reqs[c].key)
  }

  ghost predicate ReachesJam(db0: Db, pool: nat, reqs: map<CallId, Request>, steps: seq<Step>, t: State) {
    PoolRuns(pool, Start(db0), steps, t) && UsesRequests(t, reqs) && Jammed(pool, t)
  }

  ghost predicate CanJam(db0: Db, pool: nat, reqs: map<CallId, Request>) {
    exists steps, t :: ReachesJam(db0, pool, reqs, steps, t)
  }

  // This request can create an order and leave enough others to fill the pool.
  ghost predicate MakesRoom(db0: Db, pool: nat, reqs: map<CallId, Request>, c: CallId) {
    && c in reqs && Ready(db0, reqs[c]) && Acceptable(db0.stock, reqs[c].lines)
    && |Keyed(db0, reqs) - {c}| >= pool
  }

  lemma WaitingAreBegun(db: Db, t: State, reqs: map<CallId, Request>, todo: set<CallId>)
    requires AllWaiting(t, reqs, todo) && todo <= Keyed(db, reqs)
    ensures AllBegun(t, todo)
  {
    assert forall c :: c in todo ==> Begun(t, reqs, c);
  }

  lemma ArrivedUse(s: State, t: State, reqs: map<CallId, Request>, todo: set<CallId>)
    requires Arrived(s, t, reqs, todo) && UsesRequests(s, reqs)
    ensures UsesRequests(t, reqs)
  {
    assert forall c :: c in todo ==> Begun(t, reqs, c);
  }

  lemma JamsNow(pool: nat, db0: Db, before: seq<Step>, s: State, reqs: map<CallId, Request>, todo: set<CallId>,
      o: OrderId) returns (steps: seq<Step>, t: State)
    requires Built(pool, db0, before, s) && NoTransactions(s) && Holders(s) == {} && UsesRequests(s, reqs)
    requires AllBegun(s, todo) && |todo| == pool && o in s.db.orders
    ensures ReachesJam(db0, pool, reqs, steps, t)
    ensures KeysTaken(s, todo) && CreatesOnly(before) ==> CreatesOnly(steps)
  {
    steps, t := LoseAll(pool, db0, before, s, todo, o);
    Subset(todo, Rereaders(t));
  }

  // From a quiet state with an order in it, calls enough jam the pool.
  lemma JamsFrom(pool: nat, db0: Db, before: seq<Step>, s: State, reqs: map<CallId, Request>, todo: set<CallId>)
    returns (steps: seq<Step>, t: State)
    requires Built(pool, db0, before, s) && NoTransactions(s) && Holders(s) == {} && UsesRequests(s, reqs)
    requires pool > 0 && |todo| == pool && todo <= Keyed(s.db, reqs) && todo !! s.calls.Keys && s.db.orders != map[]
    ensures ReachesJam(db0, pool, reqs, steps, t)
  {
    var u;
    steps, u := ArriveAll(pool, db0, before, s, reqs, todo);
    var o :| o in s.db.orders;
    WaitingAreBegun(s.db, u, reqs, todo);
    ArrivedUse(s, u, reqs, todo);
    steps, t := JamsNow(pool, db0, steps, u, reqs, todo, o);
  }

  lemma JamNeeds(db0: Db, pool: nat, reqs: map<CallId, Request>, steps: seq<Step>, t: State)
    requires Valid(db0) && pool > 0 && ReachesJam(db0, pool, reqs, steps, t)
    ensures |Keyed(db0, reqs)| >= pool
    ensures db0.orders != map[] || exists c :: MakesRoom(db0, pool, reqs, c)
  {
    PoolRunsAreRuns(pool, Start(db0), steps, t);
    RunKeepsChecked(db0, Start(db0), steps, t);
    ReachableAnswers(db0, steps, t);
    forall c | c in Rereaders(t) ensures c in Keyed(db0, reqs) { assert CallOk(t.db, t.calls[c]); }
    Subset(Rereaders(t), Keyed(db0, reqs));
    if db0.orders == map[] {
      assert Rereaders(t) != {};
      var d :| d in Rereaders(t);
      assert LostKey(t.calls[d].pc);
      var i :| 0 <= i < |t.history| && t.history[i].Committed?;
      CommitterMakesRoom(db0, pool, reqs, t, i);
    }
  }

  lemma CommitterMakesRoom(db0: Db, pool: nat, reqs: map<CallId, Request>, t: State, i: nat)
    requires i < |t.history| && t.history[i].Committed? && EventHasCall(t, t.history[i])
    requires Checked(db0, t) && UsesRequests(t, reqs)
    requires Rereaders(t) <= Keyed(db0, reqs) && |Rereaders(t)| >= pool
    ensures MakesRoom(db0, pool, reqs, t.history[i].call)
  {
    var c := t.history[i].call;
    assert WasAcceptable(db0, t.history[i]);
    assert c !in Rereaders(t);
    Subset(Rereaders(t), Keyed(db0, reqs) - {c});
  }

  lemma RoomJams(db0: Db, pool: nat, reqs: map<CallId, Request>, c: CallId)
    requires Valid(db0) && pool > 0 && MakesRoom(db0, pool, reqs, c)
    ensures CanJam(db0, pool, reqs)
  {
    var todo := Pick(Keyed(db0, reqs) - {c}, pool);
    var s, id;
    var steps;
    steps, s := FreeKey(pool, db0, [], Start(db0), reqs[c].key);
    CartIsExact(db0.stock, reqs[c].lines);
    steps, s, id := Creates(pool, db0, steps, s, c, reqs[c]);
    assert id in s.db.orders;
    var t;
    steps, t := JamsFrom(pool, db0, steps, s, reqs, todo);
  }

  /** Some run, with orders updated at will between the steps, jams the pool if and only if enough requests carry a
      non-empty key and pass the checks before the transaction, and there is an order to lose a key to: one of before,
      or one that a further request can create. */
  lemma JamExactly(db0: Db, pool: nat, reqs: map<CallId, Request>)
    requires Valid(db0) && pool > 0
    ensures CanJam(db0, pool, reqs) <==>
            || (db0.orders != map[] && |Keyed(db0, reqs)| >= pool)
            || exists c :: MakesRoom(db0, pool, reqs, c)
  {
    if CanJam(db0, pool, reqs) {
      var steps, t :| ReachesJam(db0, pool, reqs, steps, t);
      JamNeeds(db0, pool, reqs, steps, t);
    }
    if db0.orders != map[] && |Keyed(db0, reqs)| >= pool {
      var todo := Pick(Keyed(db0, reqs), pool);
      var steps, t := JamsFrom(pool, db0, [], Start(db0), reqs, todo);
    }
    if c :| MakesRoom(db0, pool, reqs, c) { RoomJams(db0, pool, reqs, c); }
  }
}
