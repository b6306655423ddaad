/**
 Building blocks for concrete runs of the create machine: a call arrives, begins its transaction, takes lines of its
 cart, commits. Each piece extends a run within a pool of connections.
 */
module CreateBuilds {
  import opened Cart
  import opened OrderStore
  import opened CreateRuns
  import opened ConnectionPool

  lemma Unused(used: set<OrderId>) returns (id: OrderId)
    ensures id !in used
  {
    id := UpperBound(used);
    id := id + 1;
  }

  lemma {:induction false} UpperBound(used: set<OrderId>) returns (m: OrderId)
    ensures forall x :: x in used ==> x <= m
    decreases |used|
  {
    m := 0;
    if a :| a in used {
      var rest := UpperBound(used - {a});
      m := if a <= rest then rest else a;
      forall x | x in used ensures x <= m {
        if x != a { assert x in used - {a}; }
      }
    }
  }

  // The run so far: from a fresh start to s.
  ghost predicate Built(pool: nat, db0: Db, steps: seq<Step>, s: State) {
    Valid(db0) && PoolRuns(pool, Start(db0), steps, s)
  }

  lemma BuiltInv(pool: nat, db0: Db, steps: seq<Step>, s: State)
    requires Built(pool, db0, steps, s)
    ensures Inv(db0, s) && Runs(Start(db0), steps, s)
  {
    PoolRunsAreRuns(pool, Start(db0), steps, s);
    ReachableInv(db0, steps, s);
  }

  lemma Extend(pool: nat, db0: Db, before: seq<Step>, s: State, step: Step) returns (steps: seq<Step>, t: State)
    requires Built(pool, db0, before, s) && Allowed(pool, s, step)
    ensures Built(pool, db0, steps, t) && t == Next(s, step)
    ensures CreatesOnly(before) && !EditsOrders(step) ==> CreatesOnly(steps)
  {
    PoolSnoc(pool, Start(db0), before, s, step);
    steps, t := before + [step], Next(s, step);
  }

  // Orders are neither deleted nor updated in this run.
  predicate CreatesOnly(steps: seq<Step>) {
    forall i :: 0 <= i < |steps| ==> !EditsOrders(steps[i])
  }

  predicate EditsOrders(step: Step) {
    step.Delete? || step.Rekey? || step.Restore?
  }

  // Call c moves; tables and all other calls stay.
  predicate OnlyMoves(s: State, t: State, c: CallId) {
    t.db == s.db && t.history == s.history && c in t.calls && t.calls == s.calls[c := t.calls[c]]
  }

  lemma HoldersWithout(s: State, c: CallId, call: Call)
    requires c !in Holders(s) && !Holds(call.pc)
    ensures Holders(s.(calls := s.calls[c := call])) == Holders(s)
  {
  }

  // The call has passed its look-up and its checks and is about to take a connection.
  lemma Arrives(pool: nat, db0: Db, before: seq<Step>, s: State, c: CallId, req: Request)
    returns (steps: seq<Step>, t: State)
    requires Built(pool, db0, before, s) && c !in s.calls && |Holders(s)| < pool
    requires req.lines != [] && req.user in s.db.users && (HasKey(req.key) ==> KeyFree(s.db, req.key))
    ensures Built(pool, db0, steps, t) && t == s.(calls := s.calls[c := Call(req, Begin)])
    ensures CreatesOnly(before) ==> CreatesOnly(steps)
  {
    HoldersWithout(s, c, Call(req, LookUpKey));
    HoldersWithout(s, c, Call(req, Validate));
    steps, t := Extend(pool, db0, before, s, Arrive(c, req));
    assert t.calls == s.calls[c := Call(req, LookUpKey)];
    steps, t := Extend(pool, db0, steps, t, Lookup(c));
    assert t.calls == s.calls[c := Call(req, Validate)];
    steps, t := Extend(pool, db0, steps, t, Check(c));
    assert t.calls == s.calls[c := Call(req, Begin)];
  }

  // The call's transaction has taken the first n lines of its cart.
  predicate Parked(call: Call, req: Request, n: nat) {
    && n <= |req.lines| && call.req == req && call.pc.InTx? && call.pc.phase.AtLock?
    && call.pc.tx.items == req.lines[..n] && call.pc.tx.locks == Products(req.lines[..n])
  }

  lemma Opens(pool: nat, db0: Db, before: seq<Step>, s: State, c: CallId) returns (steps: seq<Step>, t: State)
    requires Built(pool, db0, before, s) && c in s.calls && s.calls[c].pc.Begin? && |Holders(s)| < pool
    ensures Built(pool, db0, steps, t) && t == s.(calls := s.calls[c := s.calls[c].(pc := Opened)])
    ensures CreatesOnly(before) ==> CreatesOnly(steps)
  {
    steps, t := Extend(pool, db0, before, s, Connect(c));
  }

  lemma Inserts(pool: nat, db0: Db, before: seq<Step>, s: State, c: CallId) returns (steps: seq<Step>, t: State)
    requires Built(pool, db0, before, s) && c in s.calls && s.calls[c].pc.Opened?
    requires KeyFree(s.db, s.calls[c].req.key) && !KeyHeld(s, s.calls[c].req.key)
    ensures Built(pool, db0, steps, t) && OnlyMoves(s, t, c) && Parked(t.calls[c], s.calls[c].req, 0)
    ensures CreatesOnly(before) ==> CreatesOnly(steps)
  {
    var id := Unused(s.used);
    steps, t := Extend(pool, db0, before, s, InsertRow(c, id));
  }

  lemma NotHeldStill(s: State, t: State, c: CallId, call: Call)
    requires t.calls == s.calls[c := call] && !call.pc.InTx? && !KeyHeld(s, call.req.key)
    ensures !KeyHeld(t, call.req.key)
  {
    assert forall d :: InTransaction(t, d) ==> InTransaction(s, d) && t.calls[d] == s.calls[d];
  }

  lemma Begins(pool: nat, db0: Db, before: seq<Step>, s: State, c: CallId, req: Request)
    returns (steps: seq<Step>, t: State)
    requires Built(pool, db0, before, s) && c !in s.calls && |Holders(s)| < pool
    requires req.lines != [] && req.user in s.db.users && KeyFree(s.db, req.key) && !KeyHeld(s, req.key)
    ensures Built(pool, db0, steps, t) && OnlyMoves(s, t, c) && Parked(t.calls[c], req, 0)
    ensures CreatesOnly(before) ==> CreatesOnly(steps)
  {
    var a, b;
    steps, a := Arrives(pool, db0, before, s, c, req);
    HoldersWithout(s, c, Call(req, Begin));
    steps, b := Opens(pool, db0, steps, a, c);
    assert b.calls == s.calls[c := Call(req, Opened)];
    assert !KeyHeld(b, req.key) by { NotHeldStill(s, b, c, Call(req, Opened)); }
    steps, t := Inserts(pool, db0, steps, b, c);
  }

  predicate Affords(db: Db, call: Call, line: Line) {
    && call.pc.InTx? && line.product in db.stock
    && 0 < line.quantity <= (db.stock + call.pc.tx.writes)[line.product]
  }

  // With its transaction in order and its next line acceptable, a call reads the stock it needs.
  lemma NextLineFits(db: Db, call: Call, req: Request, n: nat)
    requires CallOk(db, call) && Parked(call, req, n) && n < |req.lines|
    requires TakeAll(db.stock, req.lines[..n + 1]).Fits?
    ensures Affords(db, call, req.lines[n])
  {
    TakeAllStep(db.stock, req.lines, n);
    assert Taken(req, call.pc.tx, call.pc.phase) == req.lines[..n];
  }

  // The three steps that take one line.
  lemma LineSteps(s: State, c: CallId, req: Request, n: nat)
    requires c in s.calls && Parked(s.calls[c], req, n) && n < |req.lines|
    requires Affords(s.db, s.calls[c], req.lines[n]) && !LockedByOther(s, c, req.lines[n].product)
    ensures Enabled(s, LockProduct(c))
    ensures Enabled(Next(s, LockProduct(c)), SaveStock(c))
    ensures Enabled(Next(Next(s, LockProduct(c)), SaveStock(c)), SaveItem(c))
    ensures var t := Next(Next(Next(s, LockProduct(c)), SaveStock(c)), SaveItem(c));
            OnlyMoves(s, t, c) && Parked(t.calls[c], req, n + 1)
  {
    var read := (s.db.stock + s.calls[c].pc.tx.writes)[req.lines[n].product];
    var a := Next(s, LockProduct(c));
    assert a.calls[c].pc.phase == HasRow(read);
    assert req.lines[..n + 1] == req.lines[..n] + [req.lines[n]];
    ProductsGrow(req.lines[..n], req.lines[n]);
  }

  lemma TakesLine(pool: nat, db0: Db, before: seq<Step>, s: State, c: CallId, req: Request, n: nat)
    returns (steps: seq<Step>, t: State)
    requires Built(pool, db0, before, s) && c in s.calls && Parked(s.calls[c], req, n) && n < |req.lines|
    requires TakeAll(s.db.stock, req.lines[..n + 1]).Fits? && !LockedByOther(s, c, req.lines[n].product)
    ensures Built(pool, db0, steps, t) && OnlyMoves(s, t, c) && Parked(t.calls[c], req, n + 1)
    ensures CreatesOnly(before) ==> CreatesOnly(steps)
  {
    assert Affords(s.db, s.calls[c], req.lines[n]) by {
      BuiltInv(pool, db0, before, s);
      NextLineFits(s.db, s.calls[c], req, n);
    }
    LineSteps(s, c, req, n);
    steps, t := Extend(pool, db0, before, s, LockProduct(c));
    steps, t := Extend(pool, db0, steps, t, SaveStock(c));
    steps, t := Extend(pool, db0, steps, t, SaveItem(c));
  }

  // Nobody else holds a product of these lines.
  ghost predicate Untouched(s: State, c: CallId, products: set<ProductId>) {
    forall d :: InTransaction(s, d) && d != c ==> s.calls[d].pc.tx.locks !! products
  }

  lemma UntouchedStays(s: State, t: State, c: CallId, products: set<ProductId>, p: ProductId)
    requires Untouched(s, c, products) && OnlyMoves(s, t, c) && p in products
    ensures !LockedByOther(t, c, p)
  {
    forall d | d != c && InTransaction(t, d) ensures p !in t.calls[d].pc.tx.locks {
      assert InTransaction(s, d);
    }
  }

  lemma PrefixFits(stock: Stock, lines: seq<Line>, n: nat)
    requires n <= |lines| && TakeAll(stock, lines).Fits?
    ensures TakeAll(stock, lines[..n]).Fits?
  {
    if TakeAll(stock, lines[..n]).Rejected? { TakeAllStops(stock, lines, n); }
  }

  lemma {:induction false} TakesLines(
      pool: nat, db0: Db, before: seq<Step>, s: State, c: CallId, req: Request, n: nat, products: set<ProductId>)
    returns (steps: seq<Step>, t: State)
    requires Built(pool, db0, before, s) && c in s.calls && Parked(s.calls[c], req, 0) && n <= |req.lines|
    requires TakeAll(s.db.stock, req.lines[..n]).Fits? && Untouched(s, c, products)
    requires forall i :: 0 <= i < n ==> req.lines[i].product in products
    ensures Built(pool, db0, steps, t) && OnlyMoves(s, t, c) && Parked(t.calls[c], req, n)
    ensures CreatesOnly(before) ==> CreatesOnly(steps)
    decreases n
  {
    if n == 0 {
      steps, t := before, s;
    } else {
      assert req.lines[..n][..n - 1] == req.lines[..n - 1];
      PrefixFits(s.db.stock, req.lines[..n], n - 1);
      var u;
      steps, u := TakesLines(pool, db0, before, s, c, req, n - 1, products);
      UntouchedStays(s, u, c, products, req.lines[n - 1].product);
      steps, t := TakesLine(pool, db0, steps, u, c, req, n - 1);
    }
  }

  ghost predicate NoTransactions(s: State) {
    forall d :: !InTransaction(s, d)
  }

  // With no transaction open, a call goes all the way to the point of its commit.
  lemma FillsCart(pool: nat, db0: Db, before: seq<Step>, s: State, c: CallId, req: Request)
    returns (steps: seq<Step>, t: State)
    requires Built(pool, db0, before, s) && c !in s.calls && |Holders(s)| < pool && NoTransactions(s)
    requires req.lines != [] && req.user in s.db.users && KeyFree(s.db, req.key) && TakeAll(s.db.stock, req.lines).Fits?
    ensures Built(pool, db0, steps, t) && OnlyMoves(s, t, c) && t.calls[c].req == req && MayCommit(t, c)
    ensures forall d :: InTransaction(t, d) ==> d == c
    ensures CreatesOnly(before) ==> CreatesOnly(steps)
  {
    var u;
    steps, u := Begins(pool, db0, before, s, c, req);
    assert forall d :: InTransaction(u, d) ==> d == c || InTransaction(s, d);
    assert req.lines[..|req.lines|] == req.lines;
    forall i | 0 <= i < |req.lines| ensures req.lines[i].product in Products(req.lines) {
      assert req.lines[i] in req.lines;
    }
    steps, t := TakesLines(pool, db0, steps, u, c, req, |req.lines|, Products(req.lines));
    assert forall d :: d != c && InTransaction(t, d) ==> InTransaction(s, d);
  }

  // The tables after this commit.
  function Inserted(s: State, c: CallId): Db
    requires MayCommit(s, c)
  {
    var req := s.calls[c].req;
    var cart := TakeAll(s.db.stock, req.lines);
    if cart.Rejected? then s.db else InsertOrder(s.db, req, s.calls[c].pc.tx.order, cart.stock)
  }

  lemma Finishes(pool: nat, db0: Db, before: seq<Step>, s: State, c: CallId) returns (steps: seq<Step>, t: State)
    requires Built(pool, db0, before, s) && MayCommit(s, c)
    ensures var (req, id) := (s.calls[c].req, s.calls[c].pc.tx.order);
            && Built(pool, db0, steps, t) && t.db == Inserted(s, c)
            && t.calls == s.calls[c := Call(req, Done(Returned(id, false)))]
            && t.history == s.history + [Committed(c, id, req)]
    ensures CreatesOnly(before) ==> CreatesOnly(steps)
  {
    var req, id := s.calls[c].req, s.calls[c].pc.tx.order;
    assert Next(s, Commit(c)).db == Inserted(s, c) by {
      BuiltInv(pool, db0, before, s);
      CommitIsSerial(s, c);
    }
    var u;
    steps, u := Extend(pool, db0, before, s, Commit(c));
    assert u.calls == s.calls[c := Call(req, Announce(id))];
    steps, t := Extend(pool, db0, steps, u, Publish(c));
  }

  /** And creates its order, as it would alone. */
  lemma Creates(pool: nat, db0: Db, before: seq<Step>, s: State, c: CallId, req: Request)
    returns (steps: seq<Step>, t: State, id: OrderId)
    requires Built(pool, db0, before, s) && c !in s.calls && |Holders(s)| < pool && NoTransactions(s)
    requires req.lines != [] && req.user in s.db.users && KeyFree(s.db, req.key) && TakeAll(s.db.stock, req.lines).Fits?
    ensures Built(pool, db0, steps, t) && t.calls == s.calls[c := Call(req, Done(Returned(id, false)))]
    ensures t.db == InsertOrder(s.db, req, id, TakeAll(s.db.stock, req.lines).stock) && NoTransactions(t)
    ensures t.history == s.history + [Committed(c, id, req)]
    ensures CreatesOnly(before) ==> CreatesOnly(steps)
  {
    var u;
    steps, u := FillsCart(pool, db0, before, s, c, req);
    BuiltInv(pool, db0, steps, u);
    id := u.calls[c].pc.tx.order;
    steps, t := Finishes(pool, db0, steps, u, c);
    assert t.calls == s.calls[c := Call(req, Done(Returned(id, false)))];
    StillNone(s, t, c, Call(req, Done(Returned(id, false))));
  }

  lemma StillNone(s: State, t: State, c: CallId, call: Call)
    requires NoTransactions(s) && t.calls == s.calls[c := call] && !call.pc.InTx?
    ensures NoTransactions(t)
  {
    assert forall d :: InTransaction(t, d) ==> InTransaction(s, d);
  }
}
