/**
 Any number of OrdersService.create calls running interleaved (src/orders/order.service.ts, lines
 46-153), one step per awaited database operation, with deletes and key rewrites in between.

 The database is READ COMMITTED: a transaction sees committed rows and its own writes. A row read with
 pessimistic_write stays locked until commit or rollback; a unique key inserted by an open transaction
 makes other inserters of that key wait.
 */
module CreateRuns {
  import opened Wrappers
  import opened Cart
  import opened OrderStore

  type CallId = nat

  // held: the idempotency key this transaction has inserted into the unique index.
  // writes: product rows it has saved; locks: product rows it has locked.
  datatype Tx = Tx(order: OrderId, held: Option<string>, items: seq<Line>, writes: Stock, locks: set<ProductId>)

  datatype Phase =
    | AtLock             // about to read-and-lock the next line's product, or to commit after the last
    | HasRow(read: int)  // product row in hand, showing this stock
    | StockSaved         // new stock saved, item row still to be saved
    | Aborting(error: Error)

  datatype Pc =
    | LookUpKey
    | Validate
    | Begin                       // about to take a connection and start its transaction
    | Opened                      // transaction started, order row not yet inserted
    | InTx(tx: Tx, phase: Phase)
    | LookAgain                   // rolled back after a unique violation
    | Announce(order: OrderId)    // committed, message not yet published
    | Done(outcome: Outcome)

  datatype Call = Call(req: Request, pc: Pc)

  // What happened to the committed tables, in commit order.
  datatype Event =
    | Committed(call: CallId, order: OrderId, req: Request)
    | Deleted(order: OrderId, row: OrderRow)
    | Rekeyed(order: OrderId, oldKey: Option<string>, newKey: Option<string>)
    | Restored(order: OrderId, row: OrderRow)

  // used: every order id ever generated. published: announcements made, by whom.
  datatype State = State(
    db: Db,
    calls: map<CallId, Call>,
    history: seq<Event>,
    used: set<OrderId>,
    published: seq<(CallId, OrderId)>)

  datatype Step =
    | Arrive(c: CallId, req: Request)
    | Lookup(c: CallId)
    | Check(c: CallId)
    | Connect(c: CallId)
    | InsertRow(c: CallId, id: OrderId)
    | LockProduct(c: CallId)
    | SaveStock(c: CallId)
    | SaveItem(c: CallId)
    | Commit(c: CallId)
    | CommitUnseen(c: CallId)  // the commit takes effect, the connection drops before the call learns of it
    | DbFails(c: CallId)   // any query may fail; a deadlock victim is one case
    | Rollback(c: CallId)
    | Reread(c: CallId)
    | Publish(c: CallId)
    | PublishFails(c: CallId)  // sendToQueue throws on a closed channel, outside the try block
    | Crash(c: CallId)
    | Delete(o: OrderId)
    | Rekey(o: OrderId, key: Option<string>)                    // a save of the order writes its key column
    | Restore(o: OrderId, user: UserId, key: Option<string>)    // updateOrder saves an order deleted since it was read

  function Start(db0: Db): State {
    State(db0, map[], [], db0.orders.Keys, [])
  }

  // ---------------------------------------------------------------------------------------------
  // Steps

  predicate At(s: State, c: CallId) {
    c in s.calls
  }

  predicate InTransaction(s: State, c: CallId) {
    c in s.calls && s.calls[c].pc.InTx?
  }

  ghost predicate KeyHeldByOther(s: State, c: CallId, key: Option<string>) {
    key.Some? && exists d :: d != c && InTransaction(s, d) && s.calls[d].pc.tx.held == key
  }

  ghost predicate KeyHeld(s: State, key: Option<string>) {
    key.Some? && exists d :: InTransaction(s, d) && s.calls[d].pc.tx.held == key
  }

  predicate IsDeletion(e: Event, o: OrderId, user: UserId) {
    e.Deleted? && e.order == o && e.row.user == user
  }

  ghost predicate WasDeleted(history: seq<Event>, o: OrderId, user: UserId) {
    exists i :: 0 <= i < |history| && IsDeletion(history[i], o, user)
  }

  ghost predicate LockedByOther(s: State, c: CallId, p: ProductId) {
    exists d :: d != c && InTransaction(s, d) && p in s.calls[d].pc.tx.locks
  }

  predicate AtPhase(s: State, c: CallId, aborting: bool) {
    InTransaction(s, c) && s.calls[c].pc.phase.Aborting? == aborting
  }

  predicate MayCommit(s: State, c: CallId) {
    AtPhase(s, c, false) && s.calls[c].pc.phase.AtLock? && !MoreLines(s.calls[c])
  }

  predicate MoreLines(call: Call) {
    call.pc.InTx? && |call.pc.tx.items| < |call.req.lines|
  }

  function NextLine(call: Call): Line
    requires MoreLines(call)
  {
    call.req.lines[|call.pc.tx.items|]
  }

  ghost predicate Enabled(s: State, step: Step) {
    match step
    case Arrive(c, req) => c !in s.calls
    case Lookup(c) => At(s, c) && s.calls[c].pc.LookUpKey?
    case Check(c) => At(s, c) && s.calls[c].pc.Validate?
    case Connect(c) => At(s, c) && s.calls[c].pc.Begin?
    case InsertRow(c, id) =>
      At(s, c) && s.calls[c].pc.Opened? && id !in s.used && !KeyHeldByOther(s, c, s.calls[c].req.key)
    case LockProduct(c) =>
      AtPhase(s, c, false) && s.calls[c].pc.phase.AtLock? && MoreLines(s.calls[c])
      && !LockedByOther(s, c, NextLine(s.calls[c]).product)
    case SaveStock(c) => AtPhase(s, c, false) && s.calls[c].pc.phase.HasRow? && MoreLines(s.calls[c])
    case SaveItem(c) => AtPhase(s, c, false) && s.calls[c].pc.phase.StockSaved? && MoreLines(s.calls[c])
    case Commit(c) => MayCommit(s, c)
    case CommitUnseen(c) => MayCommit(s, c)
    case DbFails(c) =>
      At(s, c) && !s.calls[c].pc.Announce? && !s.calls[c].pc.Done?
      && (s.calls[c].pc.InTx? ==> !s.calls[c].pc.phase.Aborting?)
    case Rollback(c) => AtPhase(s, c, true)
    case Reread(c) => At(s, c) && s.calls[c].pc.LookAgain?
    case Publish(c) => At(s, c) && s.calls[c].pc.Announce?
    case PublishFails(c) => At(s, c) && s.calls[c].pc.Announce?
    case Crash(c) => At(s, c) && !s.calls[c].pc.Done?
    case Delete(o) => o in s.db.orders
    case Rekey(o, key) =>
      CanRekey(s.db, o, key) && !KeyHeld(s, key)
    case Restore(o, user, key) =>
      o !in s.db.orders && WasDeleted(s.history, o, user) && KeyFree(s.db, key) && !KeyHeld(s, key)
  }

  function Goto(s: State, c: CallId, pc: Pc): State
    requires At(s, c)
  {
    s.(calls := s.calls[c := s.calls[c].(pc := pc)])
  }

  function AfterLookup(s: State, req: Request, missed: Pc): Pc {
    if HasKey(req.key) && !KeyFree(s.db, req.key) then Done(Returned(s.db.byKey[req.key.value], true)) else missed
  }

  function AfterRead(s: State, call: Call): Pc
    requires MoreLines(call)
  {
    var tx, p := call.pc.tx, NextLine(call).product;
    if p !in s.db.stock then InTx(tx, Aborting(ProductNotFound))
    else InTx(tx.(locks := tx.locks + {p}), HasRow(if p in tx.writes then tx.writes[p] else s.db.stock[p]))
  }

  function AfterStock(call: Call): Pc
    requires MoreLines(call) && call.pc.phase.HasRow?
  {
    var tx, line, read := call.pc.tx, NextLine(call), call.pc.phase.read;
    if line.quantity <= 0 then InTx(tx, Aborting(BadQuantity))
    else if read < line.quantity then InTx(tx, Aborting(InsufficientStock))
    else InTx(tx.(writes := tx.writes[line.product := read - line.quantity]), StockSaved)
  }

  // The commit of call c, which then goes on to pc.
  function Settle(s: State, c: CallId, pc: Pc): State
    requires MayCommit(s, c)
  {
    var req, tx := s.calls[c].req, s.calls[c].pc.tx;
    var row := OrderRow(req.user, req.key, tx.items);
    Goto(s, c, pc).(
      db := s.db.(stock := s.db.stock + tx.writes,
                  orders := s.db.orders[tx.order := row],
                  byKey := IndexAdd(s.db.byKey, tx.held, tx.order)),
      history := s.history + [Committed(c, tx.order, req)])
  }

  function Next(s: State, step: Step): State
    requires Enabled(s, step)
  {
    match step
    case Arrive(c, req) => s.(calls := s.calls[c := Call(req, LookUpKey)])
    case Lookup(c) => Goto(s, c, AfterLookup(s, s.calls[c].req, Validate))
    case Check(c) =>
      var req := s.calls[c].req;
      Goto(s, c, if req.lines == [] then Done(Failed(EmptyItems))
                 else if req.user !in s.db.users then Done(Failed(UserNotFound))
                 else Begin)
    case Connect(c) => Goto(s, c, Opened)
    case InsertRow(c, id) =>
      var req := s.calls[c].req;
      Goto(s, c, if KeyFree(s.db, req.key) then InTx(Tx(id, req.key, [], map[], {}), AtLock)
                 else InTx(Tx(id, None, [], map[], {}), Aborting(KeyTaken)))
        .(used := s.used + {id})
    case LockProduct(c) => Goto(s, c, AfterRead(s, s.calls[c]))
    case SaveStock(c) => Goto(s, c, AfterStock(s.calls[c]))
    case SaveItem(c) =>
      var tx := s.calls[c].pc.tx;
      Goto(s, c, InTx(tx.(items := tx.items + [NextLine(s.calls[c])]), AtLock))
    case Commit(c) => Settle(s, c, Announce(s.calls[c].pc.tx.order))
    case CommitUnseen(c) => Settle(s, c, Done(Failed(DatabaseError)))
    case DbFails(c) =>
      Goto(s, c, if s.calls[c].pc.InTx? then InTx(s.calls[c].pc.tx, Aborting(DatabaseError))
                 else Done(Failed(DatabaseError)))
    case Rollback(c) =>
      var error := s.calls[c].pc.phase.error;
      Goto(s, c, if error == KeyTaken && HasKey(s.calls[c].req.key) then LookAgain else Done(Failed(error)))
    case Reread(c) => Goto(s, c, AfterLookup(s, s.calls[c].req, Done(Failed(KeyTaken))))
    case Publish(c) =>
      var o := s.calls[c].pc.order;
      Goto(s, c, Done(Returned(o, false))).(published := s.published + [(c, o)])
    case PublishFails(c) => Goto(s, c, Done(Failed(BrokerError)))
    case Crash(c) => Goto(s, c, Done(Failed(Crashed)))
    case Delete(o) => s.(db := RemoveOrder(s.db, o), history := s.history + [Deleted(o, s.db.orders[o])])
    case Rekey(o, key) =>
      s.(db := RekeyOrder(s.db, o, key), history := s.history + [Rekeyed(o, s.db.orders[o].key, key)])
    case Restore(o, user, key) =>
      var row := OrderRow(user, key, []);
      s.(db := RestoreOrder(s.db, o, row), history := s.history + [Restored(o, row)])
  }

  ghost predicate Runs(s: State, steps: seq<Step>, t: State)
    decreases |steps|
  {
    if steps == [] then s == t
    else Enabled(s, steps[0]) && Runs(Next(s, steps[0]), steps[1..], t)
  }

  lemma RunsCons(s: State, step: Step, steps: seq<Step>, t: State)
    requires Enabled(s, step) && Runs(Next(s, step), steps, t)
    ensures Runs(s, [step] + steps, t)
  {
    assert ([step] + steps)[1..] == steps;
  }

  lemma {:induction false} RunsSnoc(s: State, steps: seq<Step>, t: State, step: Step)
    requires Runs(s, steps, t) && Enabled(t, step)
    ensures Runs(s, steps + [step], Next(t, step))
    decreases |steps|
  {
    if steps == [] {
      assert Runs(Next(t, step), [], Next(t, step));
    } else {
      RunsSnoc(Next(s, steps[0]), steps[1..], t, step);
      assert (steps + [step])[1..] == steps[1..] + [step];
    }
  }

  // ---------------------------------------------------------------------------------------------
  // The reference: committed calls run one after another, each alone

  function ReplayEvent(db: Db, e: Event): Option<Db> {
    match e
    case Committed(_, o, req) =>
      if o in db.orders then None
      else
        var (db', r) := SerialCreate(db, req, o);
        if r == Returned(o, false) then Some(db') else None
    case Deleted(o, row) => if o in db.orders && db.orders[o] == row then Some(RemoveOrder(db, o)) else None
    case Rekeyed(o, oldKey, newKey) =>
      if CanRekey(db, o, newKey) && db.orders[o].key == oldKey then Some(RekeyOrder(db, o, newKey)) else None
    case Restored(o, row) =>
      if o !in db.orders && KeyFree(db, row.key) && row.items == [] then Some(RestoreOrder(db, o, row)) else None
  }

  function Replay(db0: Db, history: seq<Event>): Option<Db> {
    if history == [] then Some(db0)
    else
      var before := Replay(db0, history[..|history| - 1]);
      if before.None? then None else ReplayEvent(before.value, history[|history| - 1])
  }

  // ---------------------------------------------------------------------------------------------
  // Invariants

  // The cart lines whose stock this transaction has already taken.
  function Taken(req: Request, tx: Tx, phase: Phase): seq<Line> {
    var n := |tx.items| + if phase.StockSaved? then 1 else 0;
    if n <= |req.lines| then req.lines[..n] else req.lines
  }

  /** An open transaction that is not about to roll back: run alone from today's committed stock, the
      lines done so far would succeed and produce exactly its writes. */
  ghost predicate TxOk(db: Db, req: Request, tx: Tx, phase: Phase) {
    && tx.items <= req.lines
    && (phase.HasRow? || phase.StockSaved? ==> |tx.items| < |req.lines|)
    && (!phase.Aborting? ==>
          && tx.held == req.key && KeyFree(db, req.key)
          && req.lines != [] && req.user in db.users
          && tx.writes.Keys <= tx.locks <= db.stock.Keys
          && Products(Taken(req, tx, phase)) <= tx.locks
          && TakeAll(db.stock, Taken(req, tx, phase)) == Fits(db.stock + tx.writes)
          && (phase.HasRow? ==>
                var p := req.lines[|tx.items|].product;
                p in tx.locks && phase.read == (db.stock + tx.writes)[p]))
  }

  ghost predicate CallOk(db: Db, call: Call) {
    match call.pc
    case InTx(tx, phase) => TxOk(db, call.req, tx, phase)
    case Begin => call.req.lines != [] && call.req.user in db.users
    case Opened => call.req.lines != [] && call.req.user in db.users
    case LookAgain => HasKey(call.req.key)
    case Done(Returned(_, true)) => HasKey(call.req.key)
    case _ => true
  }

  ghost predicate CallsOk(s: State) {
    forall c :: c in s.calls ==> CallOk(s.db, s.calls[c])
  }

  // Two open transactions never share an order id, a locked product or an inserted key.
  ghost predicate Apart(a: Tx, b: Tx) {
    a.order != b.order && a.locks !! b.locks && (a.held.Some? ==> a.held != b.held)
  }

  ghost predicate TxsApart(s: State) {
    forall c, d :: InTransaction(s, c) && InTransaction(s, d) && c != d ==>
      Apart(s.calls[c].pc.tx, s.calls[d].pc.tx)
  }

  ghost predicate IdsFresh(s: State) {
    && s.db.orders.Keys <= s.used
    && (forall c :: InTransaction(s, c) ==> s.calls[c].pc.tx.order in s.used && s.calls[c].pc.tx.order !in s.db.orders)
    && (forall i :: 0 <= i < |s.history| && s.history[i].Deleted? ==> OutOfUse(s, s.history[i].order))
  }

  // An id that was used and that no open transaction is about to use.
  ghost predicate OutOfUse(s: State, o: OrderId) {
    o in s.used && forall c :: InTransaction(s, c) ==> s.calls[c].pc.tx.order != o
  }

  ghost predicate TablesOk(db0: Db, s: State) {
    && Valid(s.db)
    && Replay(db0, s.history) == Some(s.db)
  }

  ghost predicate Inv(db0: Db, s: State) {
    TablesOk(db0, s) && CallsOk(s) && TxsApart(s) && IdsFresh(s)
  }

  // ---------------------------------------------------------------------------------------------
  // Every step keeps the invariant

  predicate ChangesTables(step: Step) {
    Commits(step) || step.Delete? || step.Rekey? || step.Restore?
  }

  predicate Commits(step: Step) {
    step.Commit? || step.CommitUnseen?
  }

  // The call a step moves; deletes and key rewrites move none.
  function Mover(step: Step): Option<CallId> {
    if step.Delete? || step.Rekey? || step.Restore? then None else Some(step.c)
  }

  lemma StepKeepsCalls(s: State, step: Step)
    requires Enabled(s, step)
    ensures var s' := Next(s, step);
            && s'.calls.Keys == s.calls.Keys + (if step.Arrive? then {step.c} else {})
            && (forall d :: d in s.calls ==> s'.calls[d].req == s.calls[d].req)
            && (forall d :: d in s.calls && Mover(step) != Some(d) ==> s'.calls[d] == s.calls[d])
  {
  }

  lemma StepMovesOneCall(s: State, step: Step)
    requires Enabled(s, step)
    ensures var s' := Next(s, step);
            && s'.calls.Keys == s.calls.Keys + (if step.Arrive? then {step.c} else {})
            && (forall d :: d in s.calls ==> s'.calls[d].req == s.calls[d].req)
            && (forall d :: d in s.calls && Mover(step) != Some(d) ==> s'.calls[d] == s.calls[d])
            && s.used <= s'.used && s.history <= s'.history
            && (!ChangesTables(step) ==> s'.db == s.db && s'.history == s.history)
  {
    StepKeepsCalls(s, step);
  }

  // What a step can make of its own transaction.
  lemma MovedTx(s: State, step: Step, c: CallId)
    requires Enabled(s, step) && !ChangesTables(step) && Mover(step) == Some(c) && InTransaction(Next(s, step), c)
    ensures var s' := Next(s, step);
            var tx := s'.calls[c].pc.tx;
            if step.InsertRow? then
              tx.order !in s.used && tx.order in s'.used && tx.locks == {} && !KeyHeldByOther(s, c, tx.held)
            else
              && InTransaction(s, c) && tx.order == s.calls[c].pc.tx.order && tx.held == s.calls[c].pc.tx.held
              && (forall p :: p in tx.locks ==> p in s.calls[c].pc.tx.locks || !LockedByOther(s, c, p))
  {
  }

  lemma LockKeepsTx(db: Db, call: Call)
    requires call.pc.InTx? && call.pc.phase.AtLock? && MoreLines(call)
    requires TxOk(db, call.req, call.pc.tx, call.pc.phase)
    ensures var pc := AfterRead(State(db, map[], [], {}, []), call);
            pc.InTx? && TxOk(db, call.req, pc.tx, pc.phase)
  {
  }

  // The stock to save is what the reference's next line leaves.
  lemma SavedStockIsTaken(stock: Stock, taken: seq<Line>, line: Line, left: Stock)
    requires TakeAll(stock, taken) == Fits(left)
    requires line.product in left && 0 < line.quantity <= left[line.product]
    ensures TakeAll(stock, taken + [line]) == Fits(left[line.product := left[line.product] - line.quantity])
  {
    assert (taken + [line])[..|taken|] == taken;
  }

  lemma WriteOnTop(stock: Stock, writes: Stock, p: ProductId, v: int)
    ensures (stock + writes)[p := v] == stock + writes[p := v]
  {
  }

  lemma ProductsGrow(lines: seq<Line>, line: Line)
    ensures Products(lines + [line]) == Products(lines) + {line.product}
  {
    assert forall l :: l in lines + [line] <==> l in lines || l == line;
  }

  lemma AcceptedLineKeepsStock(stock: Stock, items: seq<Line>, line: Line, writes: Stock, read: int)
    requires TakeAll(stock, items) == Fits(stock + writes)
    requires line.product in stock + writes && read == (stock + writes)[line.product] && 0 < line.quantity <= read
    ensures TakeAll(stock, items + [line]) == Fits(stock + writes[line.product := read - line.quantity])
  {
    SavedStockIsTaken(stock, items, line, stock + writes);
    WriteOnTop(stock, writes, line.product, read - line.quantity);
  }

  lemma SaveStockKeepsTx(db: Db, call: Call)
    requires call.pc.InTx? && call.pc.phase.HasRow? && MoreLines(call)
    requires TxOk(db, call.req, call.pc.tx, call.pc.phase)
    ensures var pc := AfterStock(call);
            pc.InTx? && TxOk(db, call.req, pc.tx, pc.phase)
  {
    var tx, line, read := call.pc.tx, NextLine(call), call.pc.phase.read;
    if 0 < line.quantity <= read {
      var saved := tx.(writes := tx.writes[line.product := read - line.quantity]);
      assert Taken(call.req, saved, StockSaved) == tx.items + [line];
      assert TakeAll(db.stock, tx.items + [line]) == Fits(db.stock + saved.writes) by {
        assert Taken(call.req, tx, call.pc.phase) == tx.items;
        AcceptedLineKeepsStock(db.stock, tx.items, line, tx.writes, read);
      }
      assert Products(tx.items + [line]) <= tx.locks by {
        assert Taken(call.req, tx, call.pc.phase) == tx.items;
        ProductsGrow(tx.items, line);
      }
    }
  }

  lemma SaveItemKeepsTx(db: Db, call: Call)
    requires call.pc.InTx? && call.pc.phase.StockSaved? && MoreLines(call)
    requires TxOk(db, call.req, call.pc.tx, call.pc.phase)
    ensures TxOk(db, call.req, call.pc.tx.(items := call.pc.tx.items + [NextLine(call)]), AtLock)
  {
    var n := |call.pc.tx.items|;
    assert call.pc.tx.items + [NextLine(call)] == call.req.lines[..n + 1];
  }

  lemma LocalStepKeepsCalls(s: State, step: Step)
    requires Enabled(s, step) && CallsOk(s) && !ChangesTables(step)
    ensures CallsOk(Next(s, step))
  {
    var s' := Next(s, step);
    assert s'.db == s.db;
    forall d | d in s'.calls ensures CallOk(s'.db, s'.calls[d]) {
      if d in s.calls && s'.calls[d] == s.calls[d] {
        assert CallOk(s.db, s.calls[d]);
      } else {
        match step
        case Arrive(c, req) =>
        case LockProduct(c) => LockKeepsTx(s.db, s.calls[c]);
        case SaveStock(c) => SaveStockKeepsTx(s.db, s.calls[c]);
        case SaveItem(c) => SaveItemKeepsTx(s.db, s.calls[c]);
        case InsertRow(c, id) => InsertKeepsTx(s, c, id);
        case _ =>
      }
    }
  }

  lemma InsertKeepsTx(s: State, c: CallId, id: OrderId)
    requires Enabled(s, InsertRow(c, id)) && CallOk(s.db, s.calls[c])
    ensures CallOk(s.db, Next(s, InsertRow(c, id)).calls[c])
  {
    assert s.db.stock + map[] == s.db.stock;
  }

  lemma MovedTxStaysApart(s: State, step: Step, c: CallId, d: CallId)
    requires Enabled(s, step) && !ChangesTables(step) && TxsApart(s) && IdsFresh(s)
    requires Mover(step) == Some(c) && InTransaction(Next(s, step), c) && InTransaction(s, d) && d != c
    ensures Apart(Next(s, step).calls[c].pc.tx, s.calls[d].pc.tx)
    ensures Apart(s.calls[d].pc.tx, Next(s, step).calls[c].pc.tx)
  {
    MovedTx(s, step, c);
    if !step.InsertRow? { assert Apart(s.calls[c].pc.tx, s.calls[d].pc.tx); }
  }

  lemma LocalStepKeepsFresh(s: State, step: Step)
    requires Enabled(s, step) && IdsFresh(s) && !ChangesTables(step)
    ensures IdsFresh(Next(s, step))
  {
    var s' := Next(s, step);
    StepMovesOneCall(s, step);
    forall c | InTransaction(s', c)
      ensures s'.calls[c].pc.tx.order in s'.used && s'.calls[c].pc.tx.order !in s'.db.orders
      ensures (InTransaction(s, c) && s'.calls[c].pc.tx.order == s.calls[c].pc.tx.order)
              || s'.calls[c].pc.tx.order !in s.used
    {
      if Mover(step) == Some(c) { MovedTx(s, step, c); }
    }
  }

  lemma LocalStepKeepsApart(s: State, step: Step)
    requires Enabled(s, step) && TxsApart(s) && IdsFresh(s) && !ChangesTables(step)
    ensures TxsApart(Next(s, step))
  {
    var s' := Next(s, step);
    StepMovesOneCall(s, step);
    forall c, d | InTransaction(s', c) && InTransaction(s', d) && c != d
      ensures Apart(s'.calls[c].pc.tx, s'.calls[d].pc.tx)
    {
      if Mover(step) == Some(c) {
        MovedTxStaysApart(s, step, c, d);
      } else if Mover(step) == Some(d) {
        MovedTxStaysApart(s, step, d, c);
      }
    }
  }

  /** Committing is one atomic create: the reference, run alone on the tables as they are at this
      moment, takes the same decision and yields the same tables. */
  lemma CommitIsSerial(s: State, c: CallId)
    requires MayCommit(s, c) && CallsOk(s) && IdsFresh(s)
    ensures var o := s.calls[c].pc.tx.order;
            && o !in s.db.orders
            && SerialCreate(s.db, s.calls[c].req, o) == (Next(s, Commit(c)).db, Returned(o, false))
            && Next(s, CommitUnseen(c)).db == Next(s, Commit(c)).db
  {
    var call := s.calls[c];
    assert CallOk(s.db, call);
    assert Taken(call.req, call.pc.tx, call.pc.phase) == call.req.lines == call.pc.tx.items;
  }

  lemma ReplaySnoc(db0: Db, history: seq<Event>, e: Event)
    ensures Replay(db0, history + [e]) ==
            if Replay(db0, history).None? then None else ReplayEvent(Replay(db0, history).value, e)
  {
    assert (history + [e])[..|history|] == history;
  }

  lemma CommitKeepsTables(db0: Db, s: State, c: CallId)
    requires MayCommit(s, c) && Inv(db0, s)
    ensures TablesOk(db0, Next(s, Commit(c))) && TablesOk(db0, Next(s, CommitUnseen(c)))
  {
    CommitIsSerial(s, c);
    CreateKeepsValid(s.db, s.calls[c].req, s.calls[c].pc.tx.order);
    ReplaySnoc(db0, s.history, Committed(c, s.calls[c].pc.tx.order, s.calls[c].req));
  }

  lemma TableStepKeepsTables(db0: Db, s: State, step: Step)
    requires Enabled(s, step) && Inv(db0, s) && ChangesTables(step)
    ensures TablesOk(db0, Next(s, step))
  {
    var s' := Next(s, step);
    match step
    case Commit(c) => CommitKeepsTables(db0, s, c);
    case CommitUnseen(c) => CommitKeepsTables(db0, s, c);
    case Delete(o) =>
      RemoveKeepsValid(s.db, o);
      ReplaySnoc(db0, s.history, Deleted(o, s.db.orders[o]));
    case Rekey(o, key) =>
      RekeyKeepsValid(s.db, o, key);
      ReplaySnoc(db0, s.history, Rekeyed(o, s.db.orders[o].key, key));
    case Restore(o, user, key) =>
      RestoreKeepsValid(s.db, o, OrderRow(user, key, []));
      ReplaySnoc(db0, s.history, Restored(o, OrderRow(user, key, [])));
    case _ =>
  }

  lemma CommitKeepsOther(s: State, c: CallId, d: CallId)
    requires MayCommit(s, c) && CallsOk(s) && TxsApart(s)
    requires d in s.calls && d != c
    ensures CallOk(Next(s, Commit(c)).db, s.calls[d])
  {
    assert CallOk(s.db, s.calls[c]) && CallOk(s.db, s.calls[d]);
    if s.calls[d].pc.InTx? && !s.calls[d].pc.phase.Aborting? {
      var mine, tx := s.calls[c].pc.tx, s.calls[d].pc.tx;
      assert Apart(mine, tx) && Apart(tx, mine);
      var taken := Taken(s.calls[d].req, tx, s.calls[d].pc.phase);
      TakeAllFrame(s.db.stock, taken, tx.writes, mine.writes);
      var db' := Next(s, Commit(c)).db;
      assert db'.stock == s.db.stock + mine.writes;
      assert KeyFree(db', s.calls[d].req.key);
      assert db'.stock.Keys == s.db.stock.Keys;
    }
  }

  // Deletes and writes to other columns take nothing from an open transaction.
  lemma EditKeepsCall(s: State, step: Step, d: CallId)
    requires Enabled(s, step) && (step.Delete? || step.Rekey? || step.Restore?)
    requires d in s.calls && CallOk(s.db, s.calls[d])
    ensures CallOk(Next(s, step).db, s.calls[d])
  {
    var call, db' := s.calls[d], Next(s, step).db;
    assert db'.stock == s.db.stock && db'.users == s.db.users;
    if call.pc.InTx? && !call.pc.phase.Aborting? {
      assert InTransaction(s, d) && call.pc.tx.held == call.req.key;
      assert KeyFree(db', call.req.key);
    }
  }

  lemma EditKeepsCalls(s: State, step: Step)
    requires Enabled(s, step) && CallsOk(s) && (step.Delete? || step.Rekey? || step.Restore?)
    ensures CallsOk(Next(s, step))
  {
    StepMovesOneCall(s, step);
    forall d | d in Next(s, step).calls ensures CallOk(Next(s, step).db, Next(s, step).calls[d]) {
      EditKeepsCall(s, step, d);
    }
  }

  lemma CommitKeepsCalls(s: State, step: Step)
    requires Enabled(s, step) && CallsOk(s) && TxsApart(s) && Commits(step)
    ensures CallsOk(Next(s, step))
  {
    StepMovesOneCall(s, step);
    assert Next(s, step).db == Next(s, Commit(step.c)).db;
    forall d | d in Next(s, step).calls ensures CallOk(Next(s, step).db, Next(s, step).calls[d]) {
      if d != step.c { CommitKeepsOther(s, step.c, d); }
    }
  }

  lemma TableStepKeepsCalls(s: State, step: Step)
    requires Enabled(s, step) && CallsOk(s) && TxsApart(s) && ChangesTables(step)
    ensures CallsOk(Next(s, step))
  {
    if Commits(step) {
      CommitKeepsCalls(s, step);
    } else {
      EditKeepsCalls(s, step);
    }
  }

  lemma CommitKeepsApart(s: State, step: Step)
    requires Enabled(s, step) && TxsApart(s) && IdsFresh(s) && Commits(step)
    ensures TxsApart(Next(s, step)) && IdsFresh(Next(s, step))
  {
    StepMovesOneCall(s, step);
    forall d | InTransaction(Next(s, step), d)
      ensures d != step.c && InTransaction(s, d) && s.calls[d].pc.tx.order !in Next(s, step).db.orders
    {
      assert d in s.calls;
      assert Apart(s.calls[d].pc.tx, s.calls[step.c].pc.tx);
    }
  }

  lemma EditKeepsApart(s: State, step: Step)
    requires Enabled(s, step) && TxsApart(s) && IdsFresh(s) && (step.Delete? || step.Rekey? || step.Restore?)
    ensures TxsApart(Next(s, step)) && IdsFresh(Next(s, step))
  {
    assert Next(s, step).calls == s.calls && Next(s, step).used == s.used;
    if step.Restore? {
      var i :| 0 <= i < |s.history| && IsDeletion(s.history[i], step.o, step.user);
      assert OutOfUse(s, step.o);
    }
    forall i | 0 <= i < |Next(s, step).history| && Next(s, step).history[i].Deleted?
      ensures OutOfUse(Next(s, step), Next(s, step).history[i].order)
    {
      if i < |s.history| { assert OutOfUse(s, s.history[i].order); }
    }
  }

  lemma TableStepKeepsApart(s: State, step: Step)
    requires Enabled(s, step) && TxsApart(s) && IdsFresh(s) && ChangesTables(step)
    ensures TxsApart(Next(s, step)) && IdsFresh(Next(s, step))
  {
    if Commits(step) {
      CommitKeepsApart(s, step);
    } else {
      EditKeepsApart(s, step);
    }
  }

  lemma StepKeepsInv(db0: Db, s: State, step: Step)
    requires Enabled(s, step) && Inv(db0, s)
    ensures Inv(db0, Next(s, step))
  {
    if ChangesTables(step) {
      TableStepKeepsTables(db0, s, step);
      TableStepKeepsCalls(s, step);
      TableStepKeepsApart(s, step);
    } else {
      LocalStepKeepsCalls(s, step);
      LocalStepKeepsFresh(s, step);
      LocalStepKeepsApart(s, step);
    }
  }

  lemma {:induction false} RunKeepsInv(db0: Db, s: State, steps: seq<Step>, t: State)
    requires Inv(db0, s) && Runs(s, steps, t)
    ensures Inv(db0, t)
    decreases |steps|
  {
    if steps != [] {
      StepKeepsInv(db0, s, steps[0]);
      RunKeepsInv(db0, Next(s, steps[0]), steps[1..], t);
    }
  }

  lemma ReachableInv(db0: Db, steps: seq<Step>, t: State)
    requires Valid(db0) && Runs(Start(db0), steps, t)
    ensures Inv(db0, t)
  {
    RunKeepsInv(db0, Start(db0), steps, t);
  }
}
