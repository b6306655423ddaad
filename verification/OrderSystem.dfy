/**
 The shop (interleaved create calls) and the message pipeline working together on one database. The two share
 the orders table: committing a create adds the row the worker will process, announcing it publishes its message, and
 deletes and updates concern both. A save writes one row; here its key column is written by a step of its own
 (Shop(Rekey), allowed at any time, since a worker's save may write back a key it read before, too).
 */
module OrderSystem {
  import opened Wrappers
  import opened Cart
  import opened OrderStore
  import C = CreateRuns
  import CT = CreateTheorems
  import P = Pipeline
  import PS = PipelineSafety
  import PT = PipelineTheorems

  datatype System = System(shop: C.State, mail: P.State)

  datatype Step =
    | Shop(own: C.Step)
    | Commit(c: C.CallId, seen: bool)
    | Announce(c: C.CallId, m: P.MessageId, sent: P.Sent)
    | CrashUnannounced(c: C.CallId)
    | Delete(o: OrderId)
    | Update(save: P.Step)                                         // updateOrder, for an order that is there
    | Restore(u: P.UpdateId, user: UserId, key: Option<string>)    // its save inserts the order again
    | Mail(worker: P.Step)

  // A shop with users and stock but no orders yet.
  ghost predicate Opening(db0: Db) {
    Valid(db0) && db0.orders == map[] && db0.byKey == map[]
  }

  function Start(db0: Db, max: P.Positive): System {
    System(C.Start(db0), P.Start(max))
  }

  predicate AboutToAnnounce(s: System, c: C.CallId) {
    c in s.shop.calls && s.shop.calls[c].pc.Announce?
  }

  predicate Reinserts(s: System, u: P.UpdateId) {
    u in s.mail.updates && s.mail.updates[u].Inserting? && s.mail.updates[u].o !in s.mail.orders
  }

  function ShopStep(s: System, step: Step): Option<C.Step> {
    match step
    case Shop(own) => Some(own)
    case Commit(c, seen) => Some(if seen then C.Commit(c) else C.CommitUnseen(c))
    case Announce(c, _, sent) => Some(if sent.Thrown? then C.PublishFails(c) else C.Publish(c))
    case CrashUnannounced(c) => Some(C.Crash(c))
    case Delete(o) => Some(C.Delete(o))
    case Update(_) => None
    case Restore(u, user, key) => if Reinserts(s, u) then Some(C.Restore(s.mail.updates[u].o, user, key)) else None
    case Mail(_) => None
  }

  function MailStep(s: System, step: Step): Option<P.Step> {
    match step
    case Shop(_) => None
    case Commit(c, _) => if C.InTransaction(s.shop, c) then Some(P.CreateOrder(s.shop.calls[c].pc.tx.order)) else None
    case Announce(c, m, sent) =>
      if AboutToAnnounce(s, c) then Some(P.Announce(s.shop.calls[c].pc.order, m, sent)) else None
    case CrashUnannounced(c) =>
      if AboutToAnnounce(s, c) then Some(P.LoseAnnouncement(s.shop.calls[c].pc.order)) else None
    case Delete(o) => Some(P.DeleteOrder(o))
    case Update(own) => Some(own)
    case Restore(u, _, _) => Some(P.SaveUpdate(u))
    case Mail(own) => Some(own)
  }

  // Each side's own steps, apart from those the two take together.
  ghost predicate Enabled(s: System, step: Step) {
    && (step.Shop? ==>
          && !C.Commits(step.own) && !step.own.Publish? && !step.own.PublishFails?
          && !step.own.Delete? && !step.own.Restore?
          && (step.own.Crash? ==> !AboutToAnnounce(s, step.own.c)))
    && (step.CrashUnannounced? ==> AboutToAnnounce(s, step.c))
    && (step.Update? ==>
          && PS.IsUpdateStep(step.save) && PT.ClosedStep(step.save)
          && (step.save.SaveUpdate? ==> !Reinserts(s, step.save.u)))
    && (step.Restore? ==> Reinserts(s, step.u))
    && (step.Mail? ==> PS.Moved(step.worker).Some?)
    && (ShopStep(s, step).Some? ==> C.Enabled(s.shop, ShopStep(s, step).value))
    && (MailStep(s, step).Some? ==> P.Enabled(s.mail, MailStep(s, step).value))
  }

  function Next(s: System, step: Step): System
    requires Enabled(s, step)
  {
    System(if ShopStep(s, step).Some? then C.Next(s.shop, ShopStep(s, step).value) else s.shop,
           if MailStep(s, step).Some? then P.Next(s.mail, MailStep(s, step).value) else s.mail)
  }

  ghost predicate Runs(s: System, steps: seq<Step>, t: System)
    decreases |steps|
  {
    if steps == [] then s == t
    else Enabled(s, steps[0]) && Runs(Next(s, steps[0]), steps[1..], t)
  }

  // ---------------------------------------------------------------------------------------------
  // What ties the two sides together

  ghost predicate CommittedOrder(s: System, o: OrderId) {
    exists i :: 0 <= i < |s.shop.history| && s.shop.history[i].Committed? && s.shop.history[i].order == o
  }

  ghost predicate BoughtAs(s: System, o: OrderId, items: seq<Line>) {
    exists i :: 0 <= i < |s.shop.history| && s.shop.history[i].Committed? && s.shop.history[i].order == o
             && s.shop.history[i].req.lines == items
  }

  // Every known order was committed, and every live one holds the items it was committed with, unless an update
  // outlived it.
  ghost predicate Bought(s: System) {
    && (forall o :: o in s.mail.known ==> CommittedOrder(s, o))
    && (forall o :: o in s.shop.db.orders ==> o in s.mail.outlived || BoughtAs(s, o, s.shop.db.orders[o].items))
  }

  ghost predicate DeletedOrder(s: System, o: OrderId) {
    exists i :: 0 <= i < |s.shop.history| && s.shop.history[i].Deleted? && s.shop.history[i].order == o
  }

  ghost predicate OutlivedDeleted(s: System) {
    forall o :: o in s.mail.outlived ==> DeletedOrder(s, o)
  }

  ghost predicate Waiting(s: System) {
    forall c :: AboutToAnnounce(s, c) ==> s.shop.calls[c].pc.order in s.mail.unannounced
  }

  ghost predicate Linked(s: System) {
    s.shop.db.orders.Keys == s.mail.orders.Keys && Bought(s) && OutlivedDeleted(s) && Waiting(s)
  }

  ghost predicate Inv(db0: Db, s: System) {
    && C.Inv(db0, s.shop) && CT.AnswersOk(s.shop)
    && PS.Inv(s.mail) && PT.ClosedInv(s.mail)
    && Linked(s)
  }

  lemma StepKeepsShop(db0: Db, s: System, step: Step)
    requires Enabled(s, step) && Inv(db0, s)
    ensures C.Inv(db0, Next(s, step).shop) && CT.AnswersOk(Next(s, step).shop)
  {
    if ShopStep(s, step).Some? {
      var own := ShopStep(s, step).value;
      C.StepKeepsInv(db0, s.shop, own);
      CT.StepKeepsEvents(s.shop, own);
      CT.StepKeepsAnswers(s.shop, own);
      CT.StepKeepsAnnounced(s.shop, own);
      CT.StepKeepsCarriers(s.shop, own);
      CT.StepKeepsKeyed(s.shop, own);
    }
  }

  lemma MailStepIsClosed(s: System, step: Step)
    requires Enabled(s, step) && MailStep(s, step).Some?
    ensures PT.ClosedStep(MailStep(s, step).value) && Next(s, step).mail == P.Next(s.mail, MailStep(s, step).value)
  {
  }

  lemma MailStepKeepsInv(s: P.State, step: P.Step)
    requires P.Enabled(s, step) && PT.ClosedStep(step) && PS.Inv(s) && PT.ClosedInv(s)
    ensures PS.Inv(P.Next(s, step)) && PT.ClosedInv(P.Next(s, step))
  {
    PT.ClosedRunKeepsInv(s, [step], P.Next(s, step));
  }

  lemma StepKeepsMail(db0: Db, s: System, step: Step)
    requires Enabled(s, step) && Inv(db0, s)
    ensures PS.Inv(Next(s, step).mail) && PT.ClosedInv(Next(s, step).mail)
  {
    if MailStep(s, step).Some? {
      MailStepIsClosed(s, step);
      MailStepKeepsInv(s.mail, MailStep(s, step).value);
    }
  }

  lemma MailKeepsOrders(s: P.State, step: P.Step)
    requires P.Enabled(s, step) && PS.Moved(step).Some? && PS.CopiesOk(s)
    ensures var s' := P.Next(s, step);
            && s'.orders.Keys == s.orders.Keys && s'.known == s.known && s'.unannounced == s.unannounced
            && s'.outlived == s.outlived
  {
    if step.CommitTx? {
      assert PS.CopyOk(s, s.copies[step.i]);
    } else {
      PS.MoveKeepsTables(s, step);
    }
  }

  // Steps that commit no create keep what was bought.
  lemma BoughtStays(s: System, s': System)
    requires Bought(s) && OutlivedDeleted(s) && s.shop.history <= s'.shop.history
    requires s'.mail.known == s.mail.known && s.mail.outlived <= s'.mail.outlived
    requires forall o :: o in s'.mail.outlived && o !in s.mail.outlived ==> DeletedOrder(s', o)
    requires forall o :: o in s'.shop.db.orders && o !in s'.mail.outlived ==>
               o in s.shop.db.orders && s'.shop.db.orders[o].items == s.shop.db.orders[o].items
    ensures Bought(s') && OutlivedDeleted(s')
  {
    forall o | o in s'.mail.known ensures CommittedOrder(s', o) { HistoryGrows(s, s', o); }
    forall o | o in s'.shop.db.orders && o !in s'.mail.outlived ensures BoughtAs(s', o, s'.shop.db.orders[o].items) {
      PurchaseStays(s, s', o, s.shop.db.orders[o].items);
    }
    forall o | o in s'.mail.outlived ensures DeletedOrder(s', o) {
      if o in s.mail.outlived { DeletionStays(s, s', o); }
    }
  }

  lemma DeletionStays(s: System, s': System, o: OrderId)
    requires s.shop.history <= s'.shop.history && DeletedOrder(s, o)
    ensures DeletedOrder(s', o)
  {
    var i :| 0 <= i < |s.shop.history| && s.shop.history[i].Deleted? && s.shop.history[i].order == o;
    assert s'.shop.history[i] == s.shop.history[i];
  }

  lemma HistoryGrows(s: System, s': System, o: OrderId)
    requires s.shop.history <= s'.shop.history && CommittedOrder(s, o)
    ensures CommittedOrder(s', o)
  {
    var i :| 0 <= i < |s.shop.history| && s.shop.history[i].Committed? && s.shop.history[i].order == o;
    assert s'.shop.history[i] == s.shop.history[i];
  }

  lemma PurchaseStays(s: System, s': System, o: OrderId, items: seq<Line>)
    requires s.shop.history <= s'.shop.history && BoughtAs(s, o, items)
    ensures BoughtAs(s', o, items)
  {
    var i :| 0 <= i < |s.shop.history| && s.shop.history[i].Committed? && s.shop.history[i].order == o
          && s.shop.history[i].req.lines == items;
    assert s'.shop.history[i] == s.shop.history[i];
  }

  lemma OwnStepKeepsOrders(s: C.State, own: C.Step)
    requires C.Enabled(s, own) && !C.Commits(own) && !own.Delete? && !own.Restore?
    ensures var s' := C.Next(s, own);
            && s'.db.orders.Keys == s.db.orders.Keys && s.history <= s'.history
            && (forall o :: o in s.db.orders ==> s'.db.orders[o].items == s.db.orders[o].items)
  {
    C.StepMovesOneCall(s, own);
  }

  lemma OwnStepAnnouncesNothingNew(s: C.State, own: C.Step, c: C.CallId)
    requires C.Enabled(s, own) && !C.Commits(own) && c in C.Next(s, own).calls && C.Next(s, own).calls[c].pc.Announce?
    ensures c in s.calls && s.calls[c].pc == C.Next(s, own).calls[c].pc
  {
  }

  lemma ShopKeepsLinked(s: System, step: Step)
    requires Enabled(s, step) && Linked(s) && step.Shop?
    ensures Linked(Next(s, step))
  {
    OwnStepKeepsOrders(s.shop, step.own);
    BoughtStays(s, Next(s, step));
    forall c | AboutToAnnounce(Next(s, step), c) ensures Next(s, step).shop.calls[c].pc.order in s.mail.unannounced {
      OwnStepAnnouncesNothingNew(s.shop, step.own, c);
      assert AboutToAnnounce(s, c);
    }
  }

  lemma CommitEffect(s: System, step: Step)
    requires Enabled(s, step) && C.CallsOk(s.shop) && step.Commit?
    ensures var s', call := Next(s, step), s.shop.calls[step.c];
            var o := call.pc.tx.order;
            && s'.shop.history == s.shop.history + [C.Committed(step.c, o, call.req)]
            && s'.shop.db.orders == s.shop.db.orders[o := OrderRow(call.req.user, call.req.key, call.req.lines)]
            && s'.mail.known == s.mail.known + {o} && s'.mail.outlived == s.mail.outlived
            && s'.mail.orders.Keys == s.mail.orders.Keys + {o}
  {
    var call := s.shop.calls[step.c];
    assert C.CallOk(s.shop.db, call);
    assert call.pc.tx.items == call.req.lines;
  }

  lemma BoughtNow(s: System, o: OrderId, c: C.CallId, req: Request, history: seq<C.Event>)
    requires s.shop.history == history + [C.Committed(c, o, req)]
    ensures CommittedOrder(s, o) && BoughtAs(s, o, req.lines)
  {
    assert s.shop.history[|history|] == C.Committed(c, o, req);
  }

  lemma CommitKeepsBought(s: System, step: Step)
    requires Enabled(s, step) && C.CallsOk(s.shop) && Bought(s) && OutlivedDeleted(s) && step.Commit?
    ensures Bought(Next(s, step)) && OutlivedDeleted(Next(s, step))
  {
    var s', call := Next(s, step), s.shop.calls[step.c];
    var o := call.pc.tx.order;
    CommitEffect(s, step);
    BoughtNow(s', o, step.c, call.req, s.shop.history);
    CommitAddsTo(s, s', o, call.req.lines);
  }

  lemma CommitAddsTo(s: System, s': System, o: OrderId, items: seq<Line>)
    requires Bought(s) && OutlivedDeleted(s) && s.shop.history <= s'.shop.history
    requires s'.mail.known == s.mail.known + {o} && s'.mail.outlived == s.mail.outlived
    requires CommittedOrder(s', o) && BoughtAs(s', o, items)
    requires o in s'.shop.db.orders && s'.shop.db.orders[o].items == items
    requires forall p :: p in s'.shop.db.orders && p != o ==>
               p in s.shop.db.orders && s'.shop.db.orders[p] == s.shop.db.orders[p]
    ensures Bought(s') && OutlivedDeleted(s')
  {
    forall p | p in s'.mail.known ensures CommittedOrder(s', p) {
      if p != o { HistoryGrows(s, s', p); }
    }
    forall p | p in s'.shop.db.orders && p !in s'.mail.outlived ensures BoughtAs(s', p, s'.shop.db.orders[p].items) {
      if p != o { PurchaseStays(s, s', p, s.shop.db.orders[p].items); }
    }
    forall p | p in s'.mail.outlived ensures DeletedOrder(s', p) { DeletionStays(s, s', p); }
  }

  lemma CommitKeepsWaiting(s: System, step: Step)
    requires Enabled(s, step) && Waiting(s) && step.Commit?
    ensures Waiting(Next(s, step))
  {
    forall c | AboutToAnnounce(Next(s, step), c)
      ensures Next(s, step).shop.calls[c].pc.order in Next(s, step).mail.unannounced
    {
      if c != step.c { assert AboutToAnnounce(s, c); }
    }
  }

  lemma CommitKeepsLinked(s: System, step: Step)
    requires Enabled(s, step) && C.CallsOk(s.shop) && Linked(s) && step.Commit?
    ensures Linked(Next(s, step))
  {
    CommitEffect(s, step);
    CommitKeepsBought(s, step);
    CommitKeepsWaiting(s, step);
  }

  lemma DifferentOrders(s: System, c: C.CallId, d: C.CallId)
    requires CT.EventsDistinct(s.shop) && CT.AnswersHaveEvents(s.shop)
    requires AboutToAnnounce(s, c) && AboutToAnnounce(s, d) && c != d
    ensures s.shop.calls[c].pc.order != s.shop.calls[d].pc.order
  {
    assert C.Committed(c, s.shop.calls[c].pc.order, s.shop.calls[c].req) in s.shop.history;
    assert C.Committed(d, s.shop.calls[d].pc.order, s.shop.calls[d].req) in s.shop.history;
  }

  lemma AnnounceEffect(s: System, step: Step)
    requires Enabled(s, step) && (step.Announce? || step.CrashUnannounced?) && AboutToAnnounce(s, step.c)
    ensures var s' := Next(s, step);
            && s'.shop.history == s.shop.history && s'.shop.db == s.shop.db
            && s'.mail.known == s.mail.known && s'.mail.orders == s.mail.orders && s'.mail.outlived == s.mail.outlived
            && s'.mail.unannounced == s.mail.unannounced - {s.shop.calls[step.c].pc.order}
            && (forall c :: AboutToAnnounce(s', c) ==>
                  c != step.c && AboutToAnnounce(s, c) && s'.shop.calls[c] == s.shop.calls[c])
  {
  }

  lemma AnnounceKeepsLinked(s: System, step: Step)
    requires Enabled(s, step) && Linked(s) && CT.EventsDistinct(s.shop) && CT.AnswersHaveEvents(s.shop)
    requires step.Announce? || step.CrashUnannounced?
    ensures Linked(Next(s, step))
  {
    var s' := Next(s, step);
    AnnounceEffect(s, step);
    BoughtStays(s, s');
    forall c | AboutToAnnounce(s', c) ensures s'.shop.calls[c].pc.order in s'.mail.unannounced {
      DifferentOrders(s, c, step.c);
    }
  }

  lemma DeleteKeepsLinked(s: System, step: Step)
    requires Enabled(s, step) && Linked(s) && step.Delete?
    ensures Linked(Next(s, step))
  {
    var s' := Next(s, step);
    assert s'.shop.history[|s.shop.history|] == C.Deleted(step.o, s.shop.db.orders[step.o]);
    assert DeletedOrder(s', step.o);
    BoughtStays(s, s');
  }

  lemma UpdateKeepsLinked(s: System, step: Step)
    requires Enabled(s, step) && Linked(s) && step.Update?
    ensures Linked(Next(s, step))
  {
    assert P.Next(s.mail, step.save) ==
           s.mail.(orders := P.Next(s.mail, step.save).orders, updates := P.Next(s.mail, step.save).updates);
    assert P.Next(s.mail, step.save).orders.Keys == s.mail.orders.Keys;
    BoughtStays(s, Next(s, step));
  }

  lemma RestoreKeepsLinked(s: System, step: Step)
    requires Enabled(s, step) && Linked(s) && PS.TablesOk(s.mail) && step.Restore?
    ensures Linked(Next(s, step))
  {
    RestoreEffect(s, step);
    BoughtStays(s, Next(s, step));
  }

  lemma RestoreEffect(s: System, step: Step)
    requires Enabled(s, step) && step.Restore?
    ensures var o, s' := s.mail.updates[step.u].o, Next(s, step);
            && s'.mail.orders.Keys == s.mail.orders.Keys + {o}
            && s'.shop.db.orders.Keys == s.shop.db.orders.Keys + {o}
            && (forall p :: p in s.shop.db.orders ==> s'.shop.db.orders[p] == s.shop.db.orders[p])
            && s'.mail.known == s.mail.known && s'.mail.unannounced == s.mail.unannounced
            && s'.mail.outlived == s.mail.outlived && s'.shop.calls == s.shop.calls && s.shop.history <= s'.shop.history
  {
  }

  lemma MailKeepsLinked(s: System, step: Step)
    requires Enabled(s, step) && Linked(s) && PS.CopiesOk(s.mail) && step.Mail?
    ensures Linked(Next(s, step))
  {
    MailKeepsOrders(s.mail, step.worker);
    BoughtStays(s, Next(s, step));
  }

  lemma StepKeepsInv(db0: Db, s: System, step: Step)
    requires Enabled(s, step) && Inv(db0, s)
    ensures Inv(db0, Next(s, step))
  {
    StepKeepsShop(db0, s, step);
    StepKeepsMail(db0, s, step);
    match step
    case Shop(_) => ShopKeepsLinked(s, step);
    case Commit(_, _) => CommitKeepsLinked(s, step);
    case Announce(_, _, _) => AnnounceKeepsLinked(s, step);
    case CrashUnannounced(_) => AnnounceKeepsLinked(s, step);
    case Delete(_) => DeleteKeepsLinked(s, step);
    case Update(_) => UpdateKeepsLinked(s, step);
    case Restore(_, _, _) => RestoreKeepsLinked(s, step);
    case Mail(_) => MailKeepsLinked(s, step);
  }

  lemma {:induction false} RunKeepsInv(db0: Db, s: System, steps: seq<Step>, t: System)
    requires Inv(db0, s) && Runs(s, steps, t)
    ensures Inv(db0, t)
    decreases |steps|
  {
    if steps != [] {
      StepKeepsInv(db0, s, steps[0]);
      RunKeepsInv(db0, Next(s, steps[0]), steps[1..], t);
    }
  }

  lemma ReachableInv(db0: Db, max: P.Positive, steps: seq<Step>, t: System)
    requires Opening(db0) && Runs(Start(db0, max), steps, t)
    ensures Inv(db0, t)
  {
    RunKeepsInv(db0, Start(db0, max), steps, t);
  }

  // ---------------------------------------------------------------------------------------------
  // End to end

  ghost predicate BoughtWithKey(s: System, o: OrderId, key: string) {
    exists i :: 0 <= i < |s.shop.history| && CT.CommitsKey(s.shop.history[i], key) && s.shop.history[i].order == o
  }

  // Undisturbed, an order bought with the key was never deleted.
  lemma KeyedOrderStays(s: System, key: string, o: OrderId)
    requires CT.KeyKeepsOrder(s.shop) && OutlivedDeleted(s)
    requires !CT.Disturbed(s.shop.history, Some(key)) && BoughtWithKey(s, o, key)
    ensures o !in s.mail.outlived
  {
    var i :| 0 <= i < |s.shop.history| && CT.CommitsKey(s.shop.history[i], key) && s.shop.history[i].order == o;
    forall j | 0 <= j < |s.shop.history| ensures !(s.shop.history[j].Deleted? && s.shop.history[j].order == o) {
      assert !CT.Deletes(s.shop.history[i], s.shop.history[j]);
    }
    assert !DeletedOrder(s, o);
  }

  /** However often clients repeat a create with the same key, and however often the broker redelivers, as long as no
      order loses that key: one order at most was committed with it (so stock was taken once), one
      message id at most was drawn for it, and it was processed at most once. */
  lemma OnceEndToEnd(db0: Db, max: P.Positive, steps: seq<Step>, t: System, key: string)
    requires Opening(db0) && Runs(Start(db0, max), steps, t)
    requires !CT.Disturbed(t.shop.history, Some(key))
    ensures CT.CommitsAtMostOnce(t.shop.history, key)
    ensures forall m, n | m in t.mail.issued && n in t.mail.issued ::
              BoughtWithKey(t, t.mail.issued[m], key) && BoughtWithKey(t, t.mail.issued[n], key) ==> m == n
    ensures forall j, k | 0 <= j < |t.mail.effects| && 0 <= k < |t.mail.effects| ::
              BoughtWithKey(t, t.mail.effects[j].1, key) && BoughtWithKey(t, t.mail.effects[k].1, key) ==> j == k
  {
    ReachableInv(db0, max, steps, t);
    CT.OneCommitPerKey(t.shop, key);
    forall a, b | BoughtWithKey(t, a, key) && BoughtWithKey(t, b, key) ensures a == b {}
    forall a | BoughtWithKey(t, a, key) ensures a !in t.mail.outlived { KeyedOrderStays(t, key, a); }
  }

  /** At every moment of every run no product is oversold, and stock, the items of live orders and the items of deleted
      orders add up to what there was; both sides know the same orders; and every live order, unless an update of it
      was crossed by a commit or a delete, holds what its create call asked for and is PROCESSED exactly when a
      committed marker names it. */
  lemma BooksBalance(db0: Db, max: P.Positive, steps: seq<Step>, t: System)
    requires Opening(db0) && Runs(Start(db0, max), steps, t)
    ensures forall p :: p in db0.stock ==> StockAddsUp(db0, t, p)
    ensures t.shop.db.orders.Keys == t.mail.orders.Keys
    ensures forall o :: o in t.mail.orders && !PT.Crossed(t.mail, o) ==>
              BoughtAs(t, o, t.shop.db.orders[o].items) && PT.StatusMatches(t.mail, o)
  {
    ReachableInv(db0, max, steps, t);
    forall p | p in db0.stock ensures StockAddsUp(db0, t, p) { CT.ReplayConserves(db0, t.shop.history, p); }
    forall o | o in t.mail.orders && !PT.Crossed(t.mail, o) ensures PT.StatusMatches(t.mail, o) {
      assert PT.RowOk(t.mail, o);
    }
  }

  ghost predicate StockAddsUp(db0: Db, t: System, p: ProductId)
    requires p in db0.stock
  {
    && p in t.shop.db.stock && t.shop.db.stock[p] >= 0
    && t.shop.db.stock[p] + CT.ItemsTotal(t.shop.db.orders, p) + CT.DeletedTotal(t.shop.history, p) == db0.stock[p]
  }
}
