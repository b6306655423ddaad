/**
 When interleaved create calls wait for each other for ever. Product rows are locked in cart order and kept until the
 end of the transaction, so some carts can lock each other out; this module says exactly which. It also says what it
 takes for everybody to stop: such a deadlock, or a pool whose connections all belong to calls that ask for another.
 */
module LockOrder {
  import opened Wrappers
  import opened Cart
  import opened OrderStore
  import opened CreateRuns
  import opened ConnectionPool
  import opened CreateBuilds

  // Steps a call takes by itself when nothing goes wrong.
  predicate Willing(step: Step) {
    match step
    case Arrive(_, _) => false
    case CommitUnseen(_) => false
    case DbFails(_) => false
    case PublishFails(_) => false
    case Crash(_) => false
    case Delete(_) => false
    case Rekey(_, _) => false
    case Restore(_, _, _) => false
    case _ => true
  }

  ghost predicate SomeoneCanMove(pool: nat, s: State) {
    exists step :: Willing(step) && Allowed(pool, s, step)
  }

  // About to lock the product of its next line.
  predicate AtLine(s: State, c: CallId) {
    AtPhase(s, c, false) && s.calls[c].pc.phase.AtLock? && MoreLines(s.calls[c])
  }

  predicate WaitsOn(s: State, c: CallId, d: CallId) {
    AtLine(s, c) && InTransaction(s, d) && c != d && NextLine(s.calls[c]).product in s.calls[d].pc.tx.locks
  }

  /** Every call of the set waits for a row that another call of the set has locked. */
  ghost predicate Deadlocked(s: State, stuck: set<CallId>) {
    stuck != {} && forall c {:trigger WaitsWithin(s, stuck, c)} :: c in stuck ==> WaitsWithin(s, stuck, c)
  }

  ghost predicate WaitsWithin(s: State, stuck: set<CallId>, c: CallId) {
    exists d :: d in stuck && WaitsOn(s, c, d)
  }

  /** Calls that have come as far as `cut` says: each has locked the products of the lines before its cut, no two the
      same one, and the product of each call's next line is among those another call has locked. */
  ghost predicate Entangled(carts: map<CallId, seq<Line>>, cut: map<CallId, nat>) {
    && cut.Keys != {} && cut.Keys <= carts.Keys
    && (forall c :: c in cut ==> cut[c] < |carts[c]|)
    && (forall c, d {:trigger HeldApart(carts, cut, c, d)} :: c in cut && d in cut && c != d ==>
          HeldApart(carts, cut, c, d))
    && (forall c {:trigger Blocked(carts, cut, c)} :: c in cut ==> Blocked(carts, cut, c))
  }

  predicate HeldApart(carts: map<CallId, seq<Line>>, cut: map<CallId, nat>, c: CallId, d: CallId) {
    && c in cut && d in cut && c in carts && d in carts && cut[c] < |carts[c]| && cut[d] < |carts[d]|
    && Products(carts[c][..cut[c]]) !! Products(carts[d][..cut[d]])
  }

  ghost predicate Blocked(carts: map<CallId, seq<Line>>, cut: map<CallId, nat>, c: CallId) {
    exists d :: Blocks(carts, cut, c, d)
  }

  predicate Blocks(carts: map<CallId, seq<Line>>, cut: map<CallId, nat>, c: CallId, d: CallId) {
    && c in cut && d in cut && d != c && c in carts && d in carts && cut[c] < |carts[c]| && cut[d] < |carts[d]|
    && carts[c][cut[c]].product in Products(carts[d][..cut[d]])
  }

  // ---------------------------------------------------------------------------------------------
  // A transaction has locked exactly the products of the lines it has reached

  ghost predicate LocksReached(call: Call) {
    call.pc.InTx? && !call.pc.phase.Aborting? ==>
      var n := |call.pc.tx.items| + if call.pc.phase.AtLock? then 0 else 1;
      n <= |call.req.lines| && call.pc.tx.locks <= Products(call.req.lines[..n])
  }

  ghost predicate AllReached(s: State) {
    forall c :: c in s.calls ==> LocksReached(s.calls[c])
  }

  lemma MovedCallReaches(s: State, step: Step, c: CallId)
    requires Enabled(s, step) && Mover(step) == Some(c) && c in s.calls
    requires LocksReached(s.calls[c]) && CallOk(s.db, s.calls[c])
    ensures LocksReached(Next(s, step).calls[c])
  {
    if step.LockProduct? {
      var lines, n := s.calls[c].req.lines, |s.calls[c].pc.tx.items|;
      assert lines[..n + 1] == lines[..n] + [lines[n]];
      ProductsGrow(lines[..n], lines[n]);
    }
  }

  lemma StepKeepsReached(s: State, step: Step)
    requires Enabled(s, step) && CallsOk(s) && AllReached(s)
    ensures AllReached(Next(s, step))
  {
    StepMovesOneCall(s, step);
    forall c | c in Next(s, step).calls ensures LocksReached(Next(s, step).calls[c]) {
      if c in s.calls && Mover(step) == Some(c) { MovedCallReaches(s, step, c); }
    }
  }

  lemma {:induction false} RunKeepsReached(db0: Db, s: State, steps: seq<Step>, t: State)
    requires Inv(db0, s) && AllReached(s) && Runs(s, steps, t)
    ensures Inv(db0, t) && AllReached(t)
    decreases |steps|
  {
    if steps != [] {
      StepKeepsInv(db0, s, steps[0]);
      StepKeepsReached(s, steps[0]);
      RunKeepsReached(db0, Next(s, steps[0]), steps[1..], t);
    }
  }

  // ---------------------------------------------------------------------------------------------
  // A deadlock comes from entangled carts

  function Carts(s: State): map<CallId, seq<Line>> {
    map c | c in s.calls :: s.calls[c].req.lines
  }

  predicate LocksExactly(call: Call) {
    && call.pc.InTx? && |call.pc.tx.items| < |call.req.lines|
    && call.pc.tx.locks == Products(call.req.lines[..|call.pc.tx.items|])
  }

  lemma LocksAtLine(s: State, c: CallId)
    requires CallsOk(s) && AllReached(s) && AtLine(s, c)
    ensures LocksExactly(s.calls[c])
  {
    assert CallOk(s.db, s.calls[c]) && LocksReached(s.calls[c]);
  }

  function CutOf(s: State, stuck: set<CallId>): map<CallId, nat> {
    map c | c in stuck && c in s.calls && s.calls[c].pc.InTx? :: |s.calls[c].pc.tx.items|
  }

  lemma WaitIsBlock(s: State, stuck: set<CallId>, c: CallId, d: CallId)
    requires c in stuck && d in stuck && WaitsOn(s, c, d)
    requires LocksExactly(s.calls[c]) && LocksExactly(s.calls[d])
    ensures Blocked(Carts(s), CutOf(s, stuck), c)
  {
    assert Blocks(Carts(s), CutOf(s, stuck), c, d);
  }

  lemma DeadlockedAtLine(s: State, stuck: set<CallId>, c: CallId) returns (d: CallId)
    requires Deadlocked(s, stuck) && c in stuck
    ensures AtLine(s, c) && d in stuck && WaitsOn(s, c, d)
  {
    assert WaitsWithin(s, stuck, c);
    d :| d in stuck && WaitsOn(s, c, d);
  }

  lemma CutsAreApart(s: State, stuck: set<CallId>, c: CallId, d: CallId)
    requires TxsApart(s) && c in stuck && d in stuck && c != d && AtLine(s, c) && AtLine(s, d)
    requires LocksExactly(s.calls[c]) && LocksExactly(s.calls[d])
    ensures HeldApart(Carts(s), CutOf(s, stuck), c, d)
  {
    assert Apart(s.calls[c].pc.tx, s.calls[d].pc.tx);
  }

  lemma StuckLocksExactly(s: State, stuck: set<CallId>)
    requires CallsOk(s) && AllReached(s) && Deadlocked(s, stuck)
    ensures stuck != {} && forall c :: c in stuck ==> AtLine(s, c) && LocksExactly(s.calls[c])
  {
    forall c | c in stuck ensures AtLine(s, c) && LocksExactly(s.calls[c]) {
      var d := DeadlockedAtLine(s, stuck, c);
      LocksAtLine(s, c);
    }
  }

  // In a deadlock everybody in the set is about to lock a row, and holds just the rows of the lines before.
  ghost predicate StuckAtLines(s: State, stuck: set<CallId>) {
    stuck != {} && forall c :: c in stuck ==> AtLine(s, c) && LocksExactly(s.calls[c])
  }

  lemma CutIsWell(s: State, stuck: set<CallId>)
    requires StuckAtLines(s, stuck)
    ensures CutOf(s, stuck).Keys == stuck && stuck <= Carts(s).Keys
    ensures forall c :: c in stuck ==> CutOf(s, stuck)[c] < |Carts(s)[c]|
  {
  }

  lemma DeadlockIsEntangled(s: State, stuck: set<CallId>)
    requires TxsApart(s) && Deadlocked(s, stuck) && StuckAtLines(s, stuck)
    ensures Entangled(Carts(s), CutOf(s, stuck))
  {
    var carts, cut := Carts(s), CutOf(s, stuck);
    CutIsWell(s, stuck);
    forall c, d | c in stuck && d in stuck && c != d ensures HeldApart(carts, cut, c, d) {
      CutsAreApart(s, stuck, c, d);
    }
    forall c | c in stuck ensures Blocked(carts, cut, c) {
      var d := DeadlockedAtLine(s, stuck, c);
      WaitIsBlock(s, stuck, c, d);
    }
    AllEntangled(carts, cut);
  }

  lemma AllEntangled(carts: map<CallId, seq<Line>>, cut: map<CallId, nat>)
    requires cut.Keys != {} && cut.Keys <= carts.Keys
    requires forall c :: c in cut.Keys ==> cut[c] < |carts[c]|
    requires forall c, d {:trigger HeldApart(carts, cut, c, d)} :: c in cut.Keys && d in cut.Keys && c != d ==>
               HeldApart(carts, cut, c, d)
    requires forall c {:trigger Blocked(carts, cut, c)} :: c in cut.Keys ==> Blocked(carts, cut, c)
    ensures Entangled(carts, cut)
  {
  }

  lemma WaiterIsHeldUp(s: State, step: Step, c: CallId, d: CallId)
    requires Enabled(s, step) && WaitsOn(s, c, d) && (step.DbFails? || step.Crash? ==> step.c != c)
    ensures Mover(step) != Some(c)
  {
    assert LockedByOther(s, c, NextLine(s.calls[c]).product);
  }

  /** A deadlock lasts until a call of the set is aborted by the database or its process dies. */
  lemma DeadlockStays(s: State, step: Step, stuck: set<CallId>)
    requires Enabled(s, step) && Deadlocked(s, stuck)
    requires step.DbFails? || step.Crash? ==> step.c !in stuck
    ensures Deadlocked(Next(s, step), stuck)
  {
    StepMovesOneCall(s, step);
    forall c | c in stuck ensures c in s.calls && Mover(step) != Some(c) {
      assert WaitsWithin(s, stuck, c);
      var d :| d in stuck && WaitsOn(s, c, d);
      WaiterIsHeldUp(s, step, c, d);
    }
    forall c | c in stuck ensures WaitsWithin(Next(s, step), stuck, c) {
      assert WaitsWithin(s, stuck, c);
      var d :| d in stuck && WaitsOn(s, c, d);
      assert WaitsOn(Next(s, step), c, d);
    }
  }

  // ---------------------------------------------------------------------------------------------
  // Entangled carts do deadlock

  lemma Parks(pool: nat, db0: Db, before: seq<Step>, s: State, c: CallId, user: UserId, lines: seq<Line>, n: nat,
      products: set<ProductId>) returns (steps: seq<Step>, t: State)
    requires Built(pool, db0, before, s) && c !in s.calls && |Holders(s)| < pool && user in s.db.users
    requires n < |lines| && TakeAll(s.db.stock, lines[..n]).Fits? && Untouched(s, c, products)
    requires forall i :: 0 <= i < n ==> lines[i].product in products
    ensures Built(pool, db0, steps, t) && OnlyMoves(s, t, c) && ParkedCart(t, c, lines, n)
  {
    var req := Request(user, None, lines);
    var u;
    steps, u := Begins(pool, db0, before, s, c, req);
    forall d | InTransaction(u, d) && d != c ensures u.calls[d].pc.tx.locks !! products {
      assert InTransaction(s, d);
    }
    steps, t := TakesLines(pool, db0, steps, u, c, req, n, products);
  }

  predicate ParkedCart(t: State, c: CallId, lines: seq<Line>, n: nat) {
    c in t.calls && t.calls[c].req.lines == lines && Parked(t.calls[c], t.calls[c].req, n)
  }

  // The calls of `done` stand at their cuts, nobody else has arrived.
  ghost predicate AllParked(s: State, db0: Db, carts: map<CallId, seq<Line>>, cut: map<CallId, nat>, done: set<CallId>)
    requires cut.Keys <= carts.Keys && done <= cut.Keys
  {
    && s.db == db0 && s.calls.Keys == done
    && forall c {:trigger ParkedCart(s, c, carts[c], cut[c])} :: c in done ==> ParkedCart(s, c, carts[c], cut[c])
  }

  lemma NextCartIsUntouched(s: State, db0: Db, carts: map<CallId, seq<Line>>, cut: map<CallId, nat>, done: set<CallId>,
      c: CallId)
    requires Entangled(carts, cut) && done <= cut.Keys && AllParked(s, db0, carts, cut, done) && c in cut && c !in done
    ensures Untouched(s, c, Products(carts[c][..cut[c]]))
    ensures forall i :: 0 <= i < cut[c] ==> carts[c][i].product in Products(carts[c][..cut[c]])
  {
    forall d | InTransaction(s, d) && d != c ensures s.calls[d].pc.tx.locks !! Products(carts[c][..cut[c]]) {
      assert HeldApart(carts, cut, c, d) && ParkedCart(s, d, carts[d], cut[d]);
    }
    forall i | 0 <= i < cut[c] ensures carts[c][i].product in Products(carts[c][..cut[c]]) {
      assert carts[c][i] in carts[c][..cut[c]];
    }
  }

  lemma OneMoreParked(u: State, t: State, db0: Db, carts: map<CallId, seq<Line>>, cut: map<CallId, nat>,
      done: set<CallId>, c: CallId)
    requires cut.Keys <= carts.Keys && done <= cut.Keys && c in done && AllParked(u, db0, carts, cut, done - {c})
    requires OnlyMoves(u, t, c) && ParkedCart(t, c, carts[c], cut[c])
    ensures AllParked(t, db0, carts, cut, done)
  {
    assert t.calls.Keys == (done - {c}) + {c};
    forall d | d in done ensures ParkedCart(t, d, carts[d], cut[d]) {
      if d != c { assert ParkedCart(u, d, carts[d], cut[d]); }
    }
  }

  lemma {:induction false} ParksAll(
      pool: nat, db0: Db, user: UserId, carts: map<CallId, seq<Line>>, cut: map<CallId, nat>, done: set<CallId>)
    returns (steps: seq<Step>, t: State)
    requires Valid(db0) && user in db0.users && Entangled(carts, cut) && done <= cut.Keys && |done| <= pool
    requires forall c :: c in cut ==> TakeAll(db0.stock, carts[c][..cut[c]]).Fits?
    ensures Built(pool, db0, steps, t) && AllParked(t, db0, carts, cut, done)
    decreases |done|
  {
    if c :| c in done {
      var u;
      steps, u := ParksAll(pool, db0, user, carts, cut, done - {c});
      NextCartIsUntouched(u, db0, carts, cut, done - {c}, c);
      Subset(Holders(u), done - {c});
      steps, t := Parks(pool, db0, steps, u, c, user, carts[c], cut[c], Products(carts[c][..cut[c]]));
      OneMoreParked(u, t, db0, carts, cut, done, c);
    } else {
      steps, t := [], Start(db0);
    }
  }

  lemma BlockedWaits(t: State, db0: Db, carts: map<CallId, seq<Line>>, cut: map<CallId, nat>, c: CallId)
    requires Entangled(carts, cut) && AllParked(t, db0, carts, cut, cut.Keys) && c in cut
    ensures WaitsWithin(t, cut.Keys, c)
  {
    assert Blocked(carts, cut, c);
    var d :| Blocks(carts, cut, c, d);
    assert ParkedCart(t, c, carts[c], cut[c]) && ParkedCart(t, d, carts[d], cut[d]);
    assert WaitsOn(t, c, d);
  }

  lemma ParkedDeadlock(t: State, db0: Db, carts: map<CallId, seq<Line>>, cut: map<CallId, nat>)
    requires Entangled(carts, cut) && AllParked(t, db0, carts, cut, cut.Keys)
    ensures Deadlocked(t, t.calls.Keys)
  {
    assert t.calls.Keys == cut.Keys;
    forall c | c in cut.Keys ensures WaitsWithin(t, cut.Keys, c) { BlockedWaits(t, db0, carts, cut, c); }
    AllWait(t, cut.Keys);
  }

  lemma AllWait(t: State, stuck: set<CallId>)
    requires stuck != {} && forall c {:trigger WaitsWithin(t, stuck, c)} :: c in stuck ==> WaitsWithin(t, stuck, c)
    ensures Deadlocked(t, stuck)
  {
  }

  lemma EntangledDeadlocks(pool: nat, db0: Db, user: UserId, carts: map<CallId, seq<Line>>, cut: map<CallId, nat>)
    returns (steps: seq<Step>, t: State)
    requires Valid(db0) && user in db0.users && Entangled(carts, cut) && |cut.Keys| <= pool
    requires forall c :: c in cut ==> TakeAll(db0.stock, carts[c][..cut[c]]).Fits?
    ensures PoolRuns(pool, Start(db0), steps, t) && AllParked(t, db0, carts, cut, cut.Keys)
    ensures Deadlocked(t, cut.Keys) && !SomeoneCanMove(pool, t)
  {
    steps, t := ParksAll(pool, db0, user, carts, cut, cut.Keys);
    ParkedDeadlock(t, db0, carts, cut);
    EverybodyWaits(pool, t);
  }

  lemma EverybodyWaits(pool: nat, t: State)
    requires Deadlocked(t, t.calls.Keys)
    ensures !SomeoneCanMove(pool, t)
  {
    forall step | Willing(step) ensures !Enabled(t, step) {
      if step.c in t.calls {
        assert WaitsWithin(t, t.calls.Keys, step.c);
        var d :| d in t.calls.Keys && WaitsOn(t, step.c, d);
        assert LockedByOther(t, step.c, NextLine(t.calls[step.c]).product);
      }
    }
  }

  // ---------------------------------------------------------------------------------------------
  // Stock only falls

  predicate Fallen(db0: Db, db: Db) {
    && db.users == db0.users && db.stock.Keys == db0.stock.Keys
    && forall p :: p in db0.stock ==> db.stock[p] <= db0.stock[p]
  }

  lemma StepLowersStock(db0: Db, s: State, step: Step)
    requires Inv(db0, s) && Enabled(s, step)
    ensures Fallen(s.db, Next(s, step).db)
  {
    if Commits(step) {
      CommitIsSerial(s, step.c);
      TakeAllKeepsStockSound(s.db.stock, s.calls[step.c].req.lines);
    } else {
      assert Next(s, step).db.users == s.db.users && Next(s, step).db.stock == s.db.stock;
    }
  }

  lemma {:induction false} RunLowersStock(db0: Db, s: State, steps: seq<Step>, t: State)
    requires Inv(db0, s) && Runs(s, steps, t)
    ensures Fallen(s.db, t.db)
    decreases |steps|
  {
    if steps != [] {
      StepKeepsInv(db0, s, steps[0]);
      StepLowersStock(db0, s, steps[0]);
      RunLowersStock(db0, Next(s, steps[0]), steps[1..], t);
    }
  }

  // ---------------------------------------------------------------------------------------------
  // Exactly which carts

  // Only calls with these carts have arrived.
  predicate Uses(t: State, carts: map<CallId, seq<Line>>) {
    forall c :: c in t.calls ==> c in carts && t.calls[c].req.lines == carts[c]
  }

  ghost predicate ReachesDeadlock(
      db0: Db, pool: nat, carts: map<CallId, seq<Line>>, steps: seq<Step>, t: State, stuck: set<CallId>) {
    PoolRuns(pool, Start(db0), steps, t) && Uses(t, carts) && Deadlocked(t, stuck)
  }

  lemma BlockedInLarger(small: map<CallId, seq<Line>>, large: map<CallId, seq<Line>>, cut: map<CallId, nat>, c: CallId)
    requires Blocked(small, cut, c) && forall d :: d in small ==> d in large && large[d] == small[d]
    ensures Blocked(large, cut, c)
  {
    var d :| Blocks(small, cut, c, d);
    assert Blocks(large, cut, c, d);
  }

  lemma EntangledInLarger(small: map<CallId, seq<Line>>, large: map<CallId, seq<Line>>, cut: map<CallId, nat>)
    requires Entangled(small, cut) && forall c :: c in small ==> c in large && large[c] == small[c]
    ensures Entangled(large, cut)
  {
    forall c, d | c in cut.Keys && d in cut.Keys && c != d ensures HeldApart(large, cut, c, d) {
      assert HeldApart(small, cut, c, d);
    }
    forall c | c in cut.Keys ensures Blocked(large, cut, c) {
      assert Blocked(small, cut, c);
      BlockedInLarger(small, large, cut, c);
    }
    AllEntangled(large, cut);
  }

  /** Carts that, cut so, are entangled, few enough to have a connection each, and whose lines before the cut the stock
      allows, each cart taken for itself. */
  ghost predicate Lethal(db0: Db, pool: nat, carts: map<CallId, seq<Line>>, cut: map<CallId, nat>) {
    Entangled(carts, cut) && |cut.Keys| <= pool && forall c :: c in cut ==> TakeAll(db0.stock, carts[c][..cut[c]]).Fits?
  }

  // What the lines before the cut have taken was there at the start.
  lemma StuckPrefixFits(db0: Db, t: State, c: CallId)
    requires CallsOk(t) && AtLine(t, c) && Fallen(db0, t.db)
    ensures t.calls[c].req.user in db0.users
    ensures TakeAll(db0.stock, t.calls[c].req.lines[..|t.calls[c].pc.tx.items|]).Fits?
  {
    var call := t.calls[c];
    assert CallOk(t.db, call);
    assert Taken(call.req, call.pc.tx, call.pc.phase) == call.req.lines[..|call.pc.tx.items|];
    MoreStockFits(t.db.stock, db0.stock, call.req.lines[..|call.pc.tx.items|]);
  }

  lemma ReachedDeadlockIsLethal(
      db0: Db, pool: nat, carts: map<CallId, seq<Line>>, steps: seq<Step>, t: State, stuck: set<CallId>)
    requires Valid(db0) && ReachesDeadlock(db0, pool, carts, steps, t, stuck)
    ensures Lethal(db0, pool, carts, CutOf(t, stuck)) && db0.users != {}
  {
    PoolRunsAreRuns(pool, Start(db0), steps, t);
    RunKeepsReached(db0, Start(db0), steps, t);
    RunLowersStock(db0, Start(db0), steps, t);
    StuckLocksExactly(t, stuck);
    DeadlockIsEntangled(t, stuck);
    EntangledInLarger(Carts(t), carts, CutOf(t, stuck));
    CutIsWell(t, stuck);
    HoldersAreBounded(pool, Start(db0), steps, t);
    Subset(stuck, Holders(t));
    forall c | c in stuck ensures t.calls[c].req.user in db0.users
                                  && TakeAll(db0.stock, carts[c][..CutOf(t, stuck)[c]]).Fits? {
      StuckPrefixFits(db0, t, c);
    }
    var c :| c in stuck;
    assert t.calls[c].req.user in db0.users;
  }

  lemma LethalReachesDeadlock(
      db0: Db, pool: nat, user: UserId, carts: map<CallId, seq<Line>>, cut: map<CallId, nat>)
    returns (steps: seq<Step>, t: State)
    requires Valid(db0) && user in db0.users && Lethal(db0, pool, carts, cut)
    ensures ReachesDeadlock(db0, pool, carts, steps, t, cut.Keys)
  {
    steps, t := EntangledDeadlocks(pool, db0, user, carts, cut);
    forall c | c in t.calls ensures c in carts && t.calls[c].req.lines == carts[c] {
      assert ParkedCart(t, c, carts[c], cut[c]);
    }
  }

  ghost predicate CanDeadlock(db0: Db, pool: nat, carts: map<CallId, seq<Line>>) {
    exists steps, t, stuck :: ReachesDeadlock(db0, pool, carts, steps, t, stuck)
  }

  /** For any carts and any pool: some interleaving deadlocks if and only if there is a user to order for and the carts
      can be cut so that they are entangled, within the pool, and the lines before the cuts fit the stock. */
  lemma DeadlockExactly(db0: Db, pool: nat, carts: map<CallId, seq<Line>>)
    requires Valid(db0)
    ensures CanDeadlock(db0, pool, carts) <==> db0.users != {} && exists cut :: Lethal(db0, pool, carts, cut)
  {
    if CanDeadlock(db0, pool, carts) {
      var steps, t, stuck :| ReachesDeadlock(db0, pool, carts, steps, t, stuck);
      ReachedDeadlockIsLethal(db0, pool, carts, steps, t, stuck);
    }
    if user, cut :| user in db0.users && Lethal(db0, pool, carts, cut) {
      var steps, t := LethalReachesDeadlock(db0, pool, user, carts, cut);
    }
  }

  function Two(a: seq<Line>, b: seq<Line>): map<CallId, seq<Line>> {
    map[0 := a, 1 := b]
  }

  predicate Cross(a: seq<Line>, i: nat, b: seq<Line>, j: nat)
    requires i < |a| && j < |b|
  {
    && Products(a[..i]) !! Products(b[..j])
    && a[i].product in Products(b[..j]) && b[j].product in Products(a[..i])
  }

  predicate CrossWithin(stock: Stock, a: seq<Line>, i: nat, b: seq<Line>, j: nat) {
    i < |a| && j < |b| && Cross(a, i, b, j) && TakeAll(stock, a[..i]).Fits? && TakeAll(stock, b[..j]).Fits?
  }

  lemma TwoEntangled(a: seq<Line>, b: seq<Line>, cut: map<CallId, nat>)
    requires Entangled(Two(a, b), cut)
    ensures cut.Keys == {0, 1} && cut[0] < |a| && cut[1] < |b| && Cross(a, cut[0], b, cut[1])
  {
    var carts := Two(a, b);
    assert carts[0] == a && carts[1] == b;
    var c :| c in cut;
    assert Blocked(carts, cut, c);
    var d :| Blocks(carts, cut, c, d);
    assert Blocked(carts, cut, d) && HeldApart(carts, cut, 0, 1);
    assert cut.Keys == {0, 1};
  }

  lemma CrossEntangles(a: seq<Line>, i: nat, b: seq<Line>, j: nat)
    requires i < |a| && j < |b| && Cross(a, i, b, j)
    ensures Entangled(Two(a, b), map[0 := i, 1 := j])
  {
    var carts, cut := Two(a, b), map[0 := i, 1 := j];
    assert Blocks(carts, cut, 0, 1) && Blocks(carts, cut, 1, 0);
    assert Blocked(carts, cut, 0) && Blocked(carts, cut, 1);
    assert HeldApart(carts, cut, 0, 1) && HeldApart(carts, cut, 1, 0);
  }

  lemma TwoIsLethal(db0: Db, pool: nat, a: seq<Line>, i: nat, b: seq<Line>, j: nat)
    requires pool >= 2 && CrossWithin(db0.stock, a, i, b, j)
    ensures Lethal(db0, pool, Two(a, b), map[0 := i, 1 := j])
  {
    CrossEntangles(a, i, b, j);
    var cut: map<CallId, nat> := map[0 := i, 1 := j];
    assert cut.Keys == {0, 1};
  }

  lemma LethalIsCross(db0: Db, pool: nat, a: seq<Line>, b: seq<Line>, cut: map<CallId, nat>)
    requires Lethal(db0, pool, Two(a, b), cut)
    ensures pool >= 2 && exists i, j :: CrossWithin(db0.stock, a, i, b, j)
  {
    TwoEntangled(a, b, cut);
    assert |{0, 1}| == 2;
    assert CrossWithin(db0.stock, a, cut[0], b, cut[1]);
  }

  /** For two carts: if and only if there are two connections, the one's line i and the other's line j name products the
      other has locked by then, nothing locked by then is the same, and the lines before fit the stock. */
  lemma TwoCartsDeadlockExactly(db0: Db, pool: nat, a: seq<Line>, b: seq<Line>)
    requires Valid(db0)
    ensures CanDeadlock(db0, pool, Two(a, b)) <==>
            db0.users != {} && pool >= 2 && exists i, j :: CrossWithin(db0.stock, a, i, b, j)
  {
    DeadlockExactly(db0, pool, Two(a, b));
    if cut :| Lethal(db0, pool, Two(a, b), cut) { LethalIsCross(db0, pool, a, b, cut); }
    if i, j :| pool >= 2 && CrossWithin(db0.stock, a, i, b, j) { TwoIsLethal(db0, pool, a, i, b, j); }
  }

  /** Two products in opposite orders are enough, if each cart's first line can be had. */
  lemma OppositeCartsCanDeadlock(db0: Db, pool: nat, user: UserId, p: Line, q: Line)
    returns (steps: seq<Step>, t: State)
    requires Valid(db0) && user in db0.users && pool >= 2 && p.product != q.product
    requires TakeLine(db0.stock, p).Fits? && TakeLine(db0.stock, q).Fits?
    ensures PoolRuns(pool, Start(db0), steps, t) && t.calls.Keys == {0, 1} && t.db == db0
    ensures t.calls[0].req.lines == [p, q] && t.calls[1].req.lines == [q, p]
    ensures Deadlocked(t, {0, 1}) && !SomeoneCanMove(pool, t)
  {
    var carts, cut: map<CallId, nat> := Two([p, q], [q, p]), map[0 := 1, 1 := 1];
    OppositeIsCross(db0.stock, p, q);
    TwoIsLethal(db0, pool, [p, q], 1, [q, p], 1);
    assert cut.Keys == {0, 1};
    steps, t := EntangledDeadlocks(pool, db0, user, carts, cut);
    assert ParkedCart(t, 0, carts[0], cut[0]) && ParkedCart(t, 1, carts[1], cut[1]);
  }

  lemma OppositeIsCross(stock: Stock, p: Line, q: Line)
    requires p.product != q.product && TakeLine(stock, p).Fits? && TakeLine(stock, q).Fits?
    ensures CrossWithin(stock, [p, q], 1, [q, p], 1)
  {
    assert [p, q][..1] == [p] && [q, p][..1] == [q];
    assert p in [p] && q in [q];
    assert TakeAll(stock, []) == Fits(stock);
    assert [p][..0] == [] && [q][..0] == [];
    assert TakeAll(stock, [p]) == TakeLine(stock, p) && TakeAll(stock, [q]) == TakeLine(stock, q);
  }

  // ---------------------------------------------------------------------------------------------
  // What stops everybody

  /** Every connection belongs to a call that asks for a second one. */
  ghost predicate Jammed(pool: nat, s: State) {
    |Rereaders(s)| >= pool
  }

  function Rereaders(s: State): set<CallId> {
    set c | c in s.calls && s.calls[c].pc.LookAgain?
  }

  function OpenTxs(s: State): set<CallId> {
    set c | c in s.calls && s.calls[c].pc.InTx?
  }

  predicate Unfinished(s: State, c: CallId) {
    c in s.calls && !s.calls[c].pc.Done?
  }

  lemma MovesOrWaits(pool: nat, s: State, c: CallId)
    requires CallsOk(s) && InTransaction(s, c)
    ensures SomeoneCanMove(pool, s) || WaitsWithin(s, OpenTxs(s), c)
  {
    var call := s.calls[c];
    assert CallOk(s.db, call);
    match call.pc.phase
    case Aborting(_) => assert Allowed(pool, s, Rollback(c));
    case HasRow(_) => assert Allowed(pool, s, SaveStock(c));
    case StockSaved => assert Allowed(pool, s, SaveItem(c));
    case AtLock =>
      if !MoreLines(call) {
        assert Allowed(pool, s, Commit(c));
      } else if LockedByOther(s, c, NextLine(call).product) {
        var d :| d != c && InTransaction(s, d) && NextLine(call).product in s.calls[d].pc.tx.locks;
        assert d in OpenTxs(s) && WaitsOn(s, c, d);
      } else {
        assert Allowed(pool, s, LockProduct(c));
      }
  }

  // Without open transactions, who does not wait for a connection can go on.
  lemma OnlyThePoolStops(pool: nat, s: State, c: CallId)
    requires (forall d :: !InTransaction(s, d)) && Unfinished(s, c)
    requires AsksPool(s.calls[c]) ==> |Holders(s)| < pool
    ensures SomeoneCanMove(pool, s)
  {
    assert !InTransaction(s, c);
    match s.calls[c].pc
    case LookUpKey => assert Allowed(pool, s, Lookup(c));
    case Validate => assert Allowed(pool, s, Check(c));
    case Begin => assert Allowed(pool, s, Connect(c));
    case LookAgain => assert Allowed(pool, s, Reread(c));
    case Announce(_) => assert Allowed(pool, s, Publish(c));
    case Opened =>
      var id := Unused(s.used);
      assert Allowed(pool, s, InsertRow(c, id));
  }

  /** With a call unfinished, everybody stops only in a deadlock of the open transactions, or without any open
      transaction: then every call that goes on needs a connection, and the pool is jammed. */
  lemma StopMeansDeadlockOrJam(pool: nat, s: State, c: CallId)
    requires CallsOk(s) && Unfinished(s, c) && !SomeoneCanMove(pool, s)
    ensures if OpenTxs(s) != {} then Deadlocked(s, OpenTxs(s))
            else Jammed(pool, s) && forall d :: Unfinished(s, d) ==> AsksPool(s.calls[d])
  {
    if OpenTxs(s) != {} {
      forall d | d in OpenTxs(s) ensures WaitsWithin(s, OpenTxs(s), d) { MovesOrWaits(pool, s, d); }
      AllWait(s, OpenTxs(s));
    } else {
      assert forall d :: InTransaction(s, d) ==> d in OpenTxs(s);
      forall d | Unfinished(s, d) ensures AsksPool(s.calls[d]) && |Holders(s)| >= pool {
        if !AsksPool(s.calls[d]) || |Holders(s)| < pool { OnlyThePoolStops(pool, s, d); }
      }
      assert |Holders(s)| >= pool;
      forall d | d in Holders(s) ensures d in Rereaders(s) {
        assert d !in OpenTxs(s) && AsksPool(s.calls[d]);
      }
      Subset(Holders(s), Rereaders(s));
    }
  }

  lemma JamStopsAskers(pool: nat, s: State)
    requires Jammed(pool, s) && forall d :: Unfinished(s, d) ==> AsksPool(s.calls[d])
    ensures !SomeoneCanMove(pool, s)
  {
    Subset(Rereaders(s), Holders(s));
    forall step | Willing(step) ensures !Allowed(pool, s, step) {
      if Enabled(s, step) { assert Unfinished(s, step.c) && TakesConnection(s, step); }
    }
  }

  // ---------------------------------------------------------------------------------------------
  // A common order of products excludes it

  predicate Ranked(rank: ProductId -> nat, lines: seq<Line>) {
    forall i, j :: 0 <= i < j < |lines| ==>
      lines[i].product == lines[j].product || rank(lines[i].product) < rank(lines[j].product)
  }

  lemma BlockerIsHigher(
      rank: ProductId -> nat, carts: map<CallId, seq<Line>>, cut: map<CallId, nat>, c: CallId, d: CallId)
    requires Entangled(carts, cut) && Blocks(carts, cut, c, d)
    requires forall e :: e in carts ==> Ranked(rank, carts[e])
    ensures rank(carts[c][cut[c]].product) < rank(carts[d][cut[d]].product)
  {
    var held := carts[c][cut[c]].product;
    var l :| l in carts[d][..cut[d]] && l.product == held;
    var i :| 0 <= i < cut[d] && carts[d][i] == l;
    assert Blocked(carts, cut, d);
    var e :| Blocks(carts, cut, d, e);
    assert HeldApart(carts, cut, d, e);
  }

  lemma {:induction false} NoHighest(
      rank: ProductId -> nat, carts: map<CallId, seq<Line>>, cut: map<CallId, nat>, c: CallId, bound: nat)
    requires Entangled(carts, cut) && c in cut && forall e :: e in carts ==> Ranked(rank, carts[e])
    requires forall e :: e in cut ==> rank(carts[e][cut[e]].product) <= bound
    ensures false
    decreases bound - rank(carts[c][cut[c]].product)
  {
    assert Blocked(carts, cut, c);
    var d :| Blocks(carts, cut, c, d);
    BlockerIsHigher(rank, carts, cut, c, d);
    NoHighest(rank, carts, cut, d, bound);
  }

  lemma RankedIsNotEntangled(rank: ProductId -> nat, carts: map<CallId, seq<Line>>, cut: map<CallId, nat>)
    requires forall c :: c in carts ==> Ranked(rank, carts[c])
    ensures !Entangled(carts, cut)
  {
    if Entangled(carts, cut) {
      var ranks := set e | e in cut :: rank(carts[e][cut[e]].product);
      var bound := UpperBound(ranks);
      assert forall e :: e in cut ==> rank(carts[e][cut[e]].product) in ranks;
      var c :| c in cut;
      NoHighest(rank, carts, cut, c, bound);
    }
  }

  /** If there is any ranking of products that every cart follows, then no interleaving deadlocks; with a call
      unfinished, everybody stops if and only if the pool is jammed and whoever is unfinished asks it for a
      connection. */
  lemma RankedCartsStopExactly(rank: ProductId -> nat, db0: Db, pool: nat, steps: seq<Step>, t: State, c: CallId)
    requires Valid(db0) && PoolRuns(pool, Start(db0), steps, t)
    requires forall d :: d in t.calls ==> Ranked(rank, t.calls[d].req.lines)
    requires Unfinished(t, c)
    ensures forall stuck :: !Deadlocked(t, stuck)
    ensures !SomeoneCanMove(pool, t) <==> Jammed(pool, t) && forall d :: Unfinished(t, d) ==> AsksPool(t.calls[d])
  {
    PoolRunsAreRuns(pool, Start(db0), steps, t);
    RunKeepsReached(db0, Start(db0), steps, t);
    forall stuck ensures !Deadlocked(t, stuck) {
      if Deadlocked(t, stuck) {
        StuckLocksExactly(t, stuck);
        DeadlockIsEntangled(t, stuck);
        RankedIsNotEntangled(rank, Carts(t), CutOf(t, stuck));
      }
    }
    if !SomeoneCanMove(pool, t) { StopMeansDeadlockOrJam(pool, t, c); }
    if Jammed(pool, t) && forall d :: Unfinished(t, d) ==> AsksPool(t.calls[d]) { JamStopsAskers(pool, t); }
  }
}
