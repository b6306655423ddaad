/**
 What a failed create may have left behind, and how often a key commits: for both the exact condition, each way it can
 go shown by a run.
 */
module CreateOutcomes {
  import opened Wrappers
  import opened Cart
  import opened OrderStore
  import opened CreateRuns
  import opened CreateTheorems
  import opened ConnectionPool
  import opened CreateBuilds
  import opened KeyJam

  // ---------------------------------------------------------------------------------------------
  // Failed, yet committed

  ghost predicate HasCommitted(t: State, c: CallId) {
    exists i :: 0 <= i < |t.history| && t.history[i].Committed? && t.history[i].call == c
  }

  ghost predicate FailedYetCommitted(db0: Db, error: Error, steps: seq<Step>, t: State, c: CallId) {
    && Runs(Start(db0), steps, t) && c in t.calls && t.calls[c].pc == Done(Failed(error))
    && HasCommitted(t, c)
  }

  ghost predicate CanFailCommitted(db0: Db, error: Error) {
    exists steps, t, c :: FailedYetCommitted(db0, error, steps, t, c)
  }

  predicate InStock(stock: Stock, p: ProductId, units: nat) {
    p in stock && stock[p] >= units
  }

  // Something can be ordered, and someone can order it.
  ghost predicate Sellable(db0: Db) {
    db0.users != {} && exists p :: InStock(db0.stock, p, 1)
  }

  function OneUnit(user: UserId, key: Option<string>, p: ProductId): Request {
    Request(user, key, [Line(p, 1, 0)])
  }

  lemma OneUnitFits(stock: Stock, p: ProductId)
    requires InStock(stock, p, 1)
    ensures TakeAll(stock, [Line(p, 1, 0)]) == Fits(stock[p := stock[p] - 1])
  {
    assert [Line(p, 1, 0)][..0] == [];
  }

  // At its commit a call can still fail in each of these ways, with its order created.
  lemma FailsCommitted(pool: nat, db0: Db, before: seq<Step>, s: State, c: CallId, error: Error)
    requires Built(pool, db0, before, s) && MayCommit(s, c) && MayHaveCommitted(Failed(error))
    ensures CanFailCommitted(db0, error)
  {
    var steps, t := Extend(pool, db0, before, s, if error.DatabaseError? then CommitUnseen(c) else Commit(c));
    assert t.history[|s.history|].call == c;
    if !error.DatabaseError? {
      steps, t := Extend(pool, db0, steps, t, if error.Crashed? then Crash(c) else PublishFails(c));
      assert t.history[|s.history|].call == c;
    }
    PoolRunsAreRuns(pool, Start(db0), steps, t);
    assert HasCommitted(t, c);
    assert FailedYetCommitted(db0, error, steps, t, c);
  }

  lemma EachCanHaveCommitted(db0: Db, error: Error)
    requires Valid(db0) && Sellable(db0) && MayHaveCommitted(Failed(error))
    ensures CanFailCommitted(db0, error)
  {
    var user :| user in db0.users;
    var p :| InStock(db0.stock, p, 1);
    OneUnitFits(db0.stock, p);
    var steps, s := FillsCart(1, db0, [], Start(db0), 0, OneUnit(user, None, p));
    FailsCommitted(1, db0, steps, s, 0, error);
  }

  lemma CommitMeansSellable(db0: Db, t: State, i: nat)
    requires Checked(db0, t) && i < |t.history| && t.history[i].Committed?
    ensures Sellable(db0)
  {
    assert WasAcceptable(db0, t.history[i]);
    var lines := t.history[i].req.lines;
    CartIsExact(db0.stock, lines);
    PrefixFits(db0.stock, lines, 1);
    TakeAllStep(db0.stock, lines, 0);
    assert lines[..0] == [];
    assert InStock(db0.stock, lines[0].product, 1);
  }

  /** A call that failed may have committed its order if and only if it failed with a database error, a broker error or
      the death of its process, given there is anything to order at all. */
  lemma FailedExactly(db0: Db, error: Error)
    requires Valid(db0)
    ensures CanFailCommitted(db0, error) <==> MayHaveCommitted(Failed(error)) && Sellable(db0)
  {
    if CanFailCommitted(db0, error) {
      var steps, t, c :| FailedYetCommitted(db0, error, steps, t, c);
      OnlyCreatorsHaveEffects(db0, steps, t, c);
      RunKeepsChecked(db0, Start(db0), steps, t);
      var i :| 0 <= i < |t.history| && t.history[i].Committed? && t.history[i].call == c;
      CommitMeansSellable(db0, t, i);
    }
    if MayHaveCommitted(Failed(error)) && Sellable(db0) { EachCanHaveCommitted(db0, error); }
  }

  // ---------------------------------------------------------------------------------------------
  // How often a key commits

  // Only these keys were taken away from an order.
  ghost predicate TakenWithin(history: seq<Event>, keys: set<string>) {
    forall e, k :: e in history && TakesKeyAway(e, Some(k)) ==> k in keys
  }

  ghost predicate CommitsOnceInAllRuns(db0: Db, keys: set<string>, key: string) {
    forall steps, t :: Runs(Start(db0), steps, t) && TakenWithin(t.history, keys) ==> CommitsAtMostOnce(t.history, key)
  }

  lemma KeptKeyCommitsOnce(db0: Db, steps: seq<Step>, t: State, key: string)
    requires Valid(db0) && Runs(Start(db0), steps, t) && !Disturbed(t.history, Some(key))
    ensures CommitsAtMostOnce(t.history, key)
  {
    ReachableInv(db0, steps, t);
    ReachableAnswers(db0, steps, t);
    OneCommitPerKey(t, key);
  }

  /** Whatever set of keys may be taken away, by deleting an order or writing its key: every run commits a key at most
      once if and only if the key is not in the set. The empty key is no exception. */
  lemma CommitsOnceExactly(db0: Db, user: UserId, p: ProductId, keys: set<string>, key: string)
    requires Valid(db0) && user in db0.users && InStock(db0.stock, p, 2)
    ensures CommitsOnceInAllRuns(db0, keys, key) <==> key !in keys
  {
    if key in keys {
      var steps, t := TakenKeyCommitsTwice(db0, user, p, keys, key);
      assert !CommitsAtMostOnce(t.history, key);
    } else {
      forall steps, t | Runs(Start(db0), steps, t) && TakenWithin(t.history, keys)
        ensures CommitsAtMostOnce(t.history, key)
      {
        forall i | 0 <= i < |t.history| ensures !TakesKeyAway(t.history[i], Some(key)) {
          assert t.history[i] in t.history;
        }
        KeptKeyCommitsOnce(db0, steps, t, key);
      }
    }
  }

  // Free the key, create an order with it, free it again, create another.
  lemma TakenKeyCommitsTwice(db0: Db, user: UserId, p: ProductId, keys: set<string>, key: string)
    returns (steps: seq<Step>, t: State)
    requires Valid(db0) && user in db0.users && InStock(db0.stock, p, 2) && key in keys
    ensures Runs(Start(db0), steps, t) && TakenWithin(t.history, keys) && !CommitsAtMostOnce(t.history, key)
  {
    var req := OneUnit(user, Some(key), p);
    var s, u;
    OneUnitFits(db0.stock, p);
    steps, s := CommitsAgain(db0, [], Start(db0), 0, req, keys);
    OneUnitFits(s.db.stock, p);
    steps, u := CommitsAgain(db0, steps, s, 1, req, keys);
    PoolRunsAreRuns(1, Start(db0), steps, u);
    t := u;
    var i := |s.history| - 1;
    assert t.history[i] == s.history[i];
    assert CommitsKey(t.history[i], key) && CommitsKey(t.history[|t.history| - 1], key);
  }

  lemma CommitsAgain(db0: Db, before: seq<Step>, s: State, c: CallId, req: Request, keys: set<string>)
    returns (steps: seq<Step>, t: State)
    requires Built(1, db0, before, s) && NoTransactions(s) && Holders(s) == {} && c !in s.calls
    requires req.key.Some? && req.key.value in keys && TakenWithin(s.history, keys)
    requires |req.lines| == 1 && req.user in s.db.users && TakeAll(s.db.stock, req.lines).Fits?
    ensures Built(1, db0, steps, t) && NoTransactions(t) && Holders(t) == {} && t.calls.Keys == s.calls.Keys + {c}
    ensures t.db.users == s.db.users && TakeAll(s.db.stock, req.lines) == Fits(t.db.stock)
    ensures TakenWithin(t.history, keys) && s.history < t.history
    ensures t.history[|t.history| - 1].Committed? && t.history[|t.history| - 1].req == req
  {
    var u, id;
    steps, u := FreeKey(1, db0, before, s, req.key);
    assert forall d :: InTransaction(u, d) ==> InTransaction(s, d);
    assert Holders(u) == Holders(s);
    steps, t, id := Creates(1, db0, steps, u, c, req);
  }
}
