/**
 The connection pool jam of KeyJam while orders are created only, neither deleted nor updated: exactly which requests
 can bring it about.
 */
module KeyJamCreating {
  import opened Wrappers
  import opened Cart
  import opened OrderStore
  import opened CreateRuns
  import opened CreateTheorems
  import opened ConnectionPool
  import opened CreateBuilds
  import opened LockOrder
  import opened KeyJam

  // Lines of these calls' carts, one cart after another.
  function AllLines(reqs: map<CallId, Request>, calls: seq<CallId>): seq<Line> {
    if calls == [] then []
    else
      var c := calls[|calls| - 1];
      AllLines(reqs, calls[..|calls| - 1]) + if c in reqs then reqs[c].lines else []
  }

  predicate CanWin(db0: Db, reqs: map<CallId, Request>, c: CallId) {
    c in reqs && Ready(db0, reqs[c]) && KeyFree(db0, reqs[c].key)
  }

  predicate Rivals(reqs: map<CallId, Request>, c: CallId, d: CallId) {
    c in reqs && d in reqs && reqs[c].key.Some? && reqs[c].key == reqs[d].key
  }

  predicate AllDiffer(reqs: map<CallId, Request>, calls: seq<CallId>) {
    forall i, j :: 0 <= i < j < |calls| ==> calls[i] != calls[j] && !Rivals(reqs, calls[i], calls[j])
  }

  /** Calls that can all create their orders: keys new and different, all carts together within the stock. */
  ghost predicate Winners(db0: Db, reqs: map<CallId, Request>, calls: seq<CallId>) {
    && (forall i :: 0 <= i < |calls| ==> CanWin(db0, reqs, calls[i])) && AllDiffer(reqs, calls)
    && Acceptable(db0.stock, AllLines(reqs, calls))
  }

  /** The calls that find their key taken by one of these. */
  function Losers(db0: Db, reqs: map<CallId, Request>, calls: seq<CallId>): set<CallId> {
    set c | c in Keyed(db0, reqs) && c !in calls && exists d :: d in calls && Rivals(reqs, c, d)
  }

  // With creates only, keys are never given back.
  ghost predicate KeysStay(db0: Db, s: State) {
    && db0.byKey.Keys <= s.db.byKey.Keys && (forall i :: 0 <= i < |s.history| ==> s.history[i].Committed?)
    && forall c :: c in s.calls && HasKey(s.calls[c].req.key) ==> KeyTrail(db0, s.db, s.calls[c])
  }

  predicate KeyTrail(db0: Db, db: Db, call: Call) {
    && (call.pc.Validate? || PastChecks(call.pc) ==> KeyFree(db0, call.req.key))
    && (LostKey(call.pc) ==> !KeyFree(db, call.req.key))
  }

  lemma CreateKeepsKeys(s: State, step: Step)
    requires Enabled(s, step) && !EditsOrders(step)
    ensures s.db.byKey.Keys <= Next(s, step).db.byKey.Keys
    ensures Next(s, step).history == s.history || (Commits(step) && exists e: Event ::
              e.Committed? && Next(s, step).history == s.history + [e])
  {
  }

  lemma MovedCallKeepsTrail(db0: Db, s: State, step: Step, c: CallId)
    requires Enabled(s, step) && KeysStay(db0, s) && Mover(step) == Some(c) && !Commits(step)
    requires HasKey(Next(s, step).calls[c].req.key)
    ensures KeyTrail(db0, s.db, Next(s, step).calls[c])
  {
    if c in s.calls { assert KeyTrail(db0, s.db, s.calls[c]); }
  }

  lemma StepKeepsTrail(db0: Db, s: State, step: Step, c: CallId)
    requires Enabled(s, step) && !EditsOrders(step) && KeysStay(db0, s)
    requires c in Next(s, step).calls && HasKey(Next(s, step).calls[c].req.key)
    ensures KeyTrail(db0, Next(s, step).db, Next(s, step).calls[c])
  {
    StepMovesOneCall(s, step);
    if Mover(step) == Some(c) {
      if !Commits(step) { MovedCallKeepsTrail(db0, s, step, c); }
    } else {
      CreateKeepsKeys(s, step);
      assert KeyTrail(db0, s.db, s.calls[c]);
    }
  }

  lemma StepKeepsKeys(db0: Db, s: State, step: Step)
    requires Enabled(s, step) && !EditsOrders(step) && KeysStay(db0, s)
    ensures KeysStay(db0, Next(s, step))
  {
    CreateKeepsKeys(s, step);
    forall c | c in Next(s, step).calls && HasKey(Next(s, step).calls[c].req.key)
      ensures KeyTrail(db0, Next(s, step).db, Next(s, step).calls[c])
    {
      StepKeepsTrail(db0, s, step, c);
    }
  }

  lemma {:induction false} RunKeepsKeys(db0: Db, s: State, steps: seq<Step>, t: State)
    requires Runs(s, steps, t) && CreatesOnly(steps) && KeysStay(db0, s)
    ensures KeysStay(db0, t)
    decreases |steps|
  {
    if steps != [] {
      StepKeepsKeys(db0, s, steps[0]);
      assert CreatesOnly(steps[1..]) by {
        forall i | 0 <= i < |steps| - 1 ensures !EditsOrders(steps[1..][i]) { assert steps[1..][i] == steps[i + 1]; }
      }
      RunKeepsKeys(db0, Next(s, steps[0]), steps[1..], t);
    }
  }

  // The calls behind these commits.
  function Committers(history: seq<Event>): seq<CallId> {
    if history == [] then []
    else
      var e := history[|history| - 1];
      Committers(history[..|history| - 1]) + if e.Committed? then [e.call] else []
  }

  // Every event is the commit of one of the requests.
  predicate CommitsOf(reqs: map<CallId, Request>, history: seq<Event>) {
    forall i :: 0 <= i < |history| ==>
      history[i].Committed? && history[i].call in reqs && reqs[history[i].call] == history[i].req
  }

  lemma {:induction false} CommittersAre(reqs: map<CallId, Request>, history: seq<Event>)
    requires CommitsOf(reqs, history)
    ensures |Committers(history)| == |history|
    ensures forall i :: 0 <= i < |history| ==> Committers(history)[i] == history[i].call
  {
    if history != [] { CommittersAre(reqs, history[..|history| - 1]); }
  }

  lemma ReplayedCommit(db: Db, e: Event)
    requires e.Committed? && ReplayEvent(db, e).Some?
    ensures var db' := ReplayEvent(db, e).value;
            && Ready(db, e.req) && KeyFree(db, e.req.key) && db'.users == db.users
            && db'.byKey == IndexAdd(db.byKey, e.req.key, e.order)
            && TakeAll(db.stock, e.req.lines) == Fits(db'.stock)
  {
  }

  lemma {:induction false} ReplayedStock(db0: Db, reqs: map<CallId, Request>, history: seq<Event>)
    requires CommitsOf(reqs, history) && Replay(db0, history).Some?
    ensures var db := Replay(db0, history).value;
            db.users == db0.users && TakeAll(db0.stock, AllLines(reqs, Committers(history))) == Fits(db.stock)
  {
    if history != [] {
      var before, e := history[..|history| - 1], history[|history| - 1];
      ReplayedStock(db0, reqs, before);
      ReplayedCommit(Replay(db0, before).value, e);
      TakeAllAppend(db0.stock, AllLines(reqs, Committers(before)), e.req.lines);
    }
  }

  ghost predicate KeyCommitted(history: seq<Event>, key: string) {
    exists i :: 0 <= i < |history| && CommitsKey(history[i], key)
  }

  lemma KeyCommittedSnoc(history: seq<Event>, e: Event, key: string)
    ensures KeyCommitted(history + [e], key) <==> KeyCommitted(history, key) || CommitsKey(e, key)
  {
    var all := history + [e];
    assert all[|history|] == e;
    if i :| 0 <= i < |history| && CommitsKey(history[i], key) { assert all[i] == history[i]; }
  }

  // The keys after a replay of commits.
  lemma {:induction false} ReplayedKeys(db0: Db, reqs: map<CallId, Request>, history: seq<Event>, key: string)
    requires CommitsOf(reqs, history) && Replay(db0, history).Some?
    ensures key in Replay(db0, history).value.byKey <==> key in db0.byKey || KeyCommitted(history, key)
  {
    if history != [] {
      var before, e := history[..|history| - 1], history[|history| - 1];
      ReplayedKeys(db0, reqs, before, key);
      ReplayedCommit(Replay(db0, before).value, e);
      assert history == before + [e];
      KeyCommittedSnoc(before, e, key);
    }
  }

  // Each of these commits found its key free of those before it.
  lemma {:induction false} ReplayedWins(db0: Db, reqs: map<CallId, Request>, history: seq<Event>)
    requires CommitsOf(reqs, history) && Replay(db0, history).Some?
    ensures forall i :: 0 <= i < |history| ==> CanWin(db0, reqs, history[i].call)
    ensures forall i, j :: 0 <= i < j < |history| ==> !Rivals(reqs, history[i].call, history[j].call)
  {
    if history != [] {
      var n := |history| - 1;
      var before, e := history[..n], history[n];
      ReplayedWins(db0, reqs, before);
      assert forall i :: 0 <= i < n ==> before[i] == history[i];
      LastWins(db0, reqs, before, e);
    }
  }

  lemma LastWins(db0: Db, reqs: map<CallId, Request>, before: seq<Event>, e: Event)
    requires CommitsOf(reqs, before) && Replay(db0, before).Some? && ReplayEvent(Replay(db0, before).value, e).Some?
    requires e.Committed? && e.call in reqs && reqs[e.call] == e.req
    ensures CanWin(db0, reqs, e.call)
    ensures forall i :: 0 <= i < |before| ==> !Rivals(reqs, before[i].call, e.call)
  {
    ReplayedStock(db0, reqs, before);
    ReplayedCommit(Replay(db0, before).value, e);
    if e.req.key.Some? {
      ReplayedKeys(db0, reqs, before, e.req.key.value);
      assert !KeyCommitted(before, e.req.key.value);
    }
  }

  ghost predicate ReachesJamCreating(db0: Db, pool: nat, reqs: map<CallId, Request>, steps: seq<Step>, t: State) {
    ReachesJam(db0, pool, reqs, steps, t) && CreatesOnly(steps)
  }

  ghost predicate CreatesCanJam(db0: Db, pool: nat, reqs: map<CallId, Request>) {
    exists steps, t :: ReachesJamCreating(db0, pool, reqs, steps, t)
  }

  lemma HistoryIsCommits(db0: Db, reqs: map<CallId, Request>, t: State)
    requires EventsHaveCalls(t) && KeysStay(db0, t) && UsesRequests(t, reqs)
    ensures CommitsOf(reqs, t.history)
  {
    forall i | 0 <= i < |t.history| ensures t.history[i].call in reqs && reqs[t.history[i].call] == t.history[i].req {
      assert EventHasCall(t, t.history[i]);
    }
  }

  lemma CommittersWin(db0: Db, reqs: map<CallId, Request>, t: State)
    requires Replay(db0, t.history) == Some(t.db) && CommitsOf(reqs, t.history) && EventsDistinct(t)
    ensures Winners(db0, reqs, Committers(t.history))
  {
    ReplayedStock(db0, reqs, t.history);
    ReplayedWins(db0, reqs, t.history);
    CommittersAre(reqs, t.history);
    CartIsExact(db0.stock, AllLines(reqs, Committers(t.history)));
  }

  lemma RereaderLost(db0: Db, reqs: map<CallId, Request>, t: State, c: CallId)
    requires Replay(db0, t.history) == Some(t.db) && CommitsOf(reqs, t.history) && EventsHaveCalls(t)
    requires UsesRequests(t, reqs) && Checked(db0, t) && KeysStay(db0, t) && CallsOk(t) && c in Rereaders(t)
    ensures c in Losers(db0, reqs, Committers(t.history))
  {
    assert CallOk(t.db, t.calls[c]) && KeyTrail(db0, t.db, t.calls[c]);
    ReplayedKeys(db0, reqs, t.history, reqs[c].key.value);
    CommittersAre(reqs, t.history);
    var i :| 0 <= i < |t.history| && CommitsKey(t.history[i], reqs[c].key.value);
    assert Committers(t.history)[i] in Committers(t.history) && Rivals(reqs, c, Committers(t.history)[i]);
    NotACommitter(t, c);
  }

  lemma NotACommitter(t: State, c: CallId)
    requires EventsHaveCalls(t) && c in Rereaders(t)
    ensures forall i :: 0 <= i < |t.history| && t.history[i].Committed? ==> t.history[i].call != c
  {
    assert forall i :: 0 <= i < |t.history| ==> EventHasCall(t, t.history[i]);
  }

  lemma JamCreatingNeeds(db0: Db, pool: nat, reqs: map<CallId, Request>, steps: seq<Step>, t: State)
    returns (winners: seq<CallId>)
    requires Valid(db0) && ReachesJamCreating(db0, pool, reqs, steps, t)
    ensures Winners(db0, reqs, winners) && |Losers(db0, reqs, winners)| >= pool
  {
    PoolRunsAreRuns(pool, Start(db0), steps, t);
    RunKeepsChecked(db0, Start(db0), steps, t);
    RunKeepsKeys(db0, Start(db0), steps, t);
    ReachableAnswers(db0, steps, t);
    HistoryIsCommits(db0, reqs, t);
    winners := Committers(t.history);
    CommittersWin(db0, reqs, t);
    forall c | c in Rereaders(t) ensures c in Losers(db0, reqs, winners) { RereaderLost(db0, reqs, t, c); }
    Subset(Rereaders(t), Losers(db0, reqs, winners));
  }

  // The tables once these calls have created their orders.
  ghost predicate Won(db0: Db, reqs: map<CallId, Request>, calls: seq<CallId>, db: Db) {
    && db.users == db0.users && TakeAll(db0.stock, AllLines(reqs, calls)) == Fits(db.stock)
    && (forall k :: k in db.byKey <==> k in db0.byKey || WonKey(reqs, calls, k))
    && (calls != [] ==> db.orders != map[])
  }

  predicate WonKey(reqs: map<CallId, Request>, calls: seq<CallId>, key: string) {
    exists c :: c in calls && c in reqs && reqs[c].key == Some(key)
  }

  lemma FewerLinesFit(stock: Stock, reqs: map<CallId, Request>, calls: seq<CallId>)
    requires Acceptable(stock, AllLines(reqs, calls)) && calls != []
    ensures Acceptable(stock, AllLines(reqs, calls[..|calls| - 1]))
  {
    var (a, b) := (AllLines(reqs, calls[..|calls| - 1]), AllLines(reqs, calls));
    CartIsExact(stock, b);
    CartIsExact(stock, a);
    assert b[..|a|] == a;
    PrefixFits(stock, b, |a|);
  }

  lemma FewerWinners(db0: Db, reqs: map<CallId, Request>, calls: seq<CallId>)
    requires Winners(db0, reqs, calls) && calls != []
    ensures Winners(db0, reqs, calls[..|calls| - 1])
  {
    FewerLinesFit(db0.stock, reqs, calls);
  }

  // The last winner finds its key free and its cart in stock.
  lemma LastCanCreate(db0: Db, reqs: map<CallId, Request>, calls: seq<CallId>, db: Db)
    requires Winners(db0, reqs, calls) && calls != [] && Won(db0, reqs, calls[..|calls| - 1], db)
    ensures var c := calls[|calls| - 1];
            c in reqs && Ready(db, reqs[c]) && KeyFree(db, reqs[c].key) && TakeAll(db.stock, reqs[c].lines).Fits?
  {
    var c, rest := calls[|calls| - 1], calls[..|calls| - 1];
    CartIsExact(db0.stock, AllLines(reqs, calls));
    TakeAllAppend(db0.stock, AllLines(reqs, rest), reqs[c].lines);
    forall d | d in rest ensures !Rivals(reqs, d, c) {
      var i :| 0 <= i < |rest| && calls[i] == d;
    }
    assert forall d :: d in reqs && reqs[c].key.Some? && reqs[d].key == reqs[c].key ==> Rivals(reqs, d, c);
  }

  lemma LastWon(db0: Db, reqs: map<CallId, Request>, calls: seq<CallId>, db: Db, id: OrderId)
    requires calls != [] && Won(db0, reqs, calls[..|calls| - 1], db)
    requires calls[|calls| - 1] in reqs && TakeAll(db.stock, reqs[calls[|calls| - 1]].lines).Fits?
    ensures var req := reqs[calls[|calls| - 1]];
            Won(db0, reqs, calls, InsertOrder(db, req, id, TakeAll(db.stock, req.lines).stock))
  {
    var c, rest := calls[|calls| - 1], calls[..|calls| - 1];
    var after := InsertOrder(db, reqs[c], id, TakeAll(db.stock, reqs[c].lines).stock);
    TakeAllAppend(db0.stock, AllLines(reqs, rest), reqs[c].lines);
    assert calls == rest + [c];
    assert id in after.orders;
  }

  lemma {:induction false} WinAll(
      pool: nat, db0: Db, before: seq<Step>, s: State, reqs: map<CallId, Request>, calls: seq<CallId>)
    returns (steps: seq<Step>, t: State)
    requires Built(pool, db0, before, s) && NoTransactions(s) && Holders(s) == {} && pool > 0 && s.db == db0
    requires Winners(db0, reqs, calls) && UsesRequests(s, reqs) && forall c :: c in calls ==> c !in s.calls
    ensures Built(pool, db0, steps, t) && NoTransactions(t) && Holders(t) == {} && Won(db0, reqs, calls, t.db)
    ensures UsesRequests(t, reqs) && (forall c :: c in s.calls ==> c in t.calls && t.calls[c] == s.calls[c])
    ensures forall c :: c in t.calls ==> c in s.calls || c in calls
    ensures CreatesOnly(before) ==> CreatesOnly(steps)
    decreases |calls|
  {
    if calls == [] {
      steps, t := before, s;
    } else {
      var c, rest := calls[|calls| - 1], calls[..|calls| - 1];
      var u, id;
      FewerWinners(db0, reqs, calls);
      steps, u := WinAll(pool, db0, before, s, reqs, rest);
      LastCanCreate(db0, reqs, calls, u.db);
      assert c !in rest;
      steps, t, id := Creates(pool, db0, steps, u, c, reqs[c]);
      LastWon(db0, reqs, calls, u.db, id);
    }
  }

  lemma LosersFindKeysTaken(db0: Db, t: State, reqs: map<CallId, Request>, calls: seq<CallId>, todo: set<CallId>)
    requires todo <= Losers(db0, reqs, calls) && Won(db0, reqs, calls, t.db) && AllWaiting(t, reqs, todo)
    ensures AllBegun(t, todo) && KeysTaken(t, todo)
  {
    WaitingAreBegun(db0, t, reqs, todo);
    forall c | c in todo ensures !KeyFree(t.db, t.calls[c].req.key) {
      assert Begun(t, reqs, c);
      var d :| d in calls && Rivals(reqs, c, d);
      assert WonKey(reqs, calls, reqs[c].key.value);
    }
  }

  lemma LosersJam(pool: nat, db0: Db, before: seq<Step>, s: State, reqs: map<CallId, Request>, calls: seq<CallId>,
      todo: set<CallId>) returns (steps: seq<Step>, t: State)
    requires Built(pool, db0, before, s) && NoTransactions(s) && Holders(s) == {} && CreatesOnly(before)
    requires Won(db0, reqs, calls, s.db) && AllWaiting(s, reqs, todo) && UsesRequests(s, reqs) && calls != []
    requires todo <= Losers(db0, reqs, calls) && |todo| == pool
    ensures ReachesJamCreating(db0, pool, reqs, steps, t)
  {
    LosersFindKeysTaken(db0, s, reqs, calls, todo);
    var o :| o in s.db.orders;
    steps, t := JamsNow(pool, db0, before, s, reqs, todo, o);
  }

  lemma LosersKeysAreNew(db0: Db, reqs: map<CallId, Request>, calls: seq<CallId>, todo: set<CallId>)
    requires Winners(db0, reqs, calls) && todo <= Losers(db0, reqs, calls)
    ensures KeysFree(db0, reqs, todo) && AllReady(db0, reqs, todo)
  {
    forall c | c in todo ensures KeyFree(db0, reqs[c].key) {
      var d :| d in calls && Rivals(reqs, c, d);
      var i :| 0 <= i < |calls| && calls[i] == d;
      assert CanWin(db0, reqs, calls[i]);
    }
  }

  lemma WinnersJam(db0: Db, pool: nat, reqs: map<CallId, Request>, calls: seq<CallId>)
    requires Valid(db0) && pool > 0 && Winners(db0, reqs, calls) && |Losers(db0, reqs, calls)| >= pool
    ensures CreatesCanJam(db0, pool, reqs)
  {
    var todo := Pick(Losers(db0, reqs, calls), pool);
    LosersKeysAreNew(db0, reqs, calls, todo);
    SomeoneWon(db0, reqs, calls, todo);
    var steps, s, t;
    steps, s := ArriveAll(pool, db0, [], Start(db0), reqs, todo);
    ArrivedUse(Start(db0), s, reqs, todo);
    steps, t := WinAll(pool, db0, steps, s, reqs, calls);
    StillWaiting(s, t, reqs, todo);
    steps, t := LosersJam(pool, db0, steps, t, reqs, calls, todo);
  }

  lemma SomeoneWon(db0: Db, reqs: map<CallId, Request>, calls: seq<CallId>, todo: set<CallId>)
    requires todo <= Losers(db0, reqs, calls) && todo != {}
    ensures calls != []
  {
    var c :| c in todo;
    var d :| d in calls && Rivals(reqs, c, d);
  }

  lemma StillWaiting(s: State, t: State, reqs: map<CallId, Request>, todo: set<CallId>)
    requires AllWaiting(s, reqs, todo) && forall c :: c in s.calls ==> c in t.calls && t.calls[c] == s.calls[c]
    ensures AllWaiting(t, reqs, todo)
  {
    assert forall c :: c in todo ==> Begun(s, reqs, c);
  }

  /** While orders are created only, some run jams the pool if and only if some calls can all create their orders and
      leave enough others, past the same checks, that carry one of their non-empty keys. */
  lemma CreatesJamExactly(db0: Db, pool: nat, reqs: map<CallId, Request>)
    requires Valid(db0) && pool > 0
    ensures CreatesCanJam(db0, pool, reqs) <==>
            exists calls :: Winners(db0, reqs, calls) && |Losers(db0, reqs, calls)| >= pool
  {
    if CreatesCanJam(db0, pool, reqs) {
      var steps, t :| ReachesJamCreating(db0, pool, reqs, steps, t);
      var calls := JamCreatingNeeds(db0, pool, reqs, steps, t);
    }
    if calls :| Winners(db0, reqs, calls) && |Losers(db0, reqs, calls)| >= pool {
      WinnersJam(db0, pool, reqs, calls);
    }
  }

  // Requests that pass the checks before the transaction.
  function AllReadies(db0: Db, reqs: map<CallId, Request>): set<CallId> {
    set c | c in reqs && Ready(db0, reqs[c])
  }

  ghost predicate CanBeFirst(db0: Db, reqs: map<CallId, Request>, c: CallId) {
    c in reqs && Ready(db0, reqs[c]) && Acceptable(db0.stock, reqs[c].lines)
  }

  // With one key only one call wins.
  lemma OneWinner(db0: Db, reqs: map<CallId, Request>, key: string, calls: seq<CallId>)
    requires Winners(db0, reqs, calls) && calls != [] && forall c :: c in reqs ==> reqs[c].key == Some(key)
    ensures |calls| == 1 && AllLines(reqs, calls) == reqs[calls[0]].lines && CanBeFirst(db0, reqs, calls[0])
  {
    assert CanWin(db0, reqs, calls[0]);
    if |calls| > 1 { assert false; }
    assert calls == [calls[0]] && calls[..0] == [];
    assert AllLines(reqs, calls) == [] + reqs[calls[0]].lines;
  }

  /** In particular for calls that share one non-empty key: exactly when the key is new, a call among them can create
      its order, and more of them than the pool has connections pass the checks. */
  lemma OneKeyJamsExactly(db0: Db, pool: nat, reqs: map<CallId, Request>, key: string)
    requires Valid(db0) && pool > 0 && key != "" && forall c :: c in reqs ==> reqs[c].key == Some(key)
    ensures CreatesCanJam(db0, pool, reqs) <==>
            key !in db0.byKey && |AllReadies(db0, reqs)| > pool && exists c :: CanBeFirst(db0, reqs, c)
  {
    CreatesJamExactly(db0, pool, reqs);
    if calls :| Winners(db0, reqs, calls) && |Losers(db0, reqs, calls)| >= pool {
      var todo := Losers(db0, reqs, calls);
      SomeoneWon(db0, reqs, calls, todo);
      OneWinner(db0, reqs, key, calls);
      assert CanWin(db0, reqs, calls[0]) && todo <= AllReadies(db0, reqs) - {calls[0]};
      Subset(todo, AllReadies(db0, reqs) - {calls[0]});
    }
    if c :| key !in db0.byKey && |AllReadies(db0, reqs)| > pool && CanBeFirst(db0, reqs, c) {
      FirstWins(db0, reqs, key, c);
    }
  }

  lemma FirstWins(db0: Db, reqs: map<CallId, Request>, key: string, c: CallId)
    requires key != "" && key !in db0.byKey && (forall d :: d in reqs ==> reqs[d].key == Some(key))
    requires CanBeFirst(db0, reqs, c)
    ensures Winners(db0, reqs, [c]) && Losers(db0, reqs, [c]) == AllReadies(db0, reqs) - {c}
  {
    assert [c][..0] == [] && AllLines(reqs, [c]) == [] + reqs[c].lines;
    assert [] + reqs[c].lines == reqs[c].lines;
    assert c in [c];
    assert forall d :: d in reqs ==> Rivals(reqs, d, c);
  }
}
