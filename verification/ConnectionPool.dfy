/**
 The connection pool under the create calls of one process. A call takes a connection for its transaction and keeps it
 until the finally block (src/orders/order.service.ts, lines 75-77 and 143-145); its key look-ups and the user query go
 through repositories and take one of their own for a moment. In particular the look-up after a unique violation
 (lines 133-136) asks for a second connection while the call still holds its first.
 */
module ConnectionPool {
  import opened OrderStore
  import opened CreateRuns

  predicate Holds(pc: Pc) {
    pc.Opened? || pc.InTx? || pc.LookAgain?
  }

  function Holders(s: State): set<CallId> {
    set c | c in s.calls && Holds(s.calls[c].pc)
  }

  // The call's next step has to be given a connection by the pool.
  predicate AsksPool(call: Call) {
    match call.pc
    case LookUpKey => HasKey(call.req.key)
    case Validate => call.req.lines != []
    case Begin => true
    case LookAgain => true
    case _ => false
  }

  predicate TakesConnection(s: State, step: Step) {
    (step.Lookup? || step.Check? || step.Connect? || step.Reread?) && step.c in s.calls && AsksPool(s.calls[step.c])
  }

  /** The step is enabled, and a connection is free if it needs one. */
  ghost predicate Allowed(pool: nat, s: State, step: Step) {
    Enabled(s, step) && (TakesConnection(s, step) ==> |Holders(s)| < pool)
  }

  ghost predicate PoolRuns(pool: nat, s: State, steps: seq<Step>, t: State)
    decreases |steps|
  {
    if steps == [] then s == t
    else Allowed(pool, s, steps[0]) && PoolRuns(pool, Next(s, steps[0]), steps[1..], t)
  }

  // So what holds of all runs holds of these.
  lemma {:induction false} PoolRunsAreRuns(pool: nat, s: State, steps: seq<Step>, t: State)
    requires PoolRuns(pool, s, steps, t)
    ensures Runs(s, steps, t)
    decreases |steps|
  {
    if steps != [] { PoolRunsAreRuns(pool, Next(s, steps[0]), steps[1..], t); }
  }

  lemma {:induction false} PoolSnoc(pool: nat, s: State, steps: seq<Step>, t: State, step: Step)
    requires PoolRuns(pool, s, steps, t) && Allowed(pool, t, step)
    ensures PoolRuns(pool, s, steps + [step], Next(t, step))
    decreases |steps|
  {
    if steps == [] {
      assert PoolRuns(pool, Next(t, step), [], Next(t, step));
    } else {
      PoolSnoc(pool, Next(s, steps[0]), steps[1..], t, step);
      assert (steps + [step])[1..] == steps[1..] + [step];
    }
  }

  lemma Subset(a: set<CallId>, b: set<CallId>)
    requires a <= b
    ensures |a| <= |b|
  {
    assert b == a + (b - a);
  }

  lemma OnlyConnectTakesOne(s: State, step: Step, c: CallId)
    requires Enabled(s, step) && c in Holders(Next(s, step))
    ensures c in Holders(s) || (step.Connect? && c == step.c)
  {
    StepMovesOneCall(s, step);
  }

  lemma StepKeepsBound(pool: nat, s: State, step: Step)
    requires Allowed(pool, s, step) && |Holders(s)| <= pool
    ensures |Holders(Next(s, step))| <= pool
  {
    forall c | c in Holders(Next(s, step)) ensures c in Holders(s) || (step.Connect? && c == step.c) {
      OnlyConnectTakesOne(s, step, c);
    }
    Subset(Holders(Next(s, step)), if step.Connect? then Holders(s) + {step.c} else Holders(s));
  }

  /** Never more connections in use than there are. */
  lemma {:induction false} HoldersAreBounded(pool: nat, s: State, steps: seq<Step>, t: State)
    requires PoolRuns(pool, s, steps, t) && |Holders(s)| <= pool
    ensures |Holders(t)| <= pool
    decreases |steps|
  {
    if steps != [] {
      StepKeepsBound(pool, s, steps[0]);
      HoldersAreBounded(pool, Next(s, steps[0]), steps[1..], t);
    }
  }
}
