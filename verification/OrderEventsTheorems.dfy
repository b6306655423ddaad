/**
 What subscribers of the order status stream can rely on.
 */
module OrderEventsTheorems {
  import opened Wrappers
  import opened OrderEvents

  // ---------------------------------------------------------------------------------------------
  // Orders do not influence each other

  function Only(inputs: seq<Input>, o: OrderId): seq<Input> {
    if inputs == [] then []
    else
      var last := inputs[|inputs| - 1];
      Only(inputs[..|inputs| - 1], o) + if OrderOf(last) == o then [last] else []
  }

  function OutputOf(output: seq<Emission>, o: OrderId): seq<Emission> {
    if output == [] then []
    else
      var last := output[|output| - 1];
      OutputOf(output[..|output| - 1], o) + if last.event.order == o then [last] else []
  }

  lemma OutputSnoc(output: seq<Emission>, e: Emission, o: OrderId)
    ensures OutputOf(output + [e], o) == OutputOf(output, o) + if e.event.order == o then [e] else []
  {
    assert (output + [e])[..|output|] == output;
  }

  lemma AfterSnoc(inputs: seq<Input>, input: Input)
    ensures After(inputs + [input]) == Step(After(inputs), input)
  {
    assert (inputs + [input])[..|inputs|] == inputs;
  }

  ghost predicate PendingOwn(s: Stream) {
    forall o :: o in s.groups && s.groups[o].pending.Some? ==> s.groups[o].pending.value.order == o
  }

  lemma {:induction false} PendingIsOwn(inputs: seq<Input>)
    ensures PendingOwn(After(inputs))
    decreases |inputs|
  {
    if inputs != [] { PendingIsOwn(inputs[..|inputs| - 1]); }
  }

  // A step emits for the order of its input only.
  lemma StepOutput(s: Stream, input: Input, o: OrderId)
    requires PendingOwn(s)
    ensures var r := React(GroupOf(s, OrderOf(input)), input);
            OutputOf(Step(s, input).output, o) ==
            OutputOf(s.output, o)
            + if OrderOf(input) == o && r.out.Some? then [Emission(r.out.value, input.now)] else []
  {
    var r := React(GroupOf(s, OrderOf(input)), input);
    if r.out.Some? {
      OutputSnoc(s.output, Emission(r.out.value, input.now), o);
    } else {
      assert s.output + [] == s.output;
    }
  }

  /** What subscribers see of one order, and the state kept for it, are what they would be if that order's events
      were the only ones. */
  lemma {:induction false} StreamsAreIndependent(inputs: seq<Input>, o: OrderId)
    ensures OutputOf(After(inputs).output, o) == After(Only(inputs, o)).output
    ensures GroupOf(After(inputs), o) == GroupOf(After(Only(inputs, o)), o)
    decreases |inputs|
  {
    if inputs != [] {
      var rest, last := inputs[..|inputs| - 1], inputs[|inputs| - 1];
      StreamsAreIndependent(rest, o);
      PendingIsOwn(rest);
      StepOutput(After(rest), last, o);
      if OrderOf(last) == o {
        AfterSnoc(Only(rest, o), last);
      } else {
        assert Only(inputs, o) == Only(rest, o);
      }
    }
  }

  // ---------------------------------------------------------------------------------------------
  // Accounting

  ghost function PendingOrders(groups: map<OrderId, Group>): set<OrderId> {
    set o | o in groups && groups[o].pending.Some?
  }

  // Arrivals that repeat the version of the arrival just before them, within their order.
  function Repeats(inputs: seq<Input>): nat {
    if inputs == [] then 0
    else
      var rest, last := inputs[..|inputs| - 1], inputs[|inputs| - 1];
      Repeats(rest) + if last.Publish? && LastVersion(rest, OrderOf(last)) == Some(last.event.version) then 1 else 0
  }

  function LastVersion(inputs: seq<Input>, o: OrderId): Option<int> {
    if inputs == [] then None
    else
      var last := inputs[|inputs| - 1];
      if last.Publish? && last.event.order == o then Some(last.event.version)
      else LastVersion(inputs[..|inputs| - 1], o)
  }

  lemma {:induction false} TapKnowsLastVersion(inputs: seq<Input>, o: OrderId)
    ensures var g := GroupOf(After(inputs), o);
            g.lastVersion == LastVersion(inputs, o) && g.passed == g.lastVersion
    decreases |inputs|
  {
    if inputs != [] { TapKnowsLastVersion(inputs[..|inputs| - 1], o); }
  }

  /** The tap's counter counts exactly the events distinctUntilChanged drops, and these are exactly the events
      that repeat their order's previous version. */
  lemma {:induction false} DropsAreCounted(inputs: seq<Input>)
    ensures After(inputs).dedupDropped == Repeats(inputs)
    ensures forall e: Event, now: int ::
              OnEvent(GroupOf(After(inputs), e.order), e, now).counted <==> !Passes(GroupOf(After(inputs), e.order), e)
    decreases |inputs|
  {
    forall e: Event ensures var g := GroupOf(After(inputs), e.order); g.passed == g.lastVersion {
      TapKnowsLastVersion(inputs, e.order);
    }
    if inputs != [] {
      var rest, last := inputs[..|inputs| - 1], inputs[|inputs| - 1];
      DropsAreCounted(rest);
      TapKnowsLastVersion(rest, OrderOf(last));
    }
  }

  /** Every received event was dropped as a duplicate, superseded while pending, is pending, or was emitted. */
  lemma {:induction false} EveryEventIsAccountedFor(inputs: seq<Input>)
    ensures var s := After(inputs);
            && s.received == s.dedupDropped + s.superseded + |PendingOrders(s.groups)| + s.emitted
            && s.emitted == |s.output|
    decreases |inputs|
  {
    if inputs == [] {
      assert PendingOrders(QUIET.groups) == {};
    } else {
      var rest, last := inputs[..|inputs| - 1], inputs[|inputs| - 1];
      EveryEventIsAccountedFor(rest);
      TapKnowsLastVersion(rest, OrderOf(last));
      StepAccounts(After(rest), last);
    }
  }

  lemma ReactionAccounts(g: Group, input: Input)
    requires g.passed == g.lastVersion
    ensures var r := React(g, input);
            (if input.Publish? then 1 else 0) + (if g.pending.Some? then 1 else 0)
            == (if r.counted then 1 else 0) + (if r.superseded then 1 else 0)
             + (if r.group.pending.Some? then 1 else 0) + (if r.out.Some? then 1 else 0)
  {
  }

  lemma CardinalitySplit(all: set<OrderId>, o: OrderId)
    ensures |all| == |all - {o}| + if o in all then 1 else 0
  {
    if o in all {
      assert all == (all - {o}) + {o};
    } else {
      assert all == all - {o};
    }
  }

  lemma PendingElsewhere(groups: map<OrderId, Group>, o: OrderId, g: Group)
    ensures PendingOrders(groups[o := g]) - {o} == PendingOrders(groups) - {o}
  {
  }

  lemma PendingCount(groups: map<OrderId, Group>, o: OrderId, g: Group)
    ensures |PendingOrders(groups[o := g])| + (if o in groups && groups[o].pending.Some? then 1 else 0)
         == |PendingOrders(groups)| + if g.pending.Some? then 1 else 0
  {
    CardinalitySplit(PendingOrders(groups), o);
    CardinalitySplit(PendingOrders(groups[o := g]), o);
    PendingElsewhere(groups, o, g);
  }

  lemma StepAccounts(s: Stream, input: Input)
    requires GroupOf(s, OrderOf(input)).passed == GroupOf(s, OrderOf(input)).lastVersion
    ensures var s' := Step(s, input);
            s'.received - s'.dedupDropped - s'.superseded - |PendingOrders(s'.groups)| - s'.emitted
            == s.received - s.dedupDropped - s.superseded - |PendingOrders(s.groups)| - s.emitted
  {
    var o := OrderOf(input);
    ReactionAccounts(GroupOf(s, o), input);
    PendingCount(s.groups, o, React(GroupOf(s, o), input).group);
  }

  // ---------------------------------------------------------------------------------------------
  // One order's stream: timing, freshness, order. By StreamsAreIndependent this is each order's stream.

  function Arrivals(inputs: seq<Input>): seq<Event> {
    if inputs == [] then []
    else
      var last := inputs[|inputs| - 1];
      Arrivals(inputs[..|inputs| - 1]) + if last.Publish? then [last.event] else []
  }

  function Emitted(output: seq<Emission>): seq<Event> {
    seq(|output|, i requires 0 <= i < |output| => output[i].event)
  }

  predicate IsSubsequence<T(==)>(a: seq<T>, b: seq<T>)
    decreases |b|
  {
    if a == [] then true
    else if b == [] then false
    else
      || (a[|a| - 1] == b[|b| - 1] && IsSubsequence(a[..|a| - 1], b[..|b| - 1]))
      || IsSubsequence(a, b[..|b| - 1])
  }

  lemma {:induction false} SubsequenceInit<T>(a: seq<T>, b: seq<T>)
    requires a != [] && IsSubsequence(a, b)
    ensures IsSubsequence(a[..|a| - 1], b)
    decreases |b|
  {
    var init := a[..|a| - 1];
    if init != [] && b != [] {
      if a[|a| - 1] == b[|b| - 1] && IsSubsequence(init, b[..|b| - 1]) {
      } else {
        SubsequenceInit(a, b[..|b| - 1]);
      }
    }
  }

  lemma SubsequenceSkip<T>(a: seq<T>, b: seq<T>, x: T)
    requires IsSubsequence(a, b)
    ensures IsSubsequence(a, b + [x])
  {
    assert (b + [x])[..|b|] == b;
  }

  lemma SubsequenceTake<T>(a: seq<T>, b: seq<T>, x: T)
    requires IsSubsequence(a, b)
    ensures IsSubsequence(a + [x], b + [x])
  {
    assert (b + [x])[..|b|] == b && (a + [x])[..|a|] == a;
  }

  predicate OneOrder(inputs: seq<Input>, o: OrderId) {
    forall i :: 0 <= i < |inputs| ==> OrderOf(inputs[i]) == o
  }

  function WithPending(s: Stream, o: OrderId): seq<Event> {
    var g := GroupOf(s, o);
    Emitted(s.output) + if g.pending.Some? then [g.pending.value] else []
  }

  lemma EmittedSnoc(output: seq<Emission>, e: Emission)
    ensures Emitted(output + [e]) == Emitted(output) + [e.event]
  {
  }

  lemma {:induction false} PendingNeedsTimer(inputs: seq<Input>, o: OrderId)
    requires OneOrder(inputs, o)
    ensures var g := GroupOf(After(inputs), o); g.pending.Some? ==> g.timer.Some?
    decreases |inputs|
  {
    if inputs != [] { PendingNeedsTimer(inputs[..|inputs| - 1], o); }
  }

  // A timer or a duplicate does not change what has been or will be emitted.
  lemma KeptUnchanged(rest: seq<Input>, last: Input, o: OrderId)
    requires OrderOf(last) == o
    requires last.Publish? ==> GroupOf(After(rest), o).passed == Some(last.event.version)
    ensures WithPending(Step(After(rest), last), o) == WithPending(After(rest), o)
  {
    var s, g := After(rest), GroupOf(After(rest), o);
    if last.TimerFires? && g.pending.Some? { EmittedSnoc(s.output, Emission(g.pending.value, last.now)); }
  }

  // A new version takes the pending slot or goes out at once; either way it follows what was emitted.
  lemma KeptGrows(rest: seq<Input>, last: Input, o: OrderId)
    requires OneOrder(rest, o) && OrderOf(last) == o && last.Publish? && Passes(GroupOf(After(rest), o), last.event)
    ensures WithPending(Step(After(rest), last), o) == Emitted(After(rest).output) + [last.event]
  {
    PendingNeedsTimer(rest, o);
    var s := After(rest);
    if GroupOf(s, o).timer.None? { EmittedSnoc(s.output, Emission(last.event, last.now)); }
    assert s.output + [] == s.output;
  }

  lemma EmittedIsKept(s: Stream, o: OrderId, arrived: seq<Event>)
    requires IsSubsequence(WithPending(s, o), arrived)
    ensures IsSubsequence(Emitted(s.output), arrived)
  {
    if GroupOf(s, o).pending.Some? {
      SubsequenceInit(WithPending(s, o), arrived);
      assert WithPending(s, o)[..|s.output|] == Emitted(s.output);
    } else {
      assert WithPending(s, o) == Emitted(s.output);
    }
  }

  lemma {:induction false} KeptIsSubsequence(inputs: seq<Input>, o: OrderId)
    requires OneOrder(inputs, o)
    ensures IsSubsequence(WithPending(After(inputs), o), Arrivals(inputs))
    decreases |inputs|
  {
    if inputs != [] {
      var rest, last := inputs[..|inputs| - 1], inputs[|inputs| - 1];
      KeptIsSubsequence(rest, o);
      var s := After(rest);
      if last.Publish? && Passes(GroupOf(s, o), last.event) {
        KeptGrows(rest, last, o);
        EmittedIsKept(s, o, Arrivals(rest));
        SubsequenceTake(Emitted(s.output), Arrivals(rest), last.event);
      } else {
        KeptUnchanged(rest, last, o);
        if last.Publish? {
          SubsequenceSkip(WithPending(s, o), Arrivals(rest), last.event);
        } else {
          assert Arrivals(inputs) == Arrivals(rest);
        }
      }
    }
  }

  /** Subscribers see some of the order's events, in the order they were published, none invented or repeated. */
  lemma OutputIsSubsequence(inputs: seq<Input>, o: OrderId)
    requires OneOrder(inputs, o)
    ensures IsSubsequence(Emitted(After(inputs).output), Arrivals(inputs))
  {
    KeptIsSubsequence(inputs, o);
    EmittedIsKept(After(inputs), o, Arrivals(inputs));
  }

  ghost predicate Spaced(output: seq<Emission>) {
    forall i :: 0 <= i < |output| - 1 ==> output[i].at + 300 <= output[i + 1].at
  }

  lemma LegalPrefix(inputs: seq<Input>)
    requires inputs != [] && Legal(inputs)
    ensures Legal(inputs[..|inputs| - 1])
  {
    var rest := inputs[..|inputs| - 1];
    forall i | 0 <= i < |rest| && rest[i].TimerFires?
      ensures MayFire(GroupOf(After(rest[..i]), rest[i].order), rest[i].now)
    {
      assert rest[..i] == inputs[..i];
    }
  }

  // While the timer runs it is due 300 ms after the last emission; once it is off, that time has passed.
  ghost predicate Paced(s: Stream, o: OrderId, now: int) {
    var g := GroupOf(s, o);
    if s.output == [] then g.timer.None?
    else
      var due := s.output[|s.output| - 1].at + 300;
      if g.timer.Some? then g.timer.value == due else due <= now
  }

  lemma StepIsPaced(s: Stream, input: Input, o: OrderId, before: int)
    requires OrderOf(input) == o && Paced(s, o, before) && Spaced(s.output) && before <= input.now
    requires input.TimerFires? ==> MayFire(GroupOf(s, o), input.now)
    ensures Paced(Step(s, input), o, input.now) && Spaced(Step(s, input).output)
  {
    var out := React(GroupOf(s, o), input).out;
    if out.Some? {
      SpacedSnoc(s.output, Emission(out.value, input.now));
    } else {
      assert Step(s, input).output == s.output;
    }
  }

  lemma SpacedSnoc(output: seq<Emission>, e: Emission)
    requires Spaced(output) && (output != [] ==> output[|output| - 1].at + 300 <= e.at)
    ensures Spaced(output + [e])
  {
  }

  lemma {:induction false} EmissionsArePaced(inputs: seq<Input>, o: OrderId, now: int)
    requires OneOrder(inputs, o) && Legal(inputs)
    requires inputs != [] ==> inputs[|inputs| - 1].now <= now
    ensures Paced(After(inputs), o, now) && Spaced(After(inputs).output)
    decreases |inputs|
  {
    if inputs != [] {
      var rest, last := inputs[..|inputs| - 1], inputs[|inputs| - 1];
      LegalPrefix(inputs);
      EmissionsArePaced(rest, o, last.now);
      StepIsPaced(After(rest), last, o, last.now);
    }
  }

  lemma EmissionsAreSpaced(inputs: seq<Input>, o: OrderId)
    requires OneOrder(inputs, o) && Legal(inputs)
    ensures Spaced(After(inputs).output)
  {
    EmissionsArePaced(inputs, o, if inputs == [] then 0 else inputs[|inputs| - 1].now);
  }

  /** Emissions for one order are at least 300 ms apart. */
  lemma AtLeast300MsApart(inputs: seq<Input>, o: OrderId, i: nat, j: nat)
    requires OneOrder(inputs, o) && Legal(inputs)
    requires i < j < |After(inputs).output|
    ensures After(inputs).output[i].at + 300 * (j - i) <= After(inputs).output[j].at
    decreases j
  {
    EmissionsAreSpaced(inputs, o);
    if i < j - 1 { AtLeast300MsApart(inputs, o, i, j - 1); }
  }

  // ---------------------------------------------------------------------------------------------
  // When an event is shown

  // Since the last emission, if there was one, a timer fired with nothing to show.
  ghost predicate Quieted(inputs: seq<Input>) {
    After(inputs).output == [] || exists i: nat :: FiresIdly(inputs, i)
  }

  predicate FiresIdly(inputs: seq<Input>, i: nat) {
    i < |inputs| && inputs[i].TimerFires? && After(inputs[..i]).output == After(inputs).output
  }

  lemma FiresIdlyStays(rest: seq<Input>, last: Input, i: nat)
    requires FiresIdly(rest, i) && After(rest + [last]).output == After(rest).output
    ensures FiresIdly(rest + [last], i)
  {
    assert (rest + [last])[..i] == rest[..i];
  }

  lemma FiredIdlyBefore(rest: seq<Input>, last: Input, i: nat)
    requires i < |rest| && FiresIdly(rest + [last], i)
    requires After(rest).output <= After(rest + [last]).output && After(rest[..i]).output <= After(rest).output
    ensures FiresIdly(rest, i)
  {
    assert (rest + [last])[..i] == rest[..i];
  }

  lemma {:induction false} OutputGrows(inputs: seq<Input>, i: nat)
    requires i <= |inputs|
    ensures After(inputs[..i]).output <= After(inputs).output
    decreases |inputs|
  {
    if i == |inputs| {
      assert inputs[..i] == inputs;
    } else {
      assert inputs[..|inputs| - 1][..i] == inputs[..i];
      OutputGrows(inputs[..|inputs| - 1], i);
    }
  }

  lemma {:induction false} TimerIsOffExactly(inputs: seq<Input>, o: OrderId)
    requires OneOrder(inputs, o)
    ensures GroupOf(After(inputs), o).timer.None? <==> Quieted(inputs)
    decreases |inputs|
  {
    if inputs != [] {
      var rest, last := inputs[..|inputs| - 1], inputs[|inputs| - 1];
      assert inputs == rest + [last];
      TimerIsOffExactly(rest, o);
      PendingNeedsTimer(rest, o);
      OutputGrows(inputs, |rest|);
      if After(inputs).output == After(rest).output {
        QuietedStep(rest, last);
      } else {
        NotQuietedBy(rest, last);
      }
    }
  }

  // Without an emission a timer quiets, and a publish leaves things as they are.
  lemma QuietedStep(rest: seq<Input>, last: Input)
    requires After(rest + [last]).output == After(rest).output
    ensures Quieted(rest + [last]) <==> last.TimerFires? || Quieted(rest)
  {
    var inputs := rest + [last];
    assert inputs[..|rest|] == rest;
    if last.TimerFires? { assert FiresIdly(inputs, |rest|); }
    if i: nat :| FiresIdly(rest, i) { FiresIdlyStays(rest, last, i); }
    if i: nat :| FiresIdly(inputs, i) && i < |rest| {
      OutputGrows(rest, i);
      FiredIdlyBefore(rest, last, i);
    }
  }

  lemma NotQuietedBy(rest: seq<Input>, last: Input)
    requires After(rest + [last]).output != After(rest).output && After(rest).output <= After(rest + [last]).output
    ensures !Quieted(rest + [last])
  {
    var inputs := rest + [last];
    forall i: nat | i < |inputs| ensures After(inputs[..i]).output != After(inputs).output {
      assert inputs[..i] == rest[..i];
      OutputGrows(rest, i);
    }
  }

  /** An event of a new version is shown the moment it is published if and only if nothing was shown yet or a timer has
      fired idly since the last showing; otherwise publishing shows nothing. */
  lemma ShownAtOnceExactly(inputs: seq<Input>, o: OrderId, e: Event, now: int)
    requires OneOrder(inputs, o) && e.order == o
    ensures After(inputs + [Publish(e, now)]).output ==
            After(inputs).output +
            if LastVersion(inputs, o) != Some(e.version) && Quieted(inputs) then [Emission(e, now)] else []
  {
    AfterSnoc(inputs, Publish(e, now));
    TimerIsOffExactly(inputs, o);
    TapKnowsLastVersion(inputs, o);
  }

  // Input i published the event, at or after the last emission.
  predicate PublishedSince(inputs: seq<Input>, i: nat, e: Event, output: seq<Emission>) {
    && i < |inputs| && inputs[i].Publish? && inputs[i].event == e
    && output != [] && output[|output| - 1].at <= inputs[i].now
  }

  lemma {:induction false} TimerRunsAfterShowing(inputs: seq<Input>, o: OrderId)
    requires OneOrder(inputs, o)
    ensures GroupOf(After(inputs), o).timer.Some? ==> After(inputs).output != []
    decreases |inputs|
  {
    if inputs != [] {
      TimerRunsAfterShowing(inputs[..|inputs| - 1], o);
      OutputGrows(inputs, |inputs| - 1);
      PendingNeedsTimer(inputs[..|inputs| - 1], o);
    }
  }

  lemma StillSince(rest: seq<Input>, last: Input, i: nat, e: Event, output: seq<Emission>)
    requires PublishedSince(rest, i, e, output)
    ensures PublishedSince(rest + [last], i, e, output)
  {
  }

  // What a step that leaves an event pending did.
  lemma WhoWaits(s: Stream, input: Input, o: OrderId)
    requires OrderOf(input) == o && GroupOf(Step(s, input), o).pending.Some?
    ensures Step(s, input).output == s.output
    ensures if GroupOf(Step(s, input), o).pending == GroupOf(s, o).pending then true
            else input.Publish? && GroupOf(Step(s, input), o).pending == Some(input.event) && GroupOf(s, o).timer.Some?
  {
  }

  lemma {:induction false} PendingIsRecent(inputs: seq<Input>, o: OrderId) returns (i: nat)
    requires OneOrder(inputs, o) && Legal(inputs) && GroupOf(After(inputs), o).pending.Some?
    ensures PublishedSince(inputs, i, GroupOf(After(inputs), o).pending.value, After(inputs).output)
    decreases |inputs|
  {
    var rest, last := inputs[..|inputs| - 1], inputs[|inputs| - 1];
    assert inputs == rest + [last];
    LegalPrefix(inputs);
    WhoWaits(After(rest), last, o);
    if GroupOf(After(inputs), o).pending == GroupOf(After(rest), o).pending {
      i := PendingIsRecent(rest, o);
      StillSince(rest, last, i, GroupOf(After(inputs), o).pending.value, After(inputs).output);
    } else {
      TimerRunsAfterShowing(rest, o);
      LastEmissionIsPast(rest, o, last.now);
      i := |rest|;
    }
  }

  lemma {:induction false} LastEmissionIsPast(inputs: seq<Input>, o: OrderId, now: int)
    requires OneOrder(inputs, o) && Legal(inputs) && forall i :: 0 <= i < |inputs| ==> inputs[i].now <= now
    ensures After(inputs).output != [] ==> After(inputs).output[|After(inputs).output| - 1].at <= now
    decreases |inputs|
  {
    if inputs != [] {
      LegalPrefix(inputs);
      LastEmissionIsPast(inputs[..|inputs| - 1], o, now);
    }
  }

  /** An event that has to wait was published no earlier than the last emission and goes out with the timer, which may
      fire from exactly 300 ms after that emission on: so no later than 300 ms after its publication if timers are
      punctual. It carries the newest version published. */
  lemma PendingGoesOut(inputs: seq<Input>, o: OrderId, now: int)
    requires OneOrder(inputs, o) && Legal(inputs) && GroupOf(After(inputs), o).pending.Some?
    ensures var s, e := After(inputs), GroupOf(After(inputs), o).pending.value;
            && s.output != [] && (MayFire(GroupOf(s, o), now) <==> s.output[|s.output| - 1].at + 300 <= now)
            && After(inputs + [TimerFires(o, now)]).output == s.output + [Emission(e, now)]
            && LastVersion(inputs, o) == Some(e.version)
            && exists i: nat :: PublishedSince(inputs, i, e, s.output)
  {
    var i := PendingIsRecent(inputs, o);
    PendingTimerIsSet(inputs, o);
    assert LastVersion(inputs, o) == Some(GroupOf(After(inputs), o).pending.value.version) by {
      TapKnowsLastVersion(inputs, o);
      PendingHasPassed(inputs, o);
    }
    AfterSnoc(inputs, TimerFires(o, now));
    TimerShowsPending(After(inputs), o, now);
  }

  lemma PendingTimerIsSet(inputs: seq<Input>, o: OrderId)
    requires OneOrder(inputs, o) && Legal(inputs) && GroupOf(After(inputs), o).pending.Some?
    ensures var s := After(inputs);
            s.output != [] && GroupOf(s, o).timer == Some(s.output[|s.output| - 1].at + 300)
  {
    EmissionsArePaced(inputs, o, inputs[|inputs| - 1].now);
    PendingNeedsTimer(inputs, o);
  }

  lemma TimerShowsPending(s: Stream, o: OrderId, now: int)
    requires GroupOf(s, o).pending.Some?
    ensures Step(s, TimerFires(o, now)).output == s.output + [Emission(GroupOf(s, o).pending.value, now)]
  {
  }

  lemma {:induction false} PendingHasPassed(inputs: seq<Input>, o: OrderId)
    requires OneOrder(inputs, o)
    ensures var g := GroupOf(After(inputs), o); g.pending.Some? ==> g.passed == Some(g.pending.value.version)
    decreases |inputs|
  {
    if inputs != [] { PendingHasPassed(inputs[..|inputs| - 1], o); }
  }

  // The pending event has version v, or nothing is pending and the last event sent has.
  predicate Shows(s: Stream, o: OrderId, v: int) {
    var g := GroupOf(s, o);
    if g.pending.Some? then g.pending.value.version == v
    else s.output != [] && s.output[|s.output| - 1].event.version == v
  }

  lemma StepShows(s: Stream, input: Input, o: OrderId)
    requires OrderOf(input) == o
    requires GroupOf(s, o).passed.Some? ==> Shows(s, o, GroupOf(s, o).passed.value)
    ensures var s' := Step(s, input);
            GroupOf(s', o).passed.Some? ==> Shows(s', o, GroupOf(s', o).passed.value)
  {
  }

  lemma {:induction false} PassedIsShown(inputs: seq<Input>, o: OrderId)
    requires OneOrder(inputs, o)
    ensures var s := After(inputs);
            GroupOf(s, o).passed.Some? ==> Shows(s, o, GroupOf(s, o).passed.value)
    decreases |inputs|
  {
    if inputs != [] {
      PassedIsShown(inputs[..|inputs| - 1], o);
      StepShows(After(inputs[..|inputs| - 1]), inputs[|inputs| - 1], o);
    }
  }

  /** Latest value delivered: whenever nothing is pending (in particular once the timer has fired with no new
      input), the last version subscribers saw is the last version published; otherwise the pending one is. */
  lemma LatestIsDelivered(inputs: seq<Input>, o: OrderId)
    requires OneOrder(inputs, o) && Arrivals(inputs) != []
    ensures var s, arrived := After(inputs), Arrivals(inputs);
            var g, newest := GroupOf(s, o), arrived[|arrived| - 1];
            if g.pending.Some? then g.pending.value.version == newest.version
            else s.output != [] && s.output[|s.output| - 1].event.version == newest.version
  {
    PassedIsShown(inputs, o);
    TapKnowsLastVersion(inputs, o);
    LastArrivalHasLastVersion(inputs, o);
  }

  lemma {:induction false} LastArrivalHasLastVersion(inputs: seq<Input>, o: OrderId)
    requires OneOrder(inputs, o) && Arrivals(inputs) != []
    ensures LastVersion(inputs, o) == Some(Arrivals(inputs)[|Arrivals(inputs)| - 1].version)
    decreases |inputs|
  {
    var rest, last := inputs[..|inputs| - 1], inputs[|inputs| - 1];
    if !last.Publish? {
      assert Arrivals(inputs) == Arrivals(rest);
      LastArrivalHasLastVersion(rest, o);
    }
  }

  lemma {:induction false} NoArrivalsNoState(inputs: seq<Input>, o: OrderId)
    requires OneOrder(inputs, o) && Arrivals(inputs) == []
    ensures GroupOf(After(inputs), o) == FRESH && After(inputs).output == []
    decreases |inputs|
  {
    if inputs != [] { NoArrivalsNoState(inputs[..|inputs| - 1], o); }
  }

  ghost predicate Rising(events: seq<Event>) {
    forall i, j :: 0 <= i < j < |events| ==> events[i].version <= events[j].version
  }

  ghost predicate StrictlyRising(events: seq<Event>) {
    forall i, j :: 0 <= i < j < |events| ==> events[i].version < events[j].version
  }

  lemma StrictSnoc(events: seq<Event>, e: Event)
    requires StrictlyRising(events) && (events != [] ==> events[|events| - 1].version < e.version)
    ensures StrictlyRising(events + [e])
  {
  }

  lemma {:induction false} KeptRises(inputs: seq<Input>, o: OrderId)
    requires OneOrder(inputs, o) && Rising(Arrivals(inputs))
    ensures StrictlyRising(WithPending(After(inputs), o))
    decreases |inputs|
  {
    if inputs != [] {
      var rest, last := inputs[..|inputs| - 1], inputs[|inputs| - 1];
      assert Rising(Arrivals(rest)) by {
        forall i, j | 0 <= i < j < |Arrivals(rest)| ensures Arrivals(rest)[i].version <= Arrivals(rest)[j].version {
          assert Arrivals(inputs)[i] == Arrivals(rest)[i] && Arrivals(inputs)[j] == Arrivals(rest)[j];
        }
      }
      KeptRises(rest, o);
      if last.Publish? && GroupOf(After(rest), o).passed != Some(last.event.version) {
        NewVersionIsAbove(inputs, o);
        var s := After(rest);
        var before := Emitted(s.output);
        assert WithPending(s, o)[..|before|] == before;
        StrictSnoc(before, last.event);
        KeptGrows(rest, last, o);
      } else {
        KeptUnchanged(rest, last, o);
      }
    }
  }

  lemma NewVersionIsAbove(inputs: seq<Input>, o: OrderId)
    requires inputs != [] && OneOrder(inputs, o) && Rising(Arrivals(inputs)) && inputs[|inputs| - 1].Publish?
    requires GroupOf(After(inputs[..|inputs| - 1]), o).passed != Some(inputs[|inputs| - 1].event.version)
    requires StrictlyRising(WithPending(After(inputs[..|inputs| - 1]), o))
    ensures var s := After(inputs[..|inputs| - 1]);
            s.output != [] ==> s.output[|s.output| - 1].event.version < inputs[|inputs| - 1].event.version
  {
    var rest, last := inputs[..|inputs| - 1], inputs[|inputs| - 1];
    var s, g := After(rest), GroupOf(After(rest), o);
    if s.output != [] {
      if Arrivals(rest) == [] { NoArrivalsNoState(rest, o); }
      LatestIsDelivered(rest, o);
      LastArrivalHasLastVersion(rest, o);
      TapKnowsLastVersion(rest, o);
      var newest := Arrivals(rest)[|Arrivals(rest)| - 1];
      assert Arrivals(inputs)[|Arrivals(rest)| - 1] == newest && Arrivals(inputs)[|Arrivals(rest)|] == last.event;
      assert newest.version < last.event.version;
      var kept := WithPending(s, o);
      assert kept[|s.output| - 1] == s.output[|s.output| - 1].event;
      if g.pending.Some? { assert kept[|s.output|] == g.pending.value; }
    }
  }

  /** If versions do not go back, subscribers see strictly increasing versions. */
  lemma VersionsStrictlyIncrease(inputs: seq<Input>, o: OrderId)
    requires OneOrder(inputs, o) && Rising(Arrivals(inputs))
    ensures StrictlyRising(Emitted(After(inputs).output))
  {
    KeptRises(inputs, o);
    var s := After(inputs);
    assert WithPending(s, o)[..|s.output|] == Emitted(s.output);
  }

  // ---------------------------------------------------------------------------------------------
  // When a version is shown again. Duplicates are dropped before the throttle, so neighbours in the output need not
  // have been neighbours in the input.

  // Events with equal versions stand together.
  ghost predicate Contiguous(events: seq<Event>) {
    forall i, j, k :: 0 <= i < j < k < |events| && events[i].version == events[k].version ==>
      events[j].version == events[i].version
  }

  ghost predicate Distinct(events: seq<Event>) {
    forall i, j :: 0 <= i < j < |events| ==> events[i].version != events[j].version
  }

  lemma {:induction false} SubsequenceMembers<T>(a: seq<T>, b: seq<T>)
    requires IsSubsequence(a, b)
    ensures forall x :: x in a ==> x in b
    decreases |b|
  {
    if a != [] {
      var rest, last := b[..|b| - 1], a[|a| - 1];
      if last == b[|b| - 1] && IsSubsequence(a[..|a| - 1], rest) {
        SubsequenceMembers(a[..|a| - 1], rest);
        assert a == a[..|a| - 1] + [last];
      } else {
        SubsequenceMembers(a, rest);
      }
    }
  }

  lemma ContiguousInit(events: seq<Event>, e: Event)
    requires Contiguous(events + [e])
    ensures Contiguous(events)
    ensures events != [] && events[|events| - 1].version != e.version ==>
              forall x :: x in events ==> x.version != e.version
  {
    var all := events + [e];
    assert forall i :: 0 <= i < |events| ==> all[i] == events[i];
    forall i, j, k | 0 <= i < j < k < |events| && events[i].version == events[k].version
      ensures events[j].version == events[i].version
    {
      assert all[j].version == all[i].version;
    }
    if events != [] && events[|events| - 1].version != e.version {
      forall x | x in events ensures x.version != e.version {
        var i :| 0 <= i < |events| && events[i] == x;
        assert all[i] == x && all[|events|] == e && all[|events| - 1] == events[|events| - 1];
      }
    }
  }

  lemma DistinctSnoc(events: seq<Event>, e: Event)
    requires Distinct(events) && forall x :: x in events ==> x.version != e.version
    ensures Distinct(events + [e])
  {
  }

  // What passes the filter in a contiguous stream has a version never published before.
  lemma PassingIsNew(rest: seq<Input>, last: Input, o: OrderId)
    requires OneOrder(rest, o) && last.Publish? && last.event.order == o
    requires Contiguous(Arrivals(rest) + [last.event]) && Passes(GroupOf(After(rest), o), last.event)
    ensures forall x :: x in Emitted(After(rest).output) ==> x.version != last.event.version
  {
    OutputIsSubsequence(rest, o);
    SubsequenceMembers(Emitted(After(rest).output), Arrivals(rest));
    ContiguousInit(Arrivals(rest), last.event);
    if Arrivals(rest) != [] {
      TapKnowsLastVersion(rest, o);
      LastArrivalHasLastVersion(rest, o);
    }
  }

  lemma {:induction false} KeptIsDistinct(inputs: seq<Input>, o: OrderId)
    requires OneOrder(inputs, o) && Contiguous(Arrivals(inputs))
    ensures Distinct(WithPending(After(inputs), o))
    decreases |inputs|
  {
    if inputs != [] {
      var rest, last := inputs[..|inputs| - 1], inputs[|inputs| - 1];
      if last.Publish? {
        ContiguousInit(Arrivals(rest), last.event);
      } else {
        assert Arrivals(inputs) == Arrivals(rest);
      }
      KeptIsDistinct(rest, o);
      if last.Publish? && Passes(GroupOf(After(rest), o), last.event) {
        var before := Emitted(After(rest).output);
        assert WithPending(After(rest), o)[..|before|] == before;
        PassingIsNew(rest, last, o);
        DistinctSnoc(before, last.event);
        KeptGrows(rest, last, o);
      } else {
        KeptUnchanged(rest, last, o);
      }
    }
  }

  lemma ContiguousShowsOnce(inputs: seq<Input>, o: OrderId)
    requires OneOrder(inputs, o) && Contiguous(Arrivals(inputs))
    ensures Distinct(Emitted(After(inputs).output))
  {
    KeptIsDistinct(inputs, o);
    var s := After(inputs);
    assert WithPending(s, o)[..|s.output|] == Emitted(s.output);
  }

  // The other half builds a timing. A run so far of one order's stream, with the time of its last input.
  ghost predicate RunOf(inputs: seq<Input>, o: OrderId, events: seq<Event>, now: int) {
    && OneOrder(inputs, o) && Legal(inputs) && Arrivals(inputs) == events
    && forall i :: 0 <= i < |inputs| ==> inputs[i].now <= now
  }

  lemma Extend(inputs: seq<Input>, o: OrderId, events: seq<Event>, now: int, input: Input)
    requires RunOf(inputs, o, events, now) && OrderOf(input) == o && now <= input.now
    requires input.TimerFires? ==> MayFire(GroupOf(After(inputs), o), input.now)
    ensures RunOf(inputs + [input], o, events + (if input.Publish? then [input.event] else []), input.now)
    ensures After(inputs + [input]) == Step(After(inputs), input)
    ensures After(inputs).output <= After(inputs + [input]).output
  {
    LegalSnoc(inputs, input);
    AfterSnoc(inputs, input);
    assert (inputs + [input])[..|inputs|] == inputs;
    assert events + [] == events;
  }

  // Publishing sets the filter's memory, and while the timer runs neither the timer nor the output change.
  predicate Quietly(s: Stream, t: Stream, o: OrderId) {
    GroupOf(s, o).timer.Some? ==> GroupOf(t, o).timer == GroupOf(s, o).timer && t.output == s.output
  }

  lemma PublishStep(s: Stream, o: OrderId, e: Event, now: int)
    requires e.order == o
    ensures var t := Step(s, Publish(e, now));
            GroupOf(t, o).passed == Some(e.version) && Quietly(s, t, o)
  {
    assert s.output + [] == s.output;
  }

  function LastOr(passed: Option<int>, events: seq<Event>): Option<int> {
    if events == [] then passed else Some(events[|events| - 1].version)
  }

  lemma PublishOne(inputs: seq<Input>, o: OrderId, events: seq<Event>, e: Event, now: int) returns (longer: seq<Input>)
    requires RunOf(inputs, o, events, now) && e.order == o
    ensures RunOf(longer, o, events + [e], now) && After(inputs).output <= After(longer).output
    ensures GroupOf(After(longer), o).passed == Some(e.version) && Quietly(After(inputs), After(longer), o)
  {
    Extend(inputs, o, events, now, Publish(e, now));
    PublishStep(After(inputs), o, e, now);
    longer := inputs + [Publish(e, now)];
  }

  lemma {:induction false} PublishAll(inputs: seq<Input>, o: OrderId, events: seq<Event>, more: seq<Event>, now: int)
    returns (longer: seq<Input>)
    requires RunOf(inputs, o, events, now) && forall e :: e in more ==> e.order == o
    ensures RunOf(longer, o, events + more, now) && After(inputs).output <= After(longer).output
    ensures GroupOf(After(longer), o).passed == LastOr(GroupOf(After(inputs), o).passed, more)
    ensures Quietly(After(inputs), After(longer), o)
    decreases |more|
  {
    if more == [] {
      longer := inputs;
      assert events + more == events;
    } else {
      var first, last := more[..|more| - 1], more[|more| - 1];
      var most := PublishAll(inputs, o, events, first, now);
      longer := PublishOne(most, o, events + first, last, now);
      assert events + first + [last] == events + more;
    }
  }

  // Let the timer run out.
  lemma Drain(inputs: seq<Input>, o: OrderId, events: seq<Event>, now: int) returns (longer: seq<Input>, later: int)
    requires RunOf(inputs, o, events, now)
    ensures RunOf(longer, o, events, later) && GroupOf(After(longer), o).timer.None?
    ensures GroupOf(After(longer), o).passed == GroupOf(After(inputs), o).passed
  {
    longer, later := FireOnce(inputs, o, events, now);
    if GroupOf(After(longer), o).timer.Some? {
      longer, later := FireOnce(longer, o, events, later);
    }
  }

  lemma FireOnce(inputs: seq<Input>, o: OrderId, events: seq<Event>, now: int) returns (longer: seq<Input>, later: int)
    requires RunOf(inputs, o, events, now)
    ensures RunOf(longer, o, events, later)
    ensures var before, after := GroupOf(After(inputs), o), GroupOf(After(longer), o);
            && after.passed == before.passed && (before.timer.None? ==> after == before)
            && (before.timer.Some? ==> after.pending.None? && (before.pending.None? ==> after.timer.None?))
  {
    var g := GroupOf(After(inputs), o);
    if g.timer.None? {
      longer, later := inputs, now;
    } else {
      later := if g.timer.value <= now then now else g.timer.value;
      Extend(inputs, o, events, now, TimerFires(o, later));
      assert events + [] == events;
      longer := inputs + [TimerFires(o, later)];
    }
  }

  lemma {:induction false} Earliest(events: seq<Event>, v: int, lo: nat, hi: nat) returns (k: nat)
    requires lo <= hi < |events| && events[hi].version == v
    ensures lo <= k <= hi && events[k].version == v && forall j :: lo <= j < k ==> events[j].version != v
    decreases hi - lo
  {
    if events[lo].version == v {
      k := lo;
    } else {
      k := Earliest(events, v, lo + 1, hi);
    }
  }

  predicate ShowsAgain(output: seq<Emission>) {
    exists p :: 0 <= p < |output| - 1 && output[p].event.version == output[p + 1].event.version
  }

  // An event that passes with the timer off goes out at once; one that passes with it on waits in the slot.
  lemma GoesOut(s: Stream, o: OrderId, e: Event, now: int)
    requires e.order == o && GroupOf(s, o).timer.None? && Passes(GroupOf(s, o), e)
    ensures var t := Step(s, Publish(e, now));
            t.output == s.output + [Emission(e, now)] && GroupOf(t, o).timer == Some(now + THROTTLE_MS)
  {
  }

  lemma TakesSlot(s: Stream, o: OrderId, e: Event, now: int)
    requires e.order == o && GroupOf(s, o).timer.Some? && Passes(GroupOf(s, o), e)
    ensures GroupOf(Step(s, Publish(e, now)), o).pending == Some(e)
  {
  }

  lemma TimerSends(s: Stream, o: OrderId, now: int)
    requires GroupOf(s, o).pending.Some?
    ensures Step(s, TimerFires(o, now)).output == s.output + [Emission(GroupOf(s, o).pending.value, now)]
  {
  }

  lemma SendFirst(inputs: seq<Input>, o: OrderId, events: seq<Event>, i: nat, now: int) returns (longer: seq<Input>)
    requires i < |events| && RunOf(inputs, o, events[..i], now) && events[i].order == o
    requires GroupOf(After(inputs), o).timer.None? && Passes(GroupOf(After(inputs), o), events[i])
    ensures RunOf(longer, o, events[..i + 1], now)
    ensures After(longer).output == After(inputs).output + [Emission(events[i], now)]
    ensures GroupOf(After(longer), o).timer == Some(now + THROTTLE_MS)
  {
    longer := inputs + [Publish(events[i], now)];
    Extend(inputs, o, events[..i], now, Publish(events[i], now));
    assert events[..i] + [events[i]] == events[..i + 1];
    GoesOut(After(inputs), o, events[i], now);
  }

  lemma FillWindow(inputs: seq<Input>, o: OrderId, events: seq<Event>, i: nat, k: nat, now: int)
    returns (longer: seq<Input>)
    requires i + 1 < k < |events| && RunOf(inputs, o, events[..i + 1], now) && forall e :: e in events ==> e.order == o
    requires GroupOf(After(inputs), o).timer.Some?
    ensures RunOf(longer, o, events[..k], now) && After(longer).output == After(inputs).output
    ensures GroupOf(After(longer), o).timer == GroupOf(After(inputs), o).timer
    ensures GroupOf(After(longer), o).passed == Some(events[k - 1].version)
  {
    longer := PublishAll(inputs, o, events[..i + 1], events[i + 1..k], now);
    assert events[..i + 1] + events[i + 1..k] == events[..k];
  }

  // Event i goes out at once, the events up to k come within the window, and the timer sends k next.
  lemma ShowTwice(inputs: seq<Input>, o: OrderId, events: seq<Event>, i: nat, k: nat, now: int)
    returns (longer: seq<Input>)
    requires i + 1 < k < |events| && RunOf(inputs, o, events[..i], now) && forall e :: e in events ==> e.order == o
    requires events[k - 1].version != events[k].version
    requires GroupOf(After(inputs), o).timer.None? && Passes(GroupOf(After(inputs), o), events[i])
    ensures RunOf(longer, o, events[..k + 1], now + THROTTLE_MS)
    ensures After(longer).output ==
            After(inputs).output + [Emission(events[i], now)] + [Emission(events[k], now + THROTTLE_MS)]
  {
    longer := SendFirst(inputs, o, events, i, now);
    longer := FillWindow(longer, o, events, i, k, now);
    longer := WaitAndSend(longer, o, events, k, now);
  }

  lemma WaitAndSend(inputs: seq<Input>, o: OrderId, events: seq<Event>, k: nat, now: int) returns (longer: seq<Input>)
    requires k < |events| && RunOf(inputs, o, events[..k], now) && events[k].order == o
    requires GroupOf(After(inputs), o).timer == Some(now + THROTTLE_MS) && Passes(GroupOf(After(inputs), o), events[k])
    ensures RunOf(longer, o, events[..k + 1], now + THROTTLE_MS)
    ensures After(longer).output == After(inputs).output + [Emission(events[k], now + THROTTLE_MS)]
  {
    longer := Waits(inputs, o, events, k, now);
    TimerSends(After(longer), o, now + THROTTLE_MS);
    Extend(longer, o, events[..k + 1], now, TimerFires(o, now + THROTTLE_MS));
    assert events[..k + 1] + [] == events[..k + 1];
    longer := longer + [TimerFires(o, now + THROTTLE_MS)];
  }

  lemma Waits(inputs: seq<Input>, o: OrderId, events: seq<Event>, k: nat, now: int) returns (longer: seq<Input>)
    requires k < |events| && RunOf(inputs, o, events[..k], now) && events[k].order == o
    requires GroupOf(After(inputs), o).timer == Some(now + THROTTLE_MS) && Passes(GroupOf(After(inputs), o), events[k])
    ensures RunOf(longer, o, events[..k + 1], now) && After(longer).output == After(inputs).output
    ensures GroupOf(After(longer), o).pending == Some(events[k])
    ensures GroupOf(After(longer), o).timer == Some(now + THROTTLE_MS)
  {
    Extend(inputs, o, events[..k], now, Publish(events[k], now));
    PublishStep(After(inputs), o, events[k], now);
    TakesSlot(After(inputs), o, events[k], now);
    assert events[..k] + [events[k]] == events[..k + 1];
    longer := inputs + [Publish(events[k], now)];
  }

  // The events before i are over and the timer is off.
  lemma StartsQuiet(events: seq<Event>, o: OrderId, i: nat) returns (inputs: seq<Input>, now: int)
    requires i < |events| && forall e :: e in events ==> e.order == o
    requires i == 0 || events[i - 1].version != events[i].version
    ensures RunOf(inputs, o, events[..i], now)
    ensures GroupOf(After(inputs), o).timer.None? && Passes(GroupOf(After(inputs), o), events[i])
  {
    inputs := PublishAll([], o, [], events[..i], 0);
    assert [] + events[..i] == events[..i];
    inputs, now := Drain(inputs, o, events[..i], 0);
  }

  lemma PrefixShowsAgain(shown: seq<Emission>, output: seq<Emission>, p: nat)
    requires shown <= output && p + 1 < |shown| && shown[p].event.version == shown[p + 1].event.version
    ensures ShowsAgain(output)
  {
    assert output[p] == shown[p] && output[p + 1] == shown[p + 1];
  }

  lemma RepeatRun(events: seq<Event>, o: OrderId, i: nat, k: nat) returns (inputs: seq<Input>)
    requires i + 1 < k < |events| && forall e :: e in events ==> e.order == o
    requires events[i].version == events[k].version && events[k - 1].version != events[k].version
    requires i == 0 || events[i - 1].version != events[i].version
    ensures Timing(inputs, o, events) && ShowsAgain(After(inputs).output)
  {
    var quiet, now := StartsQuiet(events, o, i);
    var twice := ShowTwice(quiet, o, events, i, k, now);
    inputs := PublishAll(twice, o, events[..k + 1], events[k + 1..], now + THROTTLE_MS);
    assert events[..k + 1] + events[k + 1..] == events;
    PrefixShowsAgain(After(twice).output, After(inputs).output, |After(quiet).output|);
  }

  ghost predicate Timing(inputs: seq<Input>, o: OrderId, events: seq<Event>) {
    OneOrder(inputs, o) && Legal(inputs) && Arrivals(inputs) == events
  }

  /** For any list of events published for an order: no timing shows subscribers a version twice in a row (or twice at
      all) if and only if events with equal versions are contiguous in the list. */
  lemma ShownAgainExactly(events: seq<Event>, o: OrderId)
    requires forall e :: e in events ==> e.order == o
    ensures (forall inputs :: Timing(inputs, o, events) ==> !ShowsAgain(After(inputs).output)) <==> Contiguous(events)
    ensures (forall inputs :: Timing(inputs, o, events) ==> Distinct(Emitted(After(inputs).output))) <==>
            Contiguous(events)
  {
    if Contiguous(events) {
      forall inputs | Timing(inputs, o, events)
        ensures Distinct(Emitted(After(inputs).output)) && !ShowsAgain(After(inputs).output)
      {
        ContiguousShowsOnce(inputs, o);
        DistinctShowsNoneAgain(After(inputs).output);
      }
    } else {
      var x, j, y :| 0 <= x < j < y < |events| && events[x].version == events[y].version
                     && events[j].version != events[x].version;
      var i := Earliest(events, events[x].version, 0, x);
      var k := Earliest(events, events[x].version, j, y);
      var inputs := RepeatRun(events, o, i, k);
      DistinctShowsNoneAgain(After(inputs).output);
    }
  }

  lemma DistinctShowsNoneAgain(output: seq<Emission>)
    ensures Distinct(Emitted(output)) ==> !ShowsAgain(output)
  {
    var events := Emitted(output);
    forall p | 0 <= p < |output| - 1 && Distinct(events)
      ensures output[p].event.version != output[p + 1].event.version
    {
      assert events[p].version != events[p + 1].version;
    }
  }

  // ---------------------------------------------------------------------------------------------
  // The same for every order of a mixed stream

  lemma {:induction false} OnlyIsOneOrder(inputs: seq<Input>, o: OrderId)
    ensures OneOrder(Only(inputs, o), o)
    decreases |inputs|
  {
    if inputs != [] { OnlyIsOneOrder(inputs[..|inputs| - 1], o); }
  }

  lemma {:induction false} OnlyIsEarlier(inputs: seq<Input>, o: OrderId, now: int)
    requires forall i :: 0 <= i < |inputs| ==> inputs[i].now <= now
    ensures forall i :: 0 <= i < |Only(inputs, o)| ==> Only(inputs, o)[i].now <= now
    decreases |inputs|
  {
    if inputs != [] { OnlyIsEarlier(inputs[..|inputs| - 1], o, now); }
  }

  lemma LegalSnoc(inputs: seq<Input>, last: Input)
    requires Legal(inputs)
    requires forall i :: 0 <= i < |inputs| ==> inputs[i].now <= last.now
    requires last.TimerFires? ==> MayFire(GroupOf(After(inputs), last.order), last.now)
    ensures Legal(inputs + [last])
  {
    var all := inputs + [last];
    forall i | 0 <= i < |all| && all[i].TimerFires?
      ensures MayFire(GroupOf(After(all[..i]), all[i].order), all[i].now)
    {
      assert all[..i] == inputs[..i];
      assert inputs[..|inputs|] == inputs;
    }
  }

  lemma {:induction false} OnlyIsLegal(inputs: seq<Input>, o: OrderId)
    requires Legal(inputs)
    ensures Legal(Only(inputs, o))
    decreases |inputs|
  {
    if inputs != [] {
      var rest, last := inputs[..|inputs| - 1], inputs[|inputs| - 1];
      LegalPrefix(inputs);
      OnlyIsLegal(rest, o);
      if OrderOf(last) == o {
        OnlyIsEarlier(rest, o, last.now);
        StreamsAreIndependent(rest, o);
        LegalSnoc(Only(rest, o), last);
      } else {
        assert Only(inputs, o) == Only(rest, o);
      }
    }
  }

  // What subscribers see of one order, given the events published for it and the state kept for it.
  ghost predicate GoodStream(seen: seq<Emission>, own: seq<Event>, g: Group) {
    && IsSubsequence(Emitted(seen), own)
    && Spaced(seen)
    && (own != [] && g.pending.None? ==> seen != [] && seen[|seen| - 1].event.version == own[|own| - 1].version)
    && (own != [] && g.pending.Some? ==> g.timer.Some? && g.pending.value.version == own[|own| - 1].version)
    && (Rising(own) ==> StrictlyRising(Emitted(seen)))
    && (Contiguous(own) ==> Distinct(Emitted(seen)))
  }

  lemma OneOrdersStream(inputs: seq<Input>, o: OrderId)
    requires OneOrder(inputs, o) && Legal(inputs)
    ensures GoodStream(After(inputs).output, Arrivals(inputs), GroupOf(After(inputs), o))
  {
    OutputIsSubsequence(inputs, o);
    EmissionsAreSpaced(inputs, o);
    PendingNeedsTimer(inputs, o);
    if Arrivals(inputs) != [] { LatestIsDelivered(inputs, o); }
    if Rising(Arrivals(inputs)) { VersionsStrictlyIncrease(inputs, o); }
    if Contiguous(Arrivals(inputs)) { ContiguousShowsOnce(inputs, o); }
  }

  /** In any stream of many orders, subscribers see of each order: a subsequence of its events, spaced by at least
      300 ms, ending with its newest version unless that is still pending (and then the timer runs), strictly
      increasing in version if its events were published with non-decreasing versions, and showing no version twice if
      equal versions were published together. */
  lemma EachOrdersStream(inputs: seq<Input>, o: OrderId)
    requires Legal(inputs)
    ensures GoodStream(OutputOf(After(inputs).output, o), Arrivals(Only(inputs, o)), GroupOf(After(inputs), o))
  {
    OnlyIsOneOrder(inputs, o);
    OnlyIsLegal(inputs, o);
    StreamsAreIndependent(inputs, o);
    OneOrdersStream(Only(inputs, o), o);
  }
}
