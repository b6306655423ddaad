/**
 The order status stream (src/orders/orders-events.service.ts): events are grouped by order; each group drops
 neighbours with equal versions and then throttles to one emission per 300 ms, leading and trailing. One
 subscriber, as in src/realtime/orders.gateway.ts, line 129. The throttle is a timer and one pending slot.
 */
module OrderEvents {
  import opened Wrappers

  type OrderId = nat
  const THROTTLE_MS := 300

  datatype Event = Event(order: OrderId, status: nat, version: int, ts: int)
  datatype Emission = Emission(event: Event, at: int)

  // lastVersion belongs to the counting tap, passed to distinctUntilChanged, pending and timer to the throttle.
  datatype Group = Group(lastVersion: Option<int>, passed: Option<int>, pending: Option<Event>, timer: Option<int>)

  const FRESH := Group(None, None, None, None)

  datatype Input =
    | Publish(event: Event, now: int)
    | TimerFires(order: OrderId, now: int)

  // What one group does with one input: its next state, whether the tap counted a drop, whether a pending event
  // was superseded, and what was emitted.
  datatype Reaction = Reaction(group: Group, counted: bool, superseded: bool, out: Option<Event>)

  // distinctUntilChanged compares with the last event it let through.
  predicate Passes(g: Group, e: Event) {
    g.passed != Some(e.version)
  }

  function OnEvent(g: Group, e: Event, now: int): Reaction {
    var counted := g.lastVersion == Some(e.version);
    var tapped := g.(lastVersion := Some(e.version));
    if !Passes(g, e) then Reaction(tapped, counted, false, None)
    else if g.timer.None? then
      Reaction(tapped.(passed := Some(e.version), pending := None, timer := Some(now + THROTTLE_MS)),
               counted, g.pending.Some?, Some(e))
    else
      Reaction(tapped.(passed := Some(e.version), pending := Some(e)), counted, g.pending.Some?, None)
  }

  function OnTimer(g: Group, now: int): Reaction {
    if g.pending.Some? then
      Reaction(g.(pending := None, timer := Some(now + THROTTLE_MS)), false, false, g.pending)
    else
      Reaction(g.(timer := None), false, false, None)
  }

  // A timer fires at its deadline or later.
  predicate MayFire(g: Group, now: int) {
    g.timer.Some? && g.timer.value <= now
  }

  datatype Stream = Stream(
    groups: map<OrderId, Group>, received: nat, dedupDropped: nat, emitted: nat, superseded: nat, output: seq<Emission>)

  const QUIET := Stream(map[], 0, 0, 0, 0, [])

  function GroupOf(s: Stream, o: OrderId): Group {
    if o in s.groups then s.groups[o] else FRESH
  }

  function OrderOf(input: Input): OrderId {
    if input.Publish? then input.event.order else input.order
  }

  function React(g: Group, input: Input): Reaction {
    if input.Publish? then OnEvent(g, input.event, input.now) else OnTimer(g, input.now)
  }

  function Step(s: Stream, input: Input): Stream {
    var o := OrderOf(input);
    var r := React(GroupOf(s, o), input);
    Stream(s.groups[o := r.group],
           s.received + if input.Publish? then 1 else 0,
           s.dedupDropped + if r.counted then 1 else 0,
           s.emitted + if r.out.Some? then 1 else 0,
           s.superseded + if r.superseded then 1 else 0,
           s.output + if r.out.Some? then [Emission(r.out.value, input.now)] else [])
  }

  function After(inputs: seq<Input>): Stream {
    if inputs == [] then QUIET else Step(After(inputs[..|inputs| - 1]), inputs[|inputs| - 1])
  }

  // Runs of the real world: the clock does not go back and timers fire only when due.
  ghost predicate Legal(inputs: seq<Input>) {
    && (forall i, j :: 0 <= i < j < |inputs| ==> inputs[i].now <= inputs[j].now)
    && (forall i :: 0 <= i < |inputs| && inputs[i].TimerFires? ==>
          MayFire(GroupOf(After(inputs[..i]), inputs[i].order), inputs[i].now))
  }

  /** The service, its operators and the gateway's single subscription. */
  class OrdersEventsService {
    var groups: map<OrderId, Group>
    var received: nat
    var dedupDropped: nat
    var emitted: nat
    var output: seq<Emission>
    ghost var superseded: nat

    constructor ()
      ensures Contents() == QUIET
    {
      groups, received, dedupDropped, emitted, superseded, output := map[], 0, 0, 0, 0, [];
    }

    ghost function Contents(): Stream
      reads this
    {
      Stream(groups, received, dedupDropped, emitted, superseded, output)
    }

    method PublishStatusChanged(event: Event, now: int)
      modifies this
      ensures Contents() == Step(old(Contents()), Publish(event, now))
    {
      received := received + 1;
      var g := if event.order in groups then groups[event.order] else FRESH;
      // tap
      if g.lastVersion == Some(event.version) {
        dedupDropped := dedupDropped + 1;
      }
      g := g.(lastVersion := Some(event.version));
      // distinctUntilChanged
      if Passes(g, event) {
        g := g.(passed := Some(event.version));
        // throttleTime
        superseded := superseded + if g.pending.Some? then 1 else 0;
        g := g.(pending := Some(event));
        if g.timer.None? {
          g := Send(g, event, now);
        }
      }
      groups := groups[event.order := g];
    }

    method TimerFired(order: OrderId, now: int)
      requires order in groups && MayFire(groups[order], now)
      modifies this
      ensures Contents() == Step(old(Contents()), TimerFires(order, now))
    {
      var g := groups[order].(timer := None);
      if g.pending.Some? {
        g := Send(g, g.pending.value, now);
      }
      groups := groups[order := g];
    }

    // Emit the pending event and restart the timer.
    method Send(g: Group, event: Event, now: int) returns (g': Group)
      modifies this`emitted, this`output
      ensures g' == g.(pending := None, timer := Some(now + THROTTLE_MS))
      ensures emitted == old(emitted) + 1 && output == old(output) + [Emission(event, now)]
    {
      emitted := emitted + 1;
      output := output + [Emission(event, now)];
      g' := g.(pending := None, timer := Some(now + THROTTLE_MS));
    }
  }
}
