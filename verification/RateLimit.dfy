/**
 The subscribe rate limiter of the realtime gateway (src/realtime/orders.gateway.ts, lines 240-256): a pruned
 sliding-window log, against the whole-history counter it stands for.
 */
module RateLimit {
  const WINDOW_MS := 3000
  const MAX_CALLS := 5

  // Entries still inside the window at time `now`, oldest first.
  function Recent(calls: seq<int>, now: int): seq<int> {
    if calls == [] then []
    else
      var rest, last := calls[..|calls| - 1], calls[|calls| - 1];
      Recent(rest, now) + if now - last < WINDOW_MS then [last] else []
  }

  // One call: the new log, and whether the call is let through.
  function Limit(log: seq<int>, now: int): (seq<int>, bool) {
    var kept := Recent(log, now);
    if |kept| >= MAX_CALLS then (kept, false) else (kept + [now], true)
  }

  class RealtimeClient {
    var subscribeCalls: seq<int>

    constructor ()
      ensures subscribeCalls == []
    {
      subscribeCalls := [];
    }

    // handleConnection, once the token is verified
    method Authenticated()
      modifies this
      ensures subscribeCalls == []
    {
      subscribeCalls := [];
    }

    method AssertRateLimit(now: int) returns (ok: bool)
      modifies this
      ensures (subscribeCalls, ok) == Limit(old(subscribeCalls), now)
    {
      var kept: seq<int> := [];
      var i := 0;
      while i < |subscribeCalls|
        invariant 0 <= i <= |subscribeCalls|
        invariant subscribeCalls == old(subscribeCalls)
        invariant kept == Recent(subscribeCalls[..i], now)
      {
        assert subscribeCalls[..i + 1][..i] == subscribeCalls[..i];
        if now - subscribeCalls[i] < WINDOW_MS {
          kept := kept + [subscribeCalls[i]];
        }
        i := i + 1;
      }
      assert subscribeCalls[..i] == subscribeCalls;
      subscribeCalls := kept;
      if |subscribeCalls| >= MAX_CALLS {
        return false;
      }
      subscribeCalls := subscribeCalls + [now];
      return true;
    }
  }

  // ---------------------------------------------------------------------------------------------
  // A run of calls at the given times, on the pruned log

  function LogAfter(times: seq<int>): seq<int> {
    if times == [] then [] else Limit(LogAfter(times[..|times| - 1]), times[|times| - 1]).0
  }

  function Accepts(times: seq<int>): bool
    requires times != []
  {
    Limit(LogAfter(times[..|times| - 1]), times[|times| - 1]).1
  }

  // ---------------------------------------------------------------------------------------------
  // The reference: keep every accepted call for ever and count those in the window

  function History(times: seq<int>): seq<int> {
    if times == [] then []
    else
      var before, now := History(times[..|times| - 1]), times[|times| - 1];
      before + if |Recent(before, now)| < MAX_CALLS then [now] else []
  }

  ghost predicate Ascending(times: seq<int>) {
    forall i, j :: 0 <= i < j < |times| ==> times[i] <= times[j]
  }

  lemma RecentSnoc(calls: seq<int>, c: int, now: int)
    ensures Recent(calls + [c], now) == Recent(calls, now) + if now - c < WINDOW_MS then [c] else []
  {
    assert (calls + [c])[..|calls|] == calls;
  }

  // ---------------------------------------------------------------------------------------------
  // When the pruned log stands for the history. Calls are named by their index in `times`.

  // The whole-history counter accepts call a.
  predicate HistoryAccepts(times: seq<int>, a: nat)
    requires a < |times|
  {
    |Recent(History(times[..a]), times[a])| < MAX_CALLS
  }

  ghost function AcceptedCalls(times: seq<int>): set<nat> {
    set a | 0 <= a < |times| && HistoryAccepts(times, a)
  }

  // At none of the readings after a and before n was call a outside the window.
  predicate Stays(times: seq<int>, a: nat, n: nat)
    requires a < n <= |times|
  {
    forall m :: a < m < n ==> times[m] - times[a] < WINDOW_MS
  }

  // Of the first j calls, those accepted that stayed in the window up to n, and those that are in it at reading n.
  function Kept(times: seq<int>, accepted: set<nat>, j: nat, n: nat): seq<int>
    requires j <= n <= |times|
  {
    if j == 0 then []
    else Kept(times, accepted, j - 1, n) + if j - 1 in accepted && Stays(times, j - 1, n) then [times[j - 1]] else []
  }

  function Visible(times: seq<int>, accepted: set<nat>, j: nat, n: nat): seq<int>
    requires j <= n < |times|
  {
    if j == 0 then []
    else
      Visible(times, accepted, j - 1, n)
      + if j - 1 in accepted && times[n] - times[j - 1] < WINDOW_MS then [times[j - 1]] else []
  }

  // At call n the log shows the entries the whole history would.
  predicate SameAt(times: seq<int>, n: nat)
    requires n < |times|
  {
    Recent(LogAfter(times[..n]), times[n]) == Recent(History(times[..n]), times[n])
  }

  // Of the first j calls, every accepted one that is in the window at reading n has stayed in it.
  predicate AllStay(times: seq<int>, accepted: set<nat>, j: nat, n: nat)
    requires j <= n < |times|
  {
    forall a :: 0 <= a < j && a in accepted && times[n] - times[a] < WINDOW_MS ==> Stays(times, a, n)
  }

  // No accepted call that is in the window at reading n was outside it at an earlier reading.
  ghost predicate NoneReturns(times: seq<int>, n: nat)
    requires n < |times|
  {
    AllStay(times, AcceptedCalls(times), n, n)
  }

  lemma StaysStep(times: seq<int>, a: nat, n: nat)
    requires a < n < |times|
    ensures Stays(times, a, n + 1) <==> Stays(times, a, n) && times[n] - times[a] < WINDOW_MS
  {
  }

  lemma AllStayStep(times: seq<int>, accepted: set<nat>, j: nat, n: nat)
    requires 0 < j <= n < |times|
    ensures AllStay(times, accepted, j, n) <==>
            && AllStay(times, accepted, j - 1, n)
            && (j - 1 in accepted && times[n] - times[j - 1] < WINDOW_MS ==> Stays(times, j - 1, n))
  {
  }

  // Two sequences built side by side, the first never taking what the second does not.
  lemma TakeFewer(kept: seq<int>, all: seq<int>, t: int, takes: bool, sees: bool, same: bool)
    requires |kept| <= |all| && (kept == all <==> same) && (|kept| == |all| ==> same) && (takes ==> sees)
    ensures var kept', all' := kept + (if takes then [t] else []), all + (if sees then [t] else []);
            && |kept'| <= |all'| && (kept' == all' <==> same && (sees ==> takes))
            && (|kept'| == |all'| ==> same && (sees ==> takes))
  {
    if takes { assert (kept + [t])[..|kept|] == kept && (all + [t])[..|all|] == all; }
  }

  lemma {:induction false} KeptIsVisible(times: seq<int>, accepted: set<nat>, j: nat, n: nat)
    requires j <= n < |times|
    ensures var kept, all := Kept(times, accepted, j, n + 1), Visible(times, accepted, j, n);
            && |kept| <= |all| && (kept == all <==> AllStay(times, accepted, j, n))
            && (|kept| == |all| ==> AllStay(times, accepted, j, n))
    decreases j
  {
    if j > 0 {
      KeptIsVisible(times, accepted, j - 1, n);
      AllStayStep(times, accepted, j, n);
      StaysStep(times, j - 1, n);
      TakeFewer(Kept(times, accepted, j - 1, n + 1), Visible(times, accepted, j - 1, n), times[j - 1],
                j - 1 in accepted && Stays(times, j - 1, n + 1),
                j - 1 in accepted && times[n] - times[j - 1] < WINDOW_MS, AllStay(times, accepted, j - 1, n));
    }
  }

  lemma {:induction false} KeptShrinks(times: seq<int>, accepted: set<nat>, j: nat, n: nat)
    requires j <= n < |times|
    ensures Recent(Kept(times, accepted, j, n), times[n]) == Kept(times, accepted, j, n + 1)
    decreases j
  {
    if j > 0 {
      KeptShrinks(times, accepted, j - 1, n);
      RecentSnoc(Kept(times, accepted, j - 1, n), times[j - 1], times[n]);
      StaysStep(times, j - 1, n);
      assert Kept(times, accepted, j - 1, n) + [] == Kept(times, accepted, j - 1, n);
    }
  }

  lemma RecentTakes(calls: seq<int>, c: int, takes: bool, now: int)
    ensures Recent(calls + (if takes then [c] else []), now) ==
            Recent(calls, now) + if takes && now - c < WINDOW_MS then [c] else []
  {
    RecentSnoc(calls, c, now);
    assert calls + [] == calls && Recent(calls, now) + [] == Recent(calls, now);
  }

  lemma HistorySnoc(times: seq<int>, j: nat)
    requires 0 < j <= |times|
    ensures History(times[..j]) ==
            History(times[..j - 1]) + if j - 1 in AcceptedCalls(times) then [times[j - 1]] else []
  {
    assert times[..j][..j - 1] == times[..j - 1];
  }

  lemma {:induction false} HistoryIsVisible(times: seq<int>, j: nat, n: nat)
    requires j <= n < |times|
    ensures Recent(History(times[..j]), times[n]) == Visible(times, AcceptedCalls(times), j, n)
    decreases j
  {
    if j > 0 {
      HistoryIsVisible(times, j - 1, n);
      HistorySnoc(times, j);
      RecentTakes(History(times[..j - 1]), times[j - 1], j - 1 in AcceptedCalls(times), times[n]);
    }
  }

  lemma LogStep(times: seq<int>, n: nat)
    requires n < |times| && LogAfter(times[..n]) == Kept(times, AcceptedCalls(times), n, n) && SameAt(times, n)
    ensures LogAfter(times[..n + 1]) == Kept(times, AcceptedCalls(times), n + 1, n + 1)
  {
    assert times[..n + 1][..n] == times[..n];
    KeptShrinks(times, AcceptedCalls(times), n, n);
    assert Stays(times, n, n + 1);
  }

  lemma {:induction false} LogIsKept(times: seq<int>, n: nat)
    requires n <= |times| && forall m :: 0 <= m < n ==> SameAt(times, m)
    ensures LogAfter(times[..n]) == Kept(times, AcceptedCalls(times), n, n)
    decreases n
  {
    if n > 0 {
      LogIsKept(times, n - 1);
      LogStep(times, n - 1);
    }
  }

  lemma SameExactlyIfNoneReturns(times: seq<int>, n: nat)
    requires n < |times| && forall m :: 0 <= m < n ==> SameAt(times, m)
    ensures SameAt(times, n) <==> NoneReturns(times, n)
  {
    LogIsKept(times, n);
    KeptShrinks(times, AcceptedCalls(times), n, n);
    HistoryIsVisible(times, n, n);
    KeptIsVisible(times, AcceptedCalls(times), n, n);
  }

  lemma {:induction false} NoReturnsMeansSame(times: seq<int>, n: nat)
    requires n <= |times| && forall m :: 0 <= m < n ==> NoneReturns(times, m)
    ensures forall m :: 0 <= m < n ==> SameAt(times, m)
    decreases n
  {
    if n > 0 {
      NoReturnsMeansSame(times, n - 1);
      SameExactlyIfNoneReturns(times, n - 1);
    }
  }

  /** For any clock: the pruned log shows the entries the whole history would, at every call, if and only if no
      accepted call that was outside the window at one reading is back inside it at a later one. */
  lemma LogIsExactly(times: seq<int>)
    ensures (forall n :: 0 <= n < |times| ==> SameAt(times, n)) <==>
            (forall n :: 0 <= n < |times| ==> NoneReturns(times, n))
  {
    if forall n :: 0 <= n < |times| ==> SameAt(times, n) {
      forall n | 0 <= n < |times| ensures NoneReturns(times, n) { SameExactlyIfNoneReturns(times, n); }
    }
    if forall n :: 0 <= n < |times| ==> NoneReturns(times, n) {
      NoReturnsMeansSame(times, |times|);
    }
  }

  lemma {:induction false} RecentIsShorter(calls: seq<int>, now: int)
    ensures |Recent(calls, now)| <= |calls|
  {
    if calls != [] { RecentIsShorter(calls[..|calls| - 1], now); }
  }

  /** The log never holds more than five entries, whatever the clock does. */
  lemma {:induction false} LogIsBounded(times: seq<int>)
    ensures |LogAfter(times)| <= 5
  {
    if times != [] {
      LogIsBounded(times[..|times| - 1]);
      RecentIsShorter(LogAfter(times[..|times| - 1]), times[|times| - 1]);
    }
  }

  // Accepted calls in the half-open window of 3000 ms that starts at `from`.
  function InWindow(calls: seq<int>, from: int): nat {
    if calls == [] then 0
    else InWindow(calls[..|calls| - 1], from) + if from <= calls[|calls| - 1] < from + 3000 then 1 else 0
  }

  lemma InWindowSnoc(calls: seq<int>, c: int, from: int)
    ensures InWindow(calls + [c], from) == InWindow(calls, from) + if from <= c < from + 3000 then 1 else 0
  {
    assert (calls + [c])[..|calls|] == calls;
  }

  lemma {:induction false} WindowSeesRecent(calls: seq<int>, from: int, now: int)
    requires from <= now < from + 3000
    requires forall i :: 0 <= i < |calls| ==> calls[i] <= now
    ensures InWindow(calls, from) <= |Recent(calls, now)|
    decreases |calls|
  {
    if calls != [] {
      WindowSeesRecent(calls[..|calls| - 1], from, now);
    }
  }

  lemma AscendingInit(times: seq<int>, now: int)
    requires Ascending(times + [now])
    ensures Ascending(times) && forall i :: 0 <= i < |times| ==> times[i] <= now
  {
    var all := times + [now];
    assert forall i :: 0 <= i < |times| ==> all[i] == times[i];
    assert all[|times|] == now;
  }

  lemma {:induction false} HistoryBounded(times: seq<int>, now: int)
    requires Ascending(times + [now])
    ensures forall i :: 0 <= i < |History(times)| ==> History(times)[i] <= now
    decreases |times|
  {
    if times != [] {
      var rest, t := times[..|times| - 1], times[|times| - 1];
      AscendingInit(times, now);
      assert rest + [t] == times;
      HistoryBounded(rest, t);
    }
  }

  lemma {:induction false} RecentIsInWindow(calls: seq<int>, now: int)
    requires forall i :: 0 <= i < |calls| ==> calls[i] <= now
    ensures |Recent(calls, now)| == InWindow(calls, now - 2999)
  {
    if calls != [] { RecentIsInWindow(calls[..|calls| - 1], now); }
  }

  lemma LogShowsHistory(times: seq<int>)
    requires times != [] && Ascending(times)
    ensures Accepts(times) <==> HistoryAccepts(times, |times| - 1)
  {
    forall n | 0 <= n < |times| ensures NoneReturns(times, n) {}
    LogIsExactly(times);
    assert SameAt(times, |times| - 1);
  }

  lemma HistoryCounts(before: seq<int>, now: int)
    requires Ascending(before + [now])
    ensures |Recent(History(before), now)| == InWindow(History(before), now - 2999)
  {
    HistoryBounded(before, now);
    RecentIsInWindow(History(before), now);
  }

  /** For any non-decreasing clock the limiter lets a call through exactly if fewer than five calls were let through in
      the 3000 ms up to and with now, and the history is those it let through. */
  lemma PrunedLogIsExact(before: seq<int>, now: int)
    requires Ascending(before + [now])
    ensures Accepts(before + [now]) <==> InWindow(History(before), now - 2999) < 5
    ensures History(before + [now]) == History(before) + if Accepts(before + [now]) then [now] else []
  {
    LogShowsHistory(before + [now]);
    HistoryCounts(before, now);
    assert (before + [now])[..|before|] == before;
  }

  /** No window of 3000 ms, wherever it starts, contains more than five accepted calls. */
  lemma {:induction false} AtMostFivePerWindow(times: seq<int>, from: int)
    requires Ascending(times)
    ensures InWindow(History(times), from) <= 5
    decreases |times|
  {
    if times != [] {
      var rest, now := times[..|times| - 1], times[|times| - 1];
      assert rest + [now] == times;
      AtMostFivePerWindow(rest, from);
      HistoryBounded(rest, now);
      if from <= now < from + 3000 {
        WindowSeesRecent(History(rest), from, now);
      }
      InWindowSnoc(History(rest), now, from);
      assert History(rest) + [] == History(rest);
    }
  }

  lemma {:induction false} RecentAll(calls: seq<int>, now: int)
    requires forall i :: 0 <= i < |calls| ==> now - calls[i] < WINDOW_MS
    ensures Recent(calls, now) == calls
  {
    if calls != [] {
      var rest, last := calls[..|calls| - 1], calls[|calls| - 1];
      assert now - last < WINDOW_MS;
      RecentAll(rest, now);
      assert rest + [last] == calls;
    }
  }

  lemma {:induction false} RecentNone(calls: seq<int>, now: int)
    requires forall i :: 0 <= i < |calls| ==> now - calls[i] >= WINDOW_MS
    ensures Recent(calls, now) == []
  {
    if calls != [] { RecentNone(calls[..|calls| - 1], now); }
  }

  lemma {:induction false} FirstCallsPass(times: seq<int>)
    requires |times| <= MAX_CALLS && forall i :: 0 <= i < |times| ==> times[i] == 0
    ensures LogAfter(times) == times && History(times) == times
  {
    if times != [] {
      var rest := times[..|times| - 1];
      FirstCallsPass(rest);
      RecentAll(rest, 0);
    }
  }

  lemma LaterCallPrunes(zeros: seq<int>)
    requires |zeros| == 5 && forall i :: 0 <= i < |zeros| ==> zeros[i] == 0
    ensures LogAfter(zeros + [3000]) == [3000] && History(zeros + [3000]) == zeros + [3000]
  {
    FirstCallsPass(zeros);
    RecentNone(zeros, 3000);
    assert (zeros + [3000])[..|zeros|] == zeros;
  }

  /** A clock that goes back breaks it: after five calls at time 0, a call at 3000 prunes them, and a sixth call
      at time 0 is let through although the history shows five in its window. */
  lemma BackwardClockForgets(zeros: seq<int>)
    requires |zeros| == 5 && forall i :: 0 <= i < |zeros| ==> zeros[i] == 0
    ensures Accepts(zeros + [3000] + [0]) && |Recent(History(zeros + [3000]), 0)| > 5
  {
    var six := zeros + [3000];
    LaterCallPrunes(zeros);
    assert (six + [0])[..|six|] == six;
    RecentAll([3000], 0);
    RecentAll(six, 0);
  }
}
