/**
 Exponential backoff: computeRetryDelayMs of the orders worker (src/orders-worker/orders-worker.service.ts,
 lines 191-195) and its positive-integer settings. Doubling is exact in the source's floating point until it
 overflows to Infinity, where the cap applies, so exact integers say what the source computes.
 */
module Backoff {
  function Pow2(n: nat): nat {
    if n == 0 then 1 else 2 * Pow2(n - 1)
  }

  function Min(a: int, b: int): int {
    if a <= b then a else b
  }

  function DelayMs(base: nat, cap: nat, nextAttempt: int): int {
    Min(base * Pow2(if nextAttempt - 1 > 0 then nextAttempt - 1 else 0), cap)
  }

  // The delays before attempts 1, ..., n.
  function TotalDelay(base: nat, cap: nat, n: nat): int {
    if n == 0 then 0 else TotalDelay(base, cap, n - 1) + DelayMs(base, cap, n)
  }

  lemma {:induction false} Pow2Grows(m: nat, n: nat)
    requires m <= n
    ensures 1 <= Pow2(m) <= Pow2(n)
    decreases n
  {
    if m < n { Pow2Grows(m, n - 1); } else if n > 0 { Pow2Grows(m - 1, n - 1); }
  }

  lemma MulGrows(base: nat, x: nat, y: nat)
    requires x <= y
    ensures base * x <= base * y
  {
  }

  /** Delays never shrink from one attempt to a later one, never exceed the cap, and once at the cap stay there. */
  lemma DelaysAreMonotone(base: nat, cap: nat, i: int, j: int)
    requires i <= j
    ensures 0 <= DelayMs(base, cap, i) <= DelayMs(base, cap, j) <= cap
    ensures DelayMs(base, cap, i) == cap ==> DelayMs(base, cap, j) == cap
  {
    var x, y := if i - 1 > 0 then i - 1 else 0, if j - 1 > 0 then j - 1 else 0;
    Pow2Grows(x, y);
    MulGrows(base, Pow2(x), Pow2(y));
  }

  /** A message retried up to attempt n has waited at most the geometric sum, and at most n caps. */
  lemma {:induction false} TotalDelayBound(base: nat, cap: nat, n: nat)
    ensures TotalDelay(base, cap, n) <= base * (Pow2(n) - 1)
    ensures TotalDelay(base, cap, n) <= n * cap
  {
    if n > 0 {
      TotalDelayBound(base, cap, n - 1);
      GeometricStep(base, n);
      assert (n - 1) * cap + cap == n * cap;
    }
  }

  /** The first delay is the base and each next one twice the one before, up to the cap. */
  lemma DelaysDouble(base: nat, cap: nat, n: int)
    requires n >= 1
    ensures DelayMs(base, cap, 1) == if base <= cap then base else cap
    ensures DelayMs(base, cap, n + 1) ==
            if 2 * DelayMs(base, cap, n) <= cap then 2 * DelayMs(base, cap, n) else cap
  {
    assert base * Pow2(n) == 2 * (base * Pow2(n - 1)) by { assert Pow2(n) == 2 * Pow2(n - 1); }
    assert Pow2(0) == 1;
  }

  /** The delays sum to the whole geometric sum if and only if the cap was not exceeded on the way. */
  lemma TotalDelayExactly(base: nat, cap: nat, n: nat)
    requires n >= 1
    ensures TotalDelay(base, cap, n) == base * (Pow2(n) - 1) <==> base * Pow2(n - 1) <= cap
  {
    TotalDelayBound(base, cap, n - 1);
    GeometricStep(base, n);
    if base * Pow2(n - 1) <= cap { UncappedTotal(base, cap, n); }
  }

  lemma GeometricStep(base: nat, n: nat)
    requires n >= 1
    ensures base * (Pow2(n) - 1) == base * (Pow2(n - 1) - 1) + base * Pow2(n - 1)
  {
    calc {
      base * (Pow2(n - 1) - 1) + base * Pow2(n - 1);
      base * (Pow2(n - 1) - 1 + Pow2(n - 1));
      base * (Pow2(n) - 1);
    }
  }

  lemma {:induction false} UncappedTotal(base: nat, cap: nat, n: nat)
    requires n >= 1 && base * Pow2(n - 1) <= cap
    ensures TotalDelay(base, cap, n) == base * (Pow2(n) - 1)
    decreases n
  {
    GeometricStep(base, n);
    if n > 1 {
      Pow2Grows(n - 2, n - 1);
      MulGrows(base, Pow2(n - 2), Pow2(n - 1));
      UncappedTotal(base, cap, n - 1);
    } else {
      assert TotalDelay(base, cap, 0) == 0 && Pow2(0) == 1;
    }
  }

  // Number(value): a finite number, or not one (missing, malformed, infinite)
  datatype Setting = NotANumber | Numeric(value: real)

  // The setting names this positive integer.
  predicate Names(setting: Setting, n: nat) {
    n > 0 && setting == Numeric(n as real)
  }

  /** The positive integer the setting names, if there is one; otherwise the fallback. */
  function ParsePositiveInt(setting: Setting, fallback: nat): (r: nat)
    requires fallback > 0
    ensures r > 0
    ensures Names(setting, r) || (r == fallback && forall n :: !Names(setting, n))
  {
    if setting.Numeric? && setting.value > 0.0 && setting.value.Floor as real == setting.value
    then setting.value.Floor
    else fallback
  }
}
