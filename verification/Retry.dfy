/** Full-jitter backoff and the bounded retry loop of `send_with_retry`. The results of
    the sends and the random draws are parameters. */
module Retry {
  import opened Breaker
  import opened Outcome

  function Pow2(n: nat): (p: nat)
    ensures p >= 1
  {
    if n == 0 then 1 else 2 * Pow2(n - 1)
  }

  /** `base * 2^n`, by doubling. */
  function Doubled(base: nat, n: nat): nat {
    if n == 0 then base else 2 * Doubled(base, n - 1)
  }

  /** The integer part of `base / 2^n`, by halving. */
  function Halved(base: nat, n: nat): nat {
    if n == 0 then base else Halved(base, n - 1) / 2
  }

  lemma {:induction false} DoubledIsProduct(base: nat, n: nat)
    ensures Doubled(base, n) == base * Pow2(n)
  {
    if n > 0 {
      DoubledIsProduct(base, n - 1);
    }
  }

  lemma {:induction false} DoubledMonotone(base: nat, m: nat, n: nat)
    requires m <= n
    ensures Doubled(base, m) <= Doubled(base, n)
    decreases n - m
  {
    if m < n {
      DoubledMonotone(base, m + 1, n);
    }
  }

  function Min(a: nat, b: nat): nat {
    if a < b then a else b
  }

  const I32_LIMIT: nat := 0x8000_0000

  /** From this exponent on, two to that power is infinite in an f64. */
  const F64_OVERFLOW: nat := 1024

  /** The largest delay of an attempt, as computed: the attempt number is cast to an
      i32, so it turns negative from 2^31 on, and zero times an infinite power is not a
      number, of which the minimum with the cap is the cap. */
  function Ceiling(attempt: u32, base: nat, cap: nat): nat {
    if attempt == 0 || cap == 0 then 0
    else if attempt >= I32_LIMIT then Min(Halved(base, U32_LIMIT - attempt), cap)
    else if base == 0 && attempt >= F64_OVERFLOW then cap
    else Min(Doubled(base, attempt), cap)
  }

  /** The documented ceiling. */
  function Documented(attempt: nat, base: nat, cap: nat): nat {
    Min(Doubled(base, attempt), cap)
  }

  /** Integers up to this one are exact in an f64. */
  const F64_EXACT: nat := 0x20_0000_0000_0000

  lemma {:induction false} DoubledThree(base: nat, n: nat)
    ensures Doubled(base, n + 3) == 8 * Doubled(base, n)
  {
    assert Doubled(base, n + 2) == 2 * Doubled(base, n + 1);
    assert Doubled(base, n + 1) == 2 * Doubled(base, n);
  }

  lemma {:induction false} DoubledTen(base: nat, n: nat)
    ensures Doubled(base, n + 10) == 1024 * Doubled(base, n)
  {
    DoubledThree(base, n);
    DoubledThree(base, n + 3);
    DoubledThree(base, n + 6);
  }

  lemma {:induction false} DoubledAtLeast(base: nat, n: nat)
    requires base >= 1 && n >= 53
    ensures Doubled(base, n) >= F64_EXACT
  {
    DoubledMonotone(base, 53, n);
    DoubledTen(base, 0);
    DoubledTen(base, 10);
    DoubledTen(base, 20);
    DoubledTen(base, 30);
    DoubledTen(base, 40);
    DoubledThree(base, 50);
  }

  lemma {:induction false} DoubledZero(n: nat)
    ensures Doubled(0, n) == 0 && Halved(0, n) == 0
  {
    if n > 0 {
      DoubledZero(n - 1);
    }
  }

  /** The computed ceiling is the documented one exactly on the attempts where neither
      the cast nor the overflow matters. */
  lemma CeilingExact(attempt: u32, base: nat, cap: nat)
    requires attempt >= 1 && cap <= F64_EXACT
    ensures Ceiling(attempt, base, cap) == Documented(attempt, base, cap) <==>
              || cap == 0
              || (attempt < I32_LIMIT && (base > 0 || attempt < F64_OVERFLOW))
              || (attempt >= I32_LIMIT && (base == 0 || cap <= Halved(base, U32_LIMIT - attempt)))
  {
    if base == 0 {
      DoubledZero(attempt);
      DoubledZero(U32_LIMIT - attempt);
    } else if attempt >= I32_LIMIT {
      DoubledAtLeast(base, attempt);
    }
  }

  lemma {:induction false} HalvedToNothing(n: nat)
    requires n >= 1
    ensures Halved(1, n) == 0
  {
    if n > 1 {
      HalvedToNothing(n - 1);
    }
  }

  /** Two attempts whose ceiling is not the documented one: the first whose number turns
      negative, and the first whose power is infinite, for a zero base. */
  lemma CeilingFails()
    ensures Ceiling(I32_LIMIT, 1, 1) == 0 && Documented(I32_LIMIT, 1, 1) == 1
    ensures Ceiling(F64_OVERFLOW, 0, 1) == 1 && Documented(F64_OVERFLOW, 0, 1) == 0
  {
    HalvedToNothing(U32_LIMIT - I32_LIMIT);
    DoubledAtLeast(1, I32_LIMIT);
    DoubledZero(F64_OVERFLOW);
  }

  /** The ceilings never decrease with the attempt, below the cast limit. */
  lemma CeilingMonotone(m: u32, n: u32, base: nat, cap: nat)
    requires base >= 1 && m <= n < I32_LIMIT
    ensures Ceiling(m, base, cap) <= Ceiling(n, base, cap) <= cap
  {
    DoubledMonotone(base, m, n);
  }

  function Sum(s: seq<nat>): nat {
    if s == [] then 0 else Sum(s[..|s| - 1]) + s[|s| - 1]
  }

  predicate SleepsBelow(sleeps: seq<nat>, base: nat, cap: nat) {
    |sleeps| < U32_LIMIT &&
    forall i :: 0 <= i < |sleeps| ==> sleeps[i] <= Ceiling(i + 1, base, cap)
  }

  /** Delays within their ceilings stay within the linear bound ... */
  lemma {:induction false} LinearSleep(sleeps: seq<nat>, base: nat, cap: nat)
    requires SleepsBelow(sleeps, base, cap)
    ensures Sum(sleeps) <= |sleeps| * cap
  {
    var n := |sleeps|;
    if n > 0 {
      LinearSleep(sleeps[..n - 1], base, cap);
      assert sleeps[n - 1] <= cap;
      OneMore(n - 1, cap);
    }
  }

  lemma OneMore(n: nat, cap: nat)
    ensures (n + 1) * cap == n * cap + cap
  {
  }

  /** ... and within the geometric one, `base * (2^(n+1) - 2)`. */
  lemma {:induction false} GeometricSleep(sleeps: seq<nat>, base: nat, cap: nat)
    requires SleepsBelow(sleeps, base, cap) && base >= 1 && |sleeps| < I32_LIMIT
    ensures Sum(sleeps) <= Doubled(base, |sleeps| + 1) - 2 * base
  {
    var n := |sleeps|;
    if n > 0 {
      GeometricSleep(sleeps[..n - 1], base, cap);
      assert sleeps[n - 1] <= Ceiling(n, base, cap);
    } else {
      assert Doubled(base, 1) == 2 * base;
    }
  }

  lemma Scale(m: nat, n: nat, k: nat)
    requires m <= n
    ensures m * k <= n * k
  {
  }

  /** Both bounds, for at most `max` delays. */
  lemma {:induction false} TotalSleep(sleeps: seq<nat>, max: nat, base: nat, cap: nat)
    requires SleepsBelow(sleeps, base, cap) && |sleeps| <= max
    ensures Sum(sleeps) <= max * cap
    ensures base >= 1 && max < I32_LIMIT ==> Sum(sleeps) <= base * (Pow2(max + 1) - 2)
  {
    LinearSleep(sleeps, base, cap);
    Scale(|sleeps|, max, cap);
    if base >= 1 && max < I32_LIMIT {
      GeometricSleep(sleeps, base, cap);
      DoubledMonotone(base, |sleeps| + 1, max + 1);
      DoubledIsProduct(base, max + 1);
      assert base * (Pow2(max + 1) - 2) == base * Pow2(max + 1) - 2 * base;
    }
  }

  /** The retry loop. `outcome(i)` is the result of the i-th send and `draw(i, c)` the
      random delay, at most `c`, before the i-th retry. */
  method SendWithRetry(max: u32, base: nat, cap: nat, outcome: nat -> SendResult, draw: (nat, nat) -> nat)
    returns (result: SendResult, sends: nat, retries: nat, sleeps: seq<nat>)
    requires forall i, c :: draw(i, c) <= c
    ensures 1 <= sends <= max + 1
    ensures result == outcome(sends - 1)
    // a further send follows a transient failure only, and only attempts run out on one
    ensures forall i :: 0 <= i < sends - 1 ==> outcome(i).Transient?
    ensures result.Transient? ==> sends == max + 1
    ensures retries == |sleeps| == sends - 1
    // before each further send the loop sleeps for the delay drawn below that attempt's ceiling
    ensures forall i :: 0 <= i < |sleeps| ==> sleeps[i] == draw(i + 1, Ceiling(i + 1, base, cap))
    ensures SleepsBelow(sleeps, base, cap)
    ensures Sum(sleeps) <= max * cap
    ensures base >= 1 && max < I32_LIMIT ==> Sum(sleeps) <= base * (Pow2(max + 1) - 2)
  {
    var attempt: u32 := 0;
    sends, retries, sleeps := 0, 0, [];
    while true
      invariant sends == retries == |sleeps| == attempt <= max
      invariant forall i :: 0 <= i < sends ==> outcome(i).Transient?
      invariant SleepsBelow(sleeps, base, cap)
      invariant forall i :: 0 <= i < |sleeps| ==> sleeps[i] == draw(i + 1, Ceiling(i + 1, base, cap))
      decreases max - attempt
    {
      result := outcome(sends);
      sends := sends + 1;
      if result.Delivered? || result.Fatal? || attempt >= max {
        break;
      }
      attempt := attempt + 1;
      retries := retries + 1;
      var delay := draw(attempt, Ceiling(attempt, base, cap));
      sleeps := sleeps + [delay];
    }
    TotalSleep(sleeps, max, base, cap);
  }
}
