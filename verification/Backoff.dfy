/** Retry delays: the doubling law of `exponentialBackoff` and the floor that
    retry jitter may never undercut. Durations are integers of one unit. */
module Backoff {
  import opened Basics

  /** 2^n. */
  function Pow2(n: nat): (p: nat)
    ensures p >= 1
  {
    if n == 0 then 1 else 2 * Pow2(n - 1)
  }

  /** The law: min(maximum, base * 2^(failures-1)), and base up to the first failure. */
  function Delay(base: int, maximum: int, failures: int): int {
    if failures <= 1 then base else Min(maximum, base * Pow2(failures - 1))
  }

  lemma {:induction false} Pow2Grows(m: nat, n: nat)
    requires m <= n
    ensures Pow2(m) <= Pow2(n)
    decreases n
  {
    if m < n {
      Pow2Grows(m, n - 1);
    }
  }

  lemma Doubling(base: int, n: nat)
    ensures base * Pow2(n + 1) == 2 * (base * Pow2(n))
    ensures base > 0 ==> base * Pow2(n) > 0
  {
  }

  /** Once some doubling reaches the maximum, every later one does. */
  lemma {:induction false} CapIsAbsorbing(base: int, maximum: int, reached: nat, later: nat)
    requires 0 < base && reached <= later
    requires maximum <= base * Pow2(reached)
    ensures maximum <= base * Pow2(later)
    decreases later
  {
    hide Pow2;
    if reached < later {
      CapIsAbsorbing(base, maximum, reached, later - 1);
      Doubling(base, later - 1);
    }
  }

  /** The loop of the source. Every value `delay` takes is at most `maximum`, so a
      fixed-width duration cannot overflow on the way to the result. */
  method ExponentialBackoff(base: int, maximum: int, failures: int) returns (result: int)
    requires 0 < base <= maximum
    ensures result == Delay(base, maximum, failures)
    ensures base <= result <= maximum
  {
    if failures <= 1 {
      return base;
    }
    assert base * Pow2(0) == base;
    hide Pow2;
    var delay := base;
    var i := 1;
    while i < failures
      invariant 1 <= i <= failures
      invariant base <= delay <= maximum
      invariant delay == base * Pow2(i - 1)
    {
      Doubling(base, i - 1);
      if delay >= maximum || delay > maximum / 2 {
        CapIsAbsorbing(base, maximum, i, failures - 1);
        return maximum;
      }
      delay := delay * 2;
      i := i + 1;
    }
    if delay > maximum {
      return maximum;
    }
    return delay;
  }

  /** Waiting never shrinks as failures accumulate. */
  lemma DelayMonotone(base: int, maximum: int, m: int, n: int)
    requires 0 < base <= maximum && m <= n
    ensures base <= Delay(base, maximum, m) <= Delay(base, maximum, n) <= maximum
  {
    if m > 1 {
      Pow2Grows(m - 1, n - 1);
      Pow2Grows(0, m - 1);
      assert base * 1 <= base * Pow2(m - 1) <= base * Pow2(n - 1);
    } else if n > 1 {
      Pow2Grows(0, n - 1);
      assert base * 1 <= base * Pow2(n - 1);
    }
  }

  const MAX_DURATION := 0x7fff_ffff_ffff_ffff

  /** The default retry jitter: up to 20 percent is added, saturating at the largest
      duration. `draw` is the random number in [0, delay/5]. */
  method DefaultRetryJitter(delay: int, draw: int) returns (result: int)
    requires delay <= MAX_DURATION
    requires 0 <= draw && (delay > 0 ==> draw <= delay / 5)
    ensures delay <= result <= MAX_DURATION
    ensures delay > 0 ==> result == Min(MAX_DURATION, delay + draw)
  {
    if delay <= 0 {
      return delay;
    }
    var span := delay / 5;
    if span <= 0 {
      return delay;
    }
    if delay > MAX_DURATION - draw {
      return MAX_DURATION;
    }
    return delay + draw;
  }
}
