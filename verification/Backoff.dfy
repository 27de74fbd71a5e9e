/** How long a failed probe waits before it is retried (updatehub/src/states/probe.rs). */
module Backoff {

  const NANOS_PER_SECOND: int := 1_000_000_000
  const MAX_RETRY_DELAY: int := 60 * 60

  /** Whole seconds of a duration in nanoseconds, rounded towards zero. */
  function WholeSeconds(nanos: int): int {
    if nanos >= 0 then nanos / NANOS_PER_SECOND else -(-nanos / NANOS_PER_SECOND)
  }

  function Pow2(n: nat): (p: nat)
    ensures p >= 1
  {
    if n == 0 then 1 else 2 * Pow2(n - 1)
  }

  function Min(a: int, b: int): int {
    if a < b then a else b
  }

  /** No wait is longer than the polling interval, nor than an hour, nor shorter than a second. */
  function Cap(interval: int): int {
    var seconds := WholeSeconds(interval);
    if seconds < 1 then 1 else if seconds > MAX_RETRY_DELAY then MAX_RETRY_DELAY else seconds
  }

  /** The cap is the most whole seconds that fit the interval, between a second and an hour. */
  lemma CapFitsTheInterval(interval: int)
    ensures 1 <= Cap(interval) <= 3600
    ensures Cap(interval) * NANOS_PER_SECOND <= interval || Cap(interval) == 1
    ensures (Cap(interval) + 1) * NANOS_PER_SECOND > interval || Cap(interval) == 3600
  {
  }

  function SaturatingPredecessor(n: nat): nat {
    if n == 0 then 0 else n - 1
  }

  /** Seconds to wait once `retries` failures happened in a row; the shift is clamped to 12. */
  function RetryDelay(retries: nat, interval: int): int {
    Min(Pow2(Min(SaturatingPredecessor(retries), 12)), Cap(interval))
  }

  lemma {:induction false} Pow2Grows(m: nat, n: nat)
    requires m <= n
    ensures Pow2(m) <= Pow2(n)
  {
    if m < n {
      Pow2Grows(m, n - 1);
    }
  }

  /** The clamped shift is the unbounded power, capped: clamping it never shows. */
  lemma RetryDelayIsCappedPower(retries: nat, interval: int)
    ensures RetryDelay(retries, interval) == Min(Pow2(SaturatingPredecessor(retries)), Cap(interval))
    ensures 1 <= RetryDelay(retries, interval) <= Cap(interval)
  {
    assert Pow2(12) == 4096 by {
      assert Pow2(4) == 16;
      assert Pow2(8) == 256;
    }
    if retries > 13 {
      Pow2Grows(12, retries - 1);
    }
  }

  lemma RetryDelayGrows(fewer: nat, more: nat, interval: int)
    requires fewer <= more
    ensures RetryDelay(fewer, interval) <= RetryDelay(more, interval)
  {
    RetryDelayIsCappedPower(fewer, interval);
    RetryDelayIsCappedPower(more, interval);
    Pow2Grows(SaturatingPredecessor(fewer), SaturatingPredecessor(more));
  }

  /** Seconds waited over the first `failures` failures in a row. */
  function TotalWait(failures: nat, interval: int): int {
    if failures == 0 then 0 else TotalWait(failures - 1, interval) + RetryDelay(failures, interval)
  }

  /** Doubling from one second: until the cap is met, n failures wait 2^n - 1 seconds. */
  lemma {:induction false} WaitsDouble(failures: nat, interval: int)
    requires failures > 0 ==> Pow2(failures - 1) <= Cap(interval)
    ensures TotalWait(failures, interval) == Pow2(failures) - 1
  {
    if failures > 0 {
      Pow2Grows(SaturatingPredecessor(failures - 1), failures - 1);
      WaitsDouble(failures - 1, interval);
      RetryDelayIsCappedPower(failures, interval);
    }
  }

  lemma WaitsTheCap(saturated: nat, failures: nat, interval: int)
    requires Pow2(saturated) >= Cap(interval) && saturated < failures
    ensures RetryDelay(failures, interval) == Cap(interval)
  {
    RetryDelayIsCappedPower(failures, interval);
    Pow2Grows(saturated, failures - 1);
  }

  lemma Distributes(n: int, cap: int)
    ensures (n + 1) * cap == n * cap + cap
  {
  }

  /** Once the cap is met, every further failure waits for exactly the cap. */
  lemma {:induction false} WaitsSaturate(failures: nat, further: nat, interval: int)
    requires Pow2(failures) >= Cap(interval)
    ensures TotalWait(failures + further, interval) == TotalWait(failures, interval) + further * Cap(interval)
  {
    hide RetryDelay, Cap, Pow2;
    if further > 0 {
      var cap := Cap(interval);
      WaitsSaturate(failures, further - 1, interval);
      WaitsTheCap(failures, failures + further, interval);
      Distributes(further - 1, cap);
      assert TotalWait(failures + further, interval) == TotalWait(failures + (further - 1), interval) + cap;
    }
  }
}
