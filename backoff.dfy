/**
 * How long the HTTP client waits before retrying a transient failure.
 *
 * The random jitter added on top of the exponential delay and the sleep itself
 * are not modelled: the result is the deterministic part of the wait.
 * Converting the `Retry-After` header text to a number is Python's `float()`;
 * it enters the model as the function `toNumber`. It is taken to give the value
 * of text that converts to a number `time.sleep` can represent (magnitude below
 * about 9.2e9 seconds), and None for text that `float()` rejects and for NaN.
 */
module Backoff {
  import opened Payload

  /** The cap, in seconds, of the exponential delay. */
  const MAX_DELAY: nat := 60

  function Pow2(n: nat): (r: nat)
    ensures r >= 1
  {
    if n == 0 then 1 else 2 * Pow2(n - 1)
  }

  lemma {:induction false} Pow2Monotone(m: nat, n: nat)
    requires m <= n
    ensures Pow2(m) <= Pow2(n)
  {
    if m < n {
      Pow2Monotone(m, n - 1);
    }
  }

  /** `min(60, 2 ** (attempts - 1))`: the exponential part of the wait, in seconds. */
  function BaseDelay(attempts: int): (r: nat)
    requires attempts >= 1
    ensures 1 <= r <= MAX_DELAY
  {
    if Pow2(attempts - 1) < MAX_DELAY then Pow2(attempts - 1) else MAX_DELAY
  }

  /** The base delay never decreases as attempts grow. */
  lemma BaseDelayMonotone(a: int, b: int)
    requires 1 <= a <= b
    ensures BaseDelay(a) <= BaseDelay(b)
  {
    Pow2Monotone(a - 1, b - 1);
  }

  /** The delay doubles from 1 second up to 32, and is 60 from the seventh attempt on. */
  lemma BaseDelayValues(attempts: int)
    requires attempts >= 1
    ensures attempts <= 6 ==> BaseDelay(attempts) == Pow2(attempts - 1)
    ensures attempts < 6 ==> BaseDelay(attempts + 1) == 2 * BaseDelay(attempts)
    ensures attempts >= 7 ==> BaseDelay(attempts) == MAX_DELAY
  {
    assert Pow2(5) == 32;
    if attempts <= 6 {
      Pow2Monotone(attempts - 1, 5);
    } else {
      Pow2Monotone(6, attempts - 1);
    }
  }

  /** The deterministic part of one wait before a retry. */
  datatype Delay =
    | ServerHint(seconds: real)  // the numeric `Retry-After` value, used as given
    | Exponential(base: nat)     // BaseDelay(attempts), to which random jitter is added

  /**
   * `_backoff_sleep`: a non-empty `Retry-After` that converts to a number is slept
   * as is. A negative number within the range `time.sleep` can represent makes the
   * sleep itself fail with a ValueError, as NaN does; the same handler catches it,
   * so the wait falls back to the exponential delay like text that is not a number.
   */
  function RetryDelay(attempts: int, retryAfter: Option<string>, toNumber: string -> Option<real>): (r: Delay)
    requires attempts >= 1
    ensures r.ServerHint? <==> retryAfter.Some? && retryAfter.value != "" &&
                               toNumber(retryAfter.value).Some? && toNumber(retryAfter.value).value >= 0.0
    ensures r.ServerHint? ==> r.seconds == toNumber(retryAfter.value).value && r.seconds >= 0.0
    ensures r.Exponential? ==> r.base == BaseDelay(attempts) && 1 <= r.base <= MAX_DELAY
  {
    match retryAfter
    case Some(h) =>
      if h != "" && toNumber(h).Some? && toNumber(h).value >= 0.0 then ServerHint(toNumber(h).value)
      else Exponential(BaseDelay(attempts))
    case None => Exponential(BaseDelay(attempts))
  }

  /** A usable server hint replaces the exponential delay entirely: the attempt count no longer matters. */
  lemma HintIgnoresAttempts(a: int, b: int, h: string, toNumber: string -> Option<real>)
    requires a >= 1 && b >= 1
    requires h != "" && toNumber(h).Some? && toNumber(h).value >= 0.0
    ensures RetryDelay(a, Some(h), toNumber) == RetryDelay(b, Some(h), toNumber) == ServerHint(toNumber(h).value)
  {
  }
}
