/** The `retry` decorator of the backend (`core/utils.py`): call a function
    up to `max_retries` times, sleeping with exponential backoff after each
    failure. The k-th call's outcome is the parameter `attempt(k)`; sleeping
    is recorded as the list of waits instead of being performed. */
module Retry {
  import opened Wrappers
  import opened Text

  function Pow(base: int, k: nat): int {
    if k == 0 then 1 else base * Pow(base, k - 1)
  }

  /** The first `n` waits: `delay`, `delay * backoff`, `delay * backoff^2`, ... */
  function Waits(delay: int, backoff: int, n: nat): (r: seq<int>)
    ensures |r| == n
  {
    seq(n, k requires 0 <= k < n => delay * Pow(backoff, k))
  }

  /** Each wait is the previous one times `backoff`, starting at `delay`. */
  lemma WaitsGeometric(delay: int, backoff: int, n: nat)
    ensures n > 0 ==> Waits(delay, backoff, n)[0] == delay
    ensures forall k | 0 < k < n :: Waits(delay, backoff, n)[k] == Waits(delay, backoff, n)[k - 1] * backoff
  {
    forall k | 0 < k < n ensures delay * Pow(backoff, k) == delay * Pow(backoff, k - 1) * backoff {
      var p := Pow(backoff, k - 1);
      assert Pow(backoff, k) == backoff * p;
      assert delay * (backoff * p) == delay * p * backoff;
    }
  }

  /** The `RuntimeError` text raised once every attempt has failed. */
  function ExhaustedMessage(name: string, maxRetries: int): string {
    "Function " + name + " failed after " + IntToString(maxRetries) + " retries"
  }

  /** The decorated call. `calls` is how many times the function ran and
      `sleeps` the waits, in order. */
  method RetryCall<T>(name: string, maxRetries: int, delay: int, backoff: int, attempt: nat -> Result<T, string>)
    returns (result: Result<T, string>, calls: nat, sleeps: seq<int>)
    ensures maxRetries <= 0 ==> calls == 0 && sleeps == [] && result == Failure(ExhaustedMessage(name, maxRetries))
    ensures maxRetries > 0 ==> 1 <= calls <= maxRetries
    ensures forall k | 0 <= k && k + 1 < calls :: attempt(k).Failure?
    ensures result.Success? <==> calls > 0 && attempt(calls - 1).Success?
    ensures result.Success? ==> result == attempt(calls - 1) && sleeps == Waits(delay, backoff, calls - 1)
    ensures result.Failure? ==>
      && calls == (if maxRetries > 0 then maxRetries else 0)
      && (forall k | 0 <= k < calls :: attempt(k).Failure?)
      && result == Failure(ExhaustedMessage(name, maxRetries))
      && sleeps == Waits(delay, backoff, calls)
  {
    var retries, wait := 0, delay;
    sleeps := [];
    while retries < maxRetries
      invariant 0 <= retries && (retries <= maxRetries || retries == 0)
      invariant forall k | 0 <= k < retries :: attempt(k).Failure?
      invariant wait == delay * Pow(backoff, retries)
      invariant sleeps == Waits(delay, backoff, retries)
      decreases maxRetries - retries
    {
      var outcome := attempt(retries);
      if outcome.Success? {
        return outcome, retries + 1, sleeps;
      }
      sleeps := sleeps + [wait];
      retries := retries + 1;
      assert delay * Pow(backoff, retries) == wait * backoff by {
        assert Pow(backoff, retries) == backoff * Pow(backoff, retries - 1);
      }
      wait := wait * backoff;
    }
    return Failure(ExhaustedMessage(name, maxRetries)), retries, sleeps;
  }
}
