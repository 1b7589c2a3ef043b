/**
 * `retryWithBackoff`: call an operation up to `maxRetries` times, waiting
 * `baseDelay * 2^(attempt-1)` after each failed attempt but the last, and
 * either return the first success or re-throw the last error.
 */
module Retry {

  /** What one call of the operation does: resolve with a value or reject with an error. */
  datatype Attempt<V, E> = Ok(value: V) | Err(error: E)

  /**
   * How the retry settles: with the first success, with the last attempt's
   * error re-thrown, or, when `maxRetries < 1` leaves the loop unentered,
   * resolving to `undefined`.
   */
  datatype RetryResult<V, E> = Returned(value: V) | Rethrown(error: E) | NoAttempt

  /** `Math.pow(2, k)`. */
  function Pow2(k: nat): (p: nat)
    ensures p >= 1
  {
    if k == 0 then 1 else 2 * Pow2(k - 1)
  }

  /** Every call before the `n`-th one threw. */
  predicate FailedBefore<V, E>(fn: nat -> Attempt<V, E>, n: nat)
  {
    forall k :: 1 <= k < n ==> fn(k).Err?
  }

  /** The first `n` backoff waits: `baseDelay`, `2 * baseDelay`, `4 * baseDelay`, ... */
  function Backoff(baseDelay: int, n: nat): (delays: seq<int>)
    ensures |delays| == n
  {
    if n == 0 then [] else Backoff(baseDelay, n - 1) + [baseDelay * Pow2(n - 1)]
  }

  /**
   * Calls `fn(1)`, `fn(2)`, ... in turn, where `fn(k)` is what the `k`-th call
   * does, and reports how it settled, how many calls it made, and the waits
   * it slept between them.
   */
  method RetryWithBackoff<V, E>(fn: nat -> Attempt<V, E>, maxRetries: int, baseDelay: int)
    returns (r: RetryResult<V, E>, calls: nat, delays: seq<int>)
    ensures r == NoAttempt <==> maxRetries < 1
    ensures maxRetries < 1 ==> calls == 0 && delays == []
    ensures maxRetries >= 1 ==> 1 <= calls <= maxRetries
    ensures FailedBefore(fn, calls)
    ensures r.Returned? <==> calls >= 1 && fn(calls).Ok?
    ensures r.Returned? ==> r.value == fn(calls).value
    ensures r.Rethrown? <==> calls >= 1 && fn(calls).Err?
    ensures r.Rethrown? ==> calls == maxRetries && r.error == fn(calls).error
    ensures calls >= 1 ==> delays == Backoff(baseDelay, calls - 1)
    ensures maxRetries >= 1 && fn(1).Ok? ==> calls == 1 && delays == []
  {
    r, calls, delays := NoAttempt, 0, [];
    var attempt := 1;
    while attempt <= maxRetries
      invariant 1 <= attempt && (attempt == 1 || attempt <= maxRetries)
      invariant calls == attempt - 1
      invariant forall k :: 1 <= k < attempt ==> fn(k).Err?
      invariant delays == Backoff(baseDelay, attempt - 1)
      invariant r == NoAttempt
      decreases maxRetries - attempt
    {
      calls := attempt;
      match fn(attempt) {
        case Ok(v) =>
          r := Returned(v);
          return;
        case Err(e) =>
          if attempt == maxRetries {
            r := Rethrown(e);
            return;
          }
          var delay := baseDelay * Pow2(attempt - 1);
          delays := delays + [delay];
      }
      attempt := attempt + 1;
    }
  }

  /** The wait after failed attempt `i + 1` is `baseDelay * 2^i`. */
  lemma {:induction false} BackoffAt(baseDelay: int, n: nat, i: nat)
    requires i < n
    ensures Backoff(baseDelay, n)[i] == baseDelay * Pow2(i)
  {
    if i < n - 1 {
      BackoffAt(baseDelay, n - 1, i);
    }
  }

  /** Each wait is twice the one before it. */
  lemma BackoffDoubles(baseDelay: int, n: nat, i: nat)
    requires i + 1 < n
    ensures Backoff(baseDelay, n)[i + 1] == 2 * Backoff(baseDelay, n)[i]
  {
    BackoffAt(baseDelay, n, i);
    BackoffAt(baseDelay, n, i + 1);
  }

  /** The sum of a list of waits. */
  function Total(delays: seq<int>): int {
    if delays == [] then 0 else Total(delays[..|delays| - 1]) + delays[|delays| - 1]
  }

  /** Waiting through `n` backoffs takes `baseDelay * (2^n - 1)` in all. */
  lemma {:induction false} BackoffTotal(baseDelay: int, n: nat)
    ensures Total(Backoff(baseDelay, n)) == baseDelay * (Pow2(n) - 1)
  {
    if n > 0 {
      var b := Backoff(baseDelay, n);
      assert b[..n - 1] == Backoff(baseDelay, n - 1);
      BackoffTotal(baseDelay, n - 1);
    }
  }

  /** With the defaults (3 attempts, 1000 ms), a request waits at most 1000 then 2000 ms, 3000 ms in all. */
  lemma DefaultSchedule()
    ensures Backoff(1000, 2) == [1000, 2000]
    ensures Total(Backoff(1000, 2)) == 3000
  {
    BackoffTotal(1000, 2);
  }
}
