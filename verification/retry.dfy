/**
 * `withRetry`: run an operation up to `maxAttempts` times, waiting an
 * exponentially growing delay between failed attempts, and rethrow the last
 * failure when none succeeds.
 *
 * The operation is given as its outcome at each attempt number, so the model
 * covers every way an external call can behave from one attempt to the next.
 */
module Retry {
  import opened Wrappers
  import opened Errors

  /** What one attempt of the operation does: return a value or throw. */
  datatype Attempt<T> = Returned(value: T) | Threw(thrown: Thrown)

  /** The error kept after a failed attempt: a thrown value that is no `Error` becomes `Error('Unknown error')`. */
  function AsError(t: Thrown): (e: Thrown)
    ensures e != NotAnError
    ensures t != NotAnError ==> e == t
  {
    match t
    case NotAnError => Plain("Unknown error")
    case _ => t
  }

  /** `Math.pow(2, n)` for a natural exponent. */
  function Pow2(n: nat): (p: nat)
    ensures p >= 1
  {
    if n == 0 then 1 else 2 * Pow2(n - 1)
  }

  /** The wait after failed attempt `attempt` (counted from 1), without the random jitter. */
  function Backoff(baseDelay: nat, attempt: nat): nat
    requires attempt >= 1
  {
    baseDelay * Pow2(attempt - 1)
  }

  /** Some attempt among the first `maxAttempts` returns. */
  predicate SucceedsWithin<T>(op: nat -> Attempt<T>, maxAttempts: int) {
    exists k :: 1 <= k <= maxAttempts && op(k).Returned?
  }

  /**
   * The value of the first attempt from `k` to `maxAttempts` that returns,
   * if any: what a run that starts at attempt `k` yields.
   */
  function FirstReturned<T>(op: nat -> Attempt<T>, k: nat, maxAttempts: int): (r: Option<T>)
    ensures r.Some? <==> exists j :: k <= j <= maxAttempts && op(j).Returned?
    ensures r.Some? ==>
      exists j :: k <= j <= maxAttempts && op(j) == Returned(r.value) && forall i :: k <= i < j ==> op(i).Threw?
    decreases maxAttempts - k
  {
    if k > maxAttempts then None
    else if op(k).Returned? then Some(op(k).value)
    else
      var r := FirstReturned(op, k + 1, maxAttempts);
      assert r.Some? ==> exists j :: k <= j <= maxAttempts && op(j).Returned?;
      assert (exists j :: k <= j <= maxAttempts && op(j).Returned?) ==> exists j :: k + 1 <= j <= maxAttempts && op(j).Returned?;
      r
  }

  /** An attempt that returns after only failures is the first to return. */
  lemma {:induction false} FirstReturnedAt<T>(op: nat -> Attempt<T>, k: nat, j: nat, maxAttempts: int)
    requires k <= j <= maxAttempts && op(j).Returned?
    requires forall i :: k <= i < j ==> op(i).Threw?
    ensures FirstReturned(op, k, maxAttempts) == Some(op(j).value)
    decreases j - k
  {
    if k < j {
      assert op(k).Threw?;
      assert FirstReturned(op, k, maxAttempts) == FirstReturned(op, k + 1, maxAttempts);
      FirstReturnedAt(op, k + 1, j, maxAttempts);
    } else {
      assert op(k).Returned?;
    }
  }

  /** The number of attempts made when every one of them fails. */
  function AllAttempts(maxAttempts: int): nat {
    if maxAttempts < 1 then 0 else maxAttempts
  }

  /**
   * `withRetry(operation, maxAttempts, baseDelay)`. Besides the outcome it
   * yields the number of attempts made and the waits between them, in order.
   * A `maxAttempts` below one runs nothing and throws the unset `lastError`
   * (`undefined`), a value that is no `Error`.
   */
  method WithRetry<T>(op: nat -> Attempt<T>, maxAttempts: int, baseDelay: nat)
    returns (r: Result<T, Thrown>, attempts: nat, waits: seq<nat>)
    ensures attempts <= AllAttempts(maxAttempts)
    ensures forall k :: 1 <= k < attempts ==> op(k).Threw?
    ensures r.Success? <==> SucceedsWithin(op, maxAttempts)
    ensures r.Success? ==> attempts >= 1 && op(attempts) == Returned(r.value)
    ensures r.Success? ==> FirstReturned(op, 1, maxAttempts) == Some(r.value)
    ensures r.Failure? ==> FirstReturned(op, 1, maxAttempts).None?
    ensures r.Failure? ==> attempts == AllAttempts(maxAttempts)
    ensures r.Failure? && attempts == 0 ==> r.error == NotAnError
    ensures r.Failure? && attempts >= 1 ==> op(attempts).Threw? && r.error == AsError(op(attempts).thrown)
    ensures |waits| == if attempts == 0 then 0 else attempts - 1
    ensures forall k :: 0 <= k < |waits| ==> waits[k] == Backoff(baseDelay, k + 1)
  {
    var lastError: Thrown := NotAnError;
    attempts, waits := 0, [];
    var attempt := 1;
    while attempt <= maxAttempts
      invariant 1 <= attempt
      invariant maxAttempts >= 1 ==> attempt <= maxAttempts
      invariant maxAttempts < 1 ==> attempt == 1
      invariant attempts == attempt - 1
      invariant attempts == 0 ==> lastError == NotAnError
      invariant attempts >= 1 ==> op(attempts).Threw? && lastError == AsError(op(attempts).thrown)
      invariant forall k :: 1 <= k < attempt ==> op(k).Threw?
      invariant |waits| == attempt - 1
      invariant forall k :: 0 <= k < |waits| ==> waits[k] == Backoff(baseDelay, k + 1)
      decreases maxAttempts - attempt
    {
      attempts := attempt;
      var outcome := op(attempt);
      if outcome.Returned? {
        FirstReturnedAt(op, 1, attempt, maxAttempts);
        return Success(outcome.value), attempts, waits;
      }
      lastError := AsError(outcome.thrown);
      if attempt == maxAttempts {
        break;
      }
      waits := waits + [Backoff(baseDelay, attempt)];
      attempt := attempt + 1;
    }
    if attempts >= 1 {
      NoneWithin(op, maxAttempts);
    }
    return Failure(lastError), attempts, waits;
  }

  /** When every attempt up to the last throws, no attempt within the limit returns. */
  lemma NoneWithin<T>(op: nat -> Attempt<T>, maxAttempts: int)
    requires forall k :: 1 <= k <= maxAttempts ==> op(k).Threw?
    ensures !SucceedsWithin(op, maxAttempts)
  {
  }

  /** The sum of a list of waits. */
  function Total(waits: seq<nat>): nat {
    if waits == [] then 0 else Total(waits[..|waits| - 1]) + waits[|waits| - 1]
  }

  /**
   * The waits of a failed run add up to `baseDelay * (2^(n-1) - 1)` for `n`
   * attempts: the backoff doubles each time, so the whole run waits less
   * than twice its last delay.
   */
  lemma {:induction false} TotalBackoff(baseDelay: nat, waits: seq<nat>)
    requires forall k :: 0 <= k < |waits| ==> waits[k] == Backoff(baseDelay, k + 1)
    ensures Total(waits) == baseDelay * (Pow2(|waits|) - 1)
  {
    if waits != [] {
      var n := |waits| - 1;
      var init := waits[..n];
      assert forall k :: 0 <= k < |init| ==> init[k] == waits[k];
      TotalBackoff(baseDelay, init);
      assert waits[n] == baseDelay * Pow2(n);
      assert Pow2(n + 1) == 2 * Pow2(n);
    }
  }
}
