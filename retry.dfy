/**
 * The retry discipline shared by the generation client and the speech
 * client.  A call makes up to `n` attempts; the first attempt that succeeds
 * ends the call with its value; a failed attempt that is not the last one
 * allowed is followed by a wait of `min(1000 * 2^k, 10000)` milliseconds;
 * when every attempt fails the call throws the last attempt's error, and
 * when no attempt is allowed at all (`n == 0`) it throws a generic error.
 *
 * The outcome of attempt `k` is an oracle `outcome(k)`: the network, the
 * remote service and the clock are outside the model.  The functions below
 * are the declarative specification the two retry loops are proved against.
 */
module Retry {
  import opened TextUtil

  datatype Attempt<T> = Succeeded(value: T) | Failed(error: string)

  function Pow2(k: nat): (r: nat)
    ensures r >= 1
  {
    if k == 0 then 1 else 2 * Pow2(k - 1)
  }

  /** The wait after failed attempt `k`, in milliseconds. */
  function Backoff(k: nat): (ms: nat)
    ensures ms <= 10000
  {
    if 1000 * Pow2(k) < 10000 then 1000 * Pow2(k) else 10000
  }

  lemma {:induction false} Pow2Monotone(j: nat, k: nat)
    requires j <= k
    ensures Pow2(j) <= Pow2(k)
    decreases k
  {
    if j < k {
      Pow2Monotone(j, k - 1);
    }
  }

  /** The waits double from one second and are capped at ten seconds from attempt 4 on. */
  lemma BackoffValues(k: nat)
    ensures Backoff(0) == 1000 && Backoff(1) == 2000 && Backoff(2) == 4000 && Backoff(3) == 8000
    ensures k >= 4 ==> Backoff(k) == 10000
  {
    assert Pow2(3) == 8;
    if k >= 4 {
      Pow2Monotone(4, k);
    }
  }

  /** Waits never shrink from one failed attempt to the next. */
  lemma BackoffMonotone(j: nat, k: nat)
    requires j <= k
    ensures Backoff(j) <= Backoff(k)
  {
    Pow2Monotone(j, k);
  }

  // ---------------------------------------------------------------------
  // The specification of a retried call.

  /** The first attempt among `k .. n-1` that succeeds. */
  function FirstSuccessFrom<T>(outcome: nat -> Attempt<T>, n: nat, k: nat): (r: Option<nat>)
    ensures r.Some? ==> k <= r.value < n && outcome(r.value).Succeeded?
    ensures r.None? ==> forall j | k <= j < n :: outcome(j).Failed?
    decreases n - k
  {
    if k >= n then None
    else if outcome(k).Succeeded? then Some(k)
    else FirstSuccessFrom(outcome, n, k + 1)
  }

  lemma {:induction false} FirstSuccessFromSpec<T>(outcome: nat -> Attempt<T>, n: nat, k: nat)
    ensures FirstSuccessFrom(outcome, n, k).Some? ==>
              forall j | k <= j < FirstSuccessFrom(outcome, n, k).value :: outcome(j).Failed?
    decreases n - k
  {
    if k < n && outcome(k).Failed? {
      FirstSuccessFromSpec(outcome, n, k + 1);
    }
  }

  function FirstSuccess<T>(outcome: nat -> Attempt<T>, n: nat): Option<nat>
  {
    FirstSuccessFrom(outcome, n, 0)
  }

  /** The number of attempts made: up to the first success, or all `n`. */
  function AttemptsMade<T>(outcome: nat -> Attempt<T>, n: nat): nat
  {
    match FirstSuccess(outcome, n)
    case Some(k) => k + 1
    case None => n
  }

  /** The waits `Backoff(0), ..., Backoff(m - 1)`. */
  function Schedule(m: nat): (ws: seq<nat>)
    ensures |ws| == m
    ensures forall i | 0 <= i < m :: ws[i] == Backoff(i)
  {
    if m == 0 then [] else Schedule(m - 1) + [Backoff(m - 1)]
  }

  /** One wait between two consecutive attempts made, none after the last. */
  function Waits<T>(outcome: nat -> Attempt<T>, n: nat): seq<nat>
  {
    var m := AttemptsMade(outcome, n);
    Schedule(if m == 0 then 0 else m - 1)
  }

  /** What the call returns or throws. */
  function Outcome<T>(outcome: nat -> Attempt<T>, n: nat, generic: string): Result<T>
  {
    match FirstSuccess(outcome, n)
    case Some(k) => Ok(outcome(k).value)
    case None => if n == 0 then Err(generic) else Err(outcome(n - 1).error)
  }

  // ---------------------------------------------------------------------
  // What the specification promises.

  /** `FirstSuccess` names the earliest successful attempt allowed. */
  lemma FirstSuccessIs<T>(outcome: nat -> Attempt<T>, n: nat, k: nat)
    requires k < n && outcome(k).Succeeded?
    requires forall j | 0 <= j < k :: outcome(j).Failed?
    ensures FirstSuccess(outcome, n) == Some(k)
  {
    FirstSuccessFromSpec(outcome, n, 0);
  }

  /** Without a successful attempt there is no first success. */
  lemma NoSuccess<T>(outcome: nat -> Attempt<T>, n: nat)
    requires forall j | 0 <= j < n :: outcome(j).Failed?
    ensures FirstSuccess(outcome, n) == None
  {
  }

  /**
   * The call succeeds exactly when one of the `n` attempts succeeds, and then
   * with the value of the earliest one; it fails with the last attempt's
   * error when all `n >= 1` attempts fail, and with the generic error when
   * none is allowed.
   */
  lemma OutcomeSpec<T>(outcome: nat -> Attempt<T>, n: nat, generic: string)
    ensures Outcome(outcome, n, generic).Ok? <==> exists k | 0 <= k < n :: outcome(k).Succeeded?
    ensures Outcome(outcome, n, generic).Ok? ==>
              exists k | 0 <= k < n :: outcome(k) == Succeeded(Outcome(outcome, n, generic).value)
                                       && forall j | 0 <= j < k :: outcome(j).Failed?
    ensures n == 0 ==> Outcome(outcome, n, generic) == Err(generic)
    ensures n > 0 && Outcome(outcome, n, generic).Err? ==>
              Outcome(outcome, n, generic).error == outcome(n - 1).error
  {
    FirstSuccessFromSpec(outcome, n, 0);
  }

  /**
   * At most `n` attempts are made; every attempt made before the last one
   * failed; fewer than `n` are made only when the last one made succeeded
   * (no call follows a success).
   */
  lemma AttemptsMadeSpec<T>(outcome: nat -> Attempt<T>, n: nat)
    ensures AttemptsMade(outcome, n) <= n
    ensures forall j | 0 <= j < AttemptsMade(outcome, n) - 1 :: outcome(j).Failed?
    ensures AttemptsMade(outcome, n) < n ==> outcome(AttemptsMade(outcome, n) - 1).Succeeded?
    ensures Outcome(outcome, n, "").Ok? <==>
              AttemptsMade(outcome, n) > 0 && outcome(AttemptsMade(outcome, n) - 1).Succeeded?
  {
    FirstSuccessFromSpec(outcome, n, 0);
  }

  /**
   * The waits are the capped doubling schedule, one fewer than the attempts
   * made: there is never a wait after the last attempt.
   */
  lemma WaitsSpec<T>(outcome: nat -> Attempt<T>, n: nat)
    ensures |Waits(outcome, n)| == if AttemptsMade(outcome, n) == 0 then 0 else AttemptsMade(outcome, n) - 1
    ensures |Waits(outcome, n)| < n || n == 0
    ensures forall i | 0 <= i < |Waits(outcome, n)| :: Waits(outcome, n)[i] == Backoff(i) <= 10000
  {
    AttemptsMadeSpec(outcome, n);
  }

  // ---------------------------------------------------------------------
  // Loop bookkeeping.

  /** Attempts `0 .. k-1` all failed (stated step by step, as a loop learns it). */
  predicate FailedUpTo<T>(outcome: nat -> Attempt<T>, k: nat)
  {
    k == 0 || (FailedUpTo(outcome, k - 1) && outcome(k - 1).Failed?)
  }

  lemma {:induction false} FailedUpToAll<T>(outcome: nat -> Attempt<T>, k: nat)
    requires FailedUpTo(outcome, k)
    ensures forall j | 0 <= j < k :: outcome(j).Failed?
  {
    if k > 0 {
      FailedUpToAll(outcome, k - 1);
    }
  }

  /** A loop that stops at the first successful attempt `k` returns what the specification does. */
  lemma StopsAt<T>(outcome: nat -> Attempt<T>, n: nat, k: nat, generic: string)
    requires k < n && outcome(k).Succeeded? && FailedUpTo(outcome, k)
    ensures Outcome(outcome, n, generic) == Ok(outcome(k).value)
    ensures AttemptsMade(outcome, n) == k + 1
  {
    FailedUpToAll(outcome, k);
    FirstSuccessIs(outcome, n, k);
  }

  /** A loop whose `n` attempts all failed throws what the specification does. */
  lemma StopsExhausted<T>(outcome: nat -> Attempt<T>, n: nat, generic: string)
    requires FailedUpTo(outcome, n)
    ensures Outcome(outcome, n, generic)
              == if n == 0 then Err(generic) else Err(outcome(n - 1).error)
    ensures AttemptsMade(outcome, n) == n
  {
    FailedUpToAll(outcome, n);
    NoSuccess(outcome, n);
  }
}
