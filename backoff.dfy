/**
 * Per-server backoff bookkeeping and the request retry loop of the
 * configuration package. Durations are Go `time.Duration` values: signed
 * 64-bit nanosecond counts whose arithmetic wraps around. Absolute times are
 * nanosecond counts, unbounded; the clock and the random jitter are inputs.
 */
module Backoff {
  import opened Wrappers

  const MinInt64: int := -0x8000_0000_0000_0000
  const MaxInt64: int := 0x7fff_ffff_ffff_ffff

  /** A `time.Duration`: a signed 64-bit count of nanoseconds. */
  type Duration = d: int | MinInt64 <= d <= MaxInt64

  /** The initial delay: one second. */
  const BaseBackoff: Duration := 1_000_000_000
  /** The largest delay: two minutes. */
  const MaxBackoff: Duration := 120_000_000_000
  /** The untyped constant 2.0 multiplies a Duration as the integer 2. */
  const BackoffFactor: int := 2

  function Min(a: int, b: int): int
  {
    if a <= b then a else b
  }

  function Pow2(k: nat): (p: nat)
    ensures p >= 1
  {
    if k == 0 then 1 else 2 * Pow2(k - 1)
  }

  /**
   * Two's-complement wrap-around of the sum or doubling of two int64 values,
   * whose exact result lies within twice the int64 range.
   */
  function Wrap64(x: int): (r: Duration)
    requires 2 * MinInt64 <= x <= 2 * MaxInt64
    ensures MinInt64 <= x <= MaxInt64 ==> r == x
    ensures (r - x) % 0x1_0000_0000_0000_0000 == 0
  {
    if x > MaxInt64 then x - 0x1_0000_0000_0000_0000
    else if x < MinInt64 then x + 0x1_0000_0000_0000_0000
    else x
  }

  /** The new delay after one more failure: doubled, capped at MaxBackoff. */
  function CalculateNewBackoffDelay(backoffDelay: Duration): (r: Duration)
    ensures r <= MaxBackoff
    ensures -0x4000_0000_0000_0000 <= backoffDelay < 0x4000_0000_0000_0000 ==>
              r == Min(2 * backoffDelay, MaxBackoff)
    ensures 0 < backoffDelay <= MaxBackoff ==> backoffDelay <= r
  {
    var doubled := Wrap64(backoffDelay * BackoffFactor);
    if doubled >= MaxBackoff then MaxBackoff else doubled
  }

  /**
   * The jitter `Duration(rand.Float64() * float64(backoff) * JITTER_FACTOR)`
   * with JITTER_FACTOR = 0.5: never negative and at most half the backoff.
   */
  predicate ValidJitter(backoff: Duration, jitter: Duration)
  {
    0 <= jitter && 2 * jitter <= backoff
  }

  /** The absolute time of the next retry: now plus the jittered backoff, capped at MaxBackoff. */
  function CalculateNextRetryAt(backoff: Duration, jitter: Duration, now: int): (t: int)
    ensures 0 <= backoff && ValidJitter(backoff, jitter) && backoff + jitter <= MaxInt64 ==>
              t == now + Min(backoff + jitter, MaxBackoff)
    ensures 0 <= backoff && ValidJitter(backoff, jitter) && backoff + jitter <= MaxInt64 ==>
              now + Min(backoff, MaxBackoff) <= t <= now + MaxBackoff
  {
    var jittered := Wrap64(backoff + jitter);
    now + (if jittered > MaxBackoff then MaxBackoff else jittered)
  }

  /** The delay in force after `k` doublings of BaseBackoff. */
  function ScheduledDelay(k: nat): (d: Duration)
    ensures BaseBackoff <= d <= MaxBackoff
  {
    if k == 0 then BaseBackoff else CalculateNewBackoffDelay(ScheduledDelay(k - 1))
  }

  /** The schedule in closed form: BaseBackoff * 2^k, capped at MaxBackoff. */
  lemma {:induction false} ScheduledDelayClosedForm(k: nat)
    ensures ScheduledDelay(k) == Min(BaseBackoff * Pow2(k), MaxBackoff)
  {
    if k > 0 {
      ScheduledDelayClosedForm(k - 1);
      assert BaseBackoff * Pow2(k) == 2 * (BaseBackoff * Pow2(k - 1));
    }
  }

  /** Delays never decrease along the schedule. */
  lemma {:induction false} ScheduledDelayMonotonic(j: nat, k: nat)
    requires j <= k
    ensures ScheduledDelay(j) <= ScheduledDelay(k)
  {
    if j < k {
      ScheduledDelayMonotonic(j, k - 1);
    }
  }

  /** The state kept for a server with an active failure streak. */
  datatype BackoffData = BackoffData(backoffDelay: Duration, nextRetryAt: int)

  /** Per-server backoff state, keyed by server id. */
  class BackoffStore {
    var backoffs: map<int, BackoffData>
    /** How many UpdateBackoff calls each current entry has seen since it was created. */
    ghost var failureStreaks: map<int, nat>

    ghost predicate Valid()
      reads this
    {
      && backoffs.Keys == failureStreaks.Keys
      && forall id :: id in backoffs ==>
           failureStreaks[id] >= 1 && backoffs[id].backoffDelay == ScheduledDelay(failureStreaks[id] - 1)
    }

    constructor ()
      ensures Valid()
      ensures backoffs == map[] && failureStreaks == map[]
    {
      backoffs := map[];
      failureStreaks := map[];
    }

    /** The next retry time of `serverID` and whether it has an active backoff; the zero time is 0. */
    method NextRetryAt(serverID: int) returns (t: int, active: bool)
      ensures active <==> serverID in backoffs
      ensures t == if active then backoffs[serverID].nextRetryAt else 0
    {
      if serverID in backoffs {
        t, active := backoffs[serverID].nextRetryAt, true;
      } else {
        t, active := 0, false;
      }
    }

    /**
     * Records one more failure of `serverID`: a fresh entry starts at
     * BaseBackoff, an existing one doubles its delay; only that entry changes.
     */
    method UpdateBackoff(serverID: int, jitter: Duration, now: int)
      requires Valid()
      modifies this
      ensures Valid()
      ensures serverID !in old(backoffs) ==>
                && backoffs == old(backoffs)[serverID := BackoffData(BaseBackoff, CalculateNextRetryAt(BaseBackoff, jitter, now))]
                && failureStreaks == old(failureStreaks)[serverID := 1]
      ensures serverID in old(backoffs) ==>
                var delay := CalculateNewBackoffDelay(old(backoffs)[serverID].backoffDelay);
                && backoffs == old(backoffs)[serverID := BackoffData(delay, CalculateNextRetryAt(delay, jitter, now))]
                && failureStreaks == old(failureStreaks)[serverID := old(failureStreaks)[serverID] + 1]
      ensures serverID in old(backoffs) ==> old(backoffs)[serverID].backoffDelay <= backoffs[serverID].backoffDelay
      ensures backoffs[serverID].backoffDelay == Min(BaseBackoff * Pow2(failureStreaks[serverID] - 1), MaxBackoff)
    {
      if serverID in backoffs {
        var backoff := backoffs[serverID];
        var delay := CalculateNewBackoffDelay(backoff.backoffDelay);
        backoffs := backoffs[serverID := BackoffData(delay, CalculateNextRetryAt(delay, jitter, now))];
        failureStreaks := failureStreaks[serverID := failureStreaks[serverID] + 1];
      } else {
        backoffs := backoffs[serverID := BackoffData(BaseBackoff, CalculateNextRetryAt(BaseBackoff, jitter, now))];
        failureStreaks := failureStreaks[serverID := 1];
      }
      ScheduledDelayClosedForm(failureStreaks[serverID] - 1);
    }

    /** Ends the failure streak of `serverID`; every other entry is kept. */
    method ResetBackoff(serverID: int)
      requires Valid()
      modifies this
      ensures Valid()
      ensures backoffs == old(backoffs) - {serverID}
      ensures failureStreaks == old(failureStreaks) - {serverID}
    {
      backoffs := backoffs - {serverID};
      failureStreaks := failureStreaks - {serverID};
    }
  }

  /** What `client.Do` did on one attempt. */
  datatype AttemptResult<R, E> = Responded(response: R) | TransportFailed(error: E)

  /**
   * One attempt of the retry loop as the environment plays it: the outcome of
   * the request and, should the loop then wait, whether the context is done
   * before the delay elapses.
   */
  datatype Attempt<R, E> = Attempt(result: AttemptResult<R, E>, cancelledDuringWait: bool)

  datatype RetryError<E> = MaxRetriesExceeded(last: E) | ContextDone

  /**
   * The loop's end as far as the given attempts show it: it returned, or the
   * attempts ran out while it was still retrying.
   */
  datatype Run<R, E> = Returned(result: Result<R, RetryError<E>>) | StillRetrying

  /** Attempt `i` failed, the retry budget allowed another try, and its wait ran to completion. */
  predicate Continues<R, E>(attempts: seq<Attempt<R, E>>, maxRetries: int, i: nat)
    requires i < |attempts|
  {
    && attempts[i].result.TransportFailed?
    && !(maxRetries > 0 && i >= maxRetries)
    && !attempts[i].cancelledDuringWait
  }

  /**
   * What the loop returns when attempt number `retries` (counting from 0) does
   * not continue: its response, the exhausted budget wrapping its error, or
   * the context's error when the wait after it was cut short.
   */
  function StopResult<R, E>(attempt: Attempt<R, E>, maxRetries: int, retries: nat): Result<R, RetryError<E>>
  {
    match attempt.result
    case Responded(response) => Ok(response)
    case TransportFailed(error) =>
      if maxRetries > 0 && retries >= maxRetries then Err(MaxRetriesExceeded(error)) else Err(ContextDone)
  }

  /**
   * `made` requests were sent, every one before the last continued, and the
   * loop either stopped on the last one with its StopResult or is still
   * retrying once the attempts run out.
   */
  ghost predicate IsRetryRun<R, E>(attempts: seq<Attempt<R, E>>, maxRetries: int, run: Run<R, E>, made: nat)
  {
    && made <= |attempts|
    && (forall i :: 0 <= i < made - 1 ==> Continues(attempts, maxRetries, i))
    && (run.StillRetrying? ==> made == |attempts| && (0 < made ==> Continues(attempts, maxRetries, made - 1)))
    && (run.Returned? ==>
          && 1 <= made
          && !Continues(attempts, maxRetries, made - 1)
          && run.result == StopResult(attempts[made - 1], maxRetries, made - 1))
  }

  /** The number of waits begun: one after each attempt that did not return at once. */
  ghost function WaitsBegun<R, E>(run: Run<R, E>, made: nat): nat
  {
    if run.StillRetrying? || run == Returned(Err(ContextDone)) then made else if made == 0 then 0 else made - 1
  }

  /**
   * The retry loop over the attempts the environment plays. `made` is the
   * number of requests sent and `waits` the delays of the waits begun,
   * BaseBackoff doubling up to MaxBackoff.
   */
  method DoWithBackoff<R, E>(attempts: seq<Attempt<R, E>>, maxRetries: int)
    returns (run: Run<R, E>, made: nat, waits: seq<Duration>)
    ensures IsRetryRun(attempts, maxRetries, run, made)
    ensures waits == WaitSchedule(WaitsBegun(run, made))
  {
    var backoffDelay := BaseBackoff;
    var retries: nat := 0;
    waits := [];
    while retries < |attempts|
      invariant retries <= |attempts|
      invariant backoffDelay == ScheduledDelay(retries)
      invariant waits == WaitSchedule(retries)
      invariant forall i :: 0 <= i < retries ==> Continues(attempts, maxRetries, i)
      decreases |attempts| - retries
    {
      var attempt := attempts[retries];
      if attempt.result.Responded? {
        run, made := Returned(Ok(attempt.result.response)), retries + 1;
        return;
      }
      if maxRetries > 0 && retries >= maxRetries {
        run, made := Returned(Err(MaxRetriesExceeded(attempt.result.error))), retries + 1;
        return;
      }
      waits := waits + [backoffDelay];
      if attempt.cancelledDuringWait {
        run, made := Returned(Err(ContextDone)), retries + 1;
        return;
      }
      backoffDelay := CalculateNewBackoffDelay(backoffDelay);
      retries := retries + 1;
    }
    run, made := StillRetrying, retries;
  }

  /** The delays of the first `n` waits of the retry loop. */
  function WaitSchedule(n: nat): (s: seq<Duration>)
    ensures |s| == n
  {
    if n == 0 then [] else WaitSchedule(n - 1) + [ScheduledDelay(n - 1)]
  }

  /** Wait `j` lasts BaseBackoff * 2^j, capped at MaxBackoff, whatever the length of the schedule. */
  lemma {:induction false} WaitScheduleClosedForm(n: nat, j: nat)
    requires j < n
    ensures WaitSchedule(n)[j] == Min(BaseBackoff * Pow2(j), MaxBackoff)
  {
    if j < n - 1 {
      WaitScheduleClosedForm(n - 1, j);
    } else {
      ScheduledDelayClosedForm(j);
    }
  }

  /** Once attempts 0..k-1 have continued, at least k + 1 requests were sent. */
  lemma {:induction false} RunReachesAttempt<R, E>(attempts: seq<Attempt<R, E>>, maxRetries: int, run: Run<R, E>, made: nat, k: nat)
    requires IsRetryRun(attempts, maxRetries, run, made)
    requires k < |attempts|
    requires forall i :: 0 <= i < k ==> Continues(attempts, maxRetries, i)
    ensures k < made
  {
  }

  /** The loop returns the first response, after exactly the attempts before it. */
  lemma RunReturnsFirstResponse<R, E>(attempts: seq<Attempt<R, E>>, maxRetries: int, run: Run<R, E>, made: nat, k: nat)
    requires IsRetryRun(attempts, maxRetries, run, made)
    requires k < |attempts| && attempts[k].result.Responded?
    requires forall i :: 0 <= i < k ==> Continues(attempts, maxRetries, i)
    ensures made == k + 1
    ensures run == Returned(Ok(attempts[k].result.response))
  {
    RunReachesAttempt(attempts, maxRetries, run, made, k);
    assert !Continues(attempts, maxRetries, k);
  }

  /**
   * With a positive budget and every attempt failing, the loop sends exactly
   * maxRetries + 1 requests and reports the exhausted budget with the last error.
   */
  lemma RunExhaustsRetries<R, E>(attempts: seq<Attempt<R, E>>, maxRetries: int, run: Run<R, E>, made: nat)
    requires IsRetryRun(attempts, maxRetries, run, made)
    requires 0 < maxRetries < |attempts|
    requires forall i :: 0 <= i <= maxRetries ==> attempts[i].result.TransportFailed?
    requires forall i :: 0 <= i < maxRetries ==> !attempts[i].cancelledDuringWait
    ensures made == maxRetries + 1
    ensures run == Returned(Err(MaxRetriesExceeded(attempts[maxRetries].result.error)))
  {
    assert forall i :: 0 <= i < maxRetries ==> Continues(attempts, maxRetries, i);
    RunReachesAttempt(attempts, maxRetries, run, made, maxRetries);
    assert !Continues(attempts, maxRetries, maxRetries);
  }

  /** A cancellation during a wait ends the loop with the context's error; no further request is sent. */
  lemma RunStopsOnCancellation<R, E>(attempts: seq<Attempt<R, E>>, maxRetries: int, run: Run<R, E>, made: nat, k: nat)
    requires IsRetryRun(attempts, maxRetries, run, made)
    requires k < |attempts| && attempts[k].result.TransportFailed? && attempts[k].cancelledDuringWait
    requires !(maxRetries > 0 && k >= maxRetries)
    requires forall i :: 0 <= i < k ==> Continues(attempts, maxRetries, i)
    ensures made == k + 1
    ensures run == Returned(Err(ContextDone))
  {
    RunReachesAttempt(attempts, maxRetries, run, made, k);
    assert !Continues(attempts, maxRetries, k);
  }

  /** With maxRetries <= 0 the budget never runs out: only a response or a cancellation ends the loop. */
  lemma RunUnboundedNeverExhausts<R, E>(attempts: seq<Attempt<R, E>>, maxRetries: int, run: Run<R, E>, made: nat)
    requires IsRetryRun(attempts, maxRetries, run, made)
    requires maxRetries <= 0
    ensures run.Returned? ==> run.result.Ok? || run.result == Err(ContextDone)
  {
  }
}
