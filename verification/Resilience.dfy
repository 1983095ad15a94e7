/**
 Retry with exponential backoff behind a circuit breaker. Times are whole microseconds. The dependency
 answers adversarially: every attempt has an outcome, a duration and an overrun of the sleep before it.
 */
module Resilience {
  import opened Basics

  // ----- The breaker -----

  datatype Breaker = Breaker(threshold: int, reset: int, failures: nat, openedAt: Option<int>)

  function Fresh(threshold: int, reset: int): Breaker {
    Breaker(threshold, reset, 0, None)
  }

  predicate IsOpen(b: Breaker, now: int) {
    b.openedAt.Some? && now - b.openedAt.value < b.reset
  }

  function OnSuccess(b: Breaker): Breaker {
    b.(failures := 0, openedAt := None)
  }

  function OnFailure(b: Breaker, now: int): Breaker {
    b.(failures := b.failures + 1, openedAt := if b.failures + 1 >= b.threshold then Some(now) else b.openedAt)
  }

  datatype Signal = Success | Failure(at: int)

  function Heard(b: Breaker, signals: seq<Signal>): Breaker {
    if signals == [] then b
    else
      var before, last := Heard(b, signals[..|signals| - 1]), signals[|signals| - 1];
      if last.Success? then OnSuccess(before) else OnFailure(before, last.at)
  }

  /** How many failures have been heard since the last success. */
  function Streak(signals: seq<Signal>): nat {
    if signals == [] || signals[|signals| - 1].Success? then 0 else 1 + Streak(signals[..|signals| - 1])
  }

  /** A fresh breaker counts the current streak, and is stamped exactly from the threshold on, with the last failure. */
  lemma {:induction false} BreakerTracksStreak(threshold: int, reset: int, signals: seq<Signal>)
    requires threshold >= 1
    ensures var b := Heard(Fresh(threshold, reset), signals);
            && b.threshold == threshold && b.reset == reset && b.failures == Streak(signals)
            && b.openedAt == if Streak(signals) >= threshold then Some(signals[|signals| - 1].at) else None
  {
    if signals != [] { BreakerTracksStreak(threshold, reset, signals[..|signals| - 1]); }
  }

  // ----- Retrying -----

  datatype Outcome<+T, +E> = Returned(value: T) | Retryable(error: E) | Fatal(error: E)

  /** One attempt: how late the sleep before it ended, how long the call took, and how it ended. */
  datatype Reply<+T, +E> = Reply(late: nat, took: nat, outcome: Outcome<T, E>)

  datatype Result<+T, +E> = Ok(value: T) | Raised(error: E) | CircuitOpen | NothingTried

  /** What a retried call did: the breaker and clock it leaves, when it called, how long it slept, its result. */
  datatype Trace<+T, +E> = Trace(breaker: Breaker, clock: int, calls: seq<int>, slept: nat, result: Result<T, E>)

  function Pow2(n: nat): nat {
    if n == 0 then 1 else 2 * Pow2(n - 1)
  }

  /** The sleep after a failed attempt: exponential, and none after the last. */
  function Nap(attempt: nat, attempts: int, base: nat): nat {
    if attempt < attempts - 1 then base * Pow2(attempt) else 0
  }

  /** The state of a retried call before some attempt. */
  datatype Progress<+E> = Progress(breaker: Breaker, clock: int, calls: seq<int>, slept: nat, last: Option<E>)

  /** The progress after one more attempt, a retryable failure. */
  function Retried<T, E>(p: Progress<E>, reply: Reply<T, E>, nap: nat): Progress<E> {
    var called := p.clock + reply.late;
    var ended := called + reply.took;
    Progress(OnFailure(p.breaker, ended), ended + nap, p.calls + [called], p.slept + nap,
             if reply.outcome.Returned? then None else Some(reply.outcome.error))
  }

  /** The trace when an attempt ends the retrying. */
  function Ended<T, E>(p: Progress<E>, reply: Reply<T, E>): Trace<T, E> {
    var called := p.clock + reply.late;
    var ended := called + reply.took;
    match reply.outcome
    case Returned(v) => Trace(OnSuccess(p.breaker), ended, p.calls + [called], p.slept, Ok(v))
    case Fatal(e) => Trace(p.breaker, ended, p.calls + [called], p.slept, Raised(e))
    case Retryable(e) => Trace(p.breaker, ended, p.calls + [called], p.slept, Raised(e))
  }

  /** The progress after the given number of attempts, all of them retryable failures. */
  function AfterFailures<T, E>(
      b: Breaker, attempts: int, base: nat, clock: int, env: nat -> Reply<T, E>, n: nat): Progress<E>
  {
    if n == 0 then Progress(b, clock, [], 0, None)
    else Retried(AfterFailures(b, attempts, base, clock, env, n - 1), env(n - 1), Nap(n - 1, attempts, base))
  }

  /** The first attempt that does not end in a retryable failure, or the number of attempts. */
  function FirstStop<T, E>(env: nat -> Reply<T, E>, attempts: int, from: nat): (s: nat)
    ensures from <= attempts ==> from <= s <= attempts
    ensures forall i :: from <= i < s ==> env(i).outcome.Retryable?
    ensures s < attempts ==> !env(s).outcome.Retryable?
    decreases attempts - from
  {
    if from >= attempts then from
    else if !env(from).outcome.Retryable? then from
    else FirstStop(env, attempts, from + 1)
  }

  /** The specification of a retried call. */
  function Retry<T, E>(b: Breaker, attempts: int, base: nat, clock: int, env: nat -> Reply<T, E>): Trace<T, E> {
    if IsOpen(b, clock) then Trace(b, clock, [], 0, CircuitOpen)
    else
      var stop := FirstStop(env, attempts, 0);
      var p := AfterFailures(b, attempts, base, clock, env, stop);
      if stop >= attempts then
        Trace(p.breaker, p.clock, p.calls, p.slept, if p.last.None? then NothingTried else Raised(p.last.value))
      else Ended(p, env(stop))
  }

  lemma {:induction false} SleepsDouble<T, E>(
      b: Breaker, attempts: int, base: nat, clock: int, env: nat -> Reply<T, E>, n: nat)
    requires n <= Max(attempts, 0)
    ensures AfterFailures(b, attempts, base, clock, env, n).slept == base * (Pow2(Min(n, Max(attempts - 1, 0))) - 1)
  {
    if n > 0 {
      SleepsDouble(b, attempts, base, clock, env, n - 1);
      if n < attempts { Doubling(base, n); }
    }
  }

  lemma Doubling(base: nat, n: nat)
    requires n > 0
    ensures base * (Pow2(n) - 1) == base * (Pow2(n - 1) - 1) + base * Pow2(n - 1)
  {
    var p: int := Pow2(n - 1);
    assert base * (2 * p - 1) == base * (p - 1) + base * p;
  }

  lemma {:induction false} AfterFailuresShape<T, E>(
      b: Breaker, attempts: int, base: nat, clock: int, env: nat -> Reply<T, E>, n: nat)
    requires n <= Max(attempts, 0)
    ensures var p := AfterFailures(b, attempts, base, clock, env, n);
            && |p.calls| == n && p.clock >= clock
            && p.breaker.failures == b.failures + n
            && p.breaker.threshold == b.threshold && p.breaker.reset == b.reset
            && (forall i :: 0 <= i < n ==> clock <= p.calls[i] <= p.clock)
            && (n > 0 && b.failures + n >= b.threshold && n == attempts ==> p.breaker.openedAt == Some(p.clock))
            && (b.failures + n < b.threshold ==> p.breaker.openedAt == b.openedAt)
  {
    if n > 0 { AfterFailuresShape(b, attempts, base, clock, env, n - 1); }
  }

  /**
   What a retried call does when the circuit lets it through: it calls up to and including the first
   success or non-retryable error, at most `attempts` times; sleeps base * (2^s - 1) over its s sleeps; and
   leaves the failure count at 0, at its old value plus the retries, or at its old value plus all attempts.
   */
  lemma RetryExact<T, E>(b: Breaker, attempts: int, base: nat, clock: int, env: nat -> Reply<T, E>)
    requires !IsOpen(b, clock)
    ensures var t := Retry(b, attempts, base, clock, env);
            var stop := FirstStop(env, attempts, 0);
            && |t.calls| == Min(Max(attempts, 0), stop + 1)
            && t.slept == base * (Pow2(if stop < attempts then stop else Max(attempts - 1, 0)) - 1)
            && (forall i :: 0 <= i < |t.calls| ==> clock <= t.calls[i] <= t.clock)
            && (stop < attempts && env(stop).outcome.Returned? ==>
                  t.result == Ok(env(stop).outcome.value) && t.breaker == Fresh(b.threshold, b.reset))
            && (stop < attempts && env(stop).outcome.Fatal? ==>
                  t.result == Raised(env(stop).outcome.error) && t.breaker.failures == b.failures + stop)
            && (stop >= attempts > 0 ==>
                  t.result == Raised(env(attempts - 1).outcome.error) && t.breaker.failures == b.failures + attempts)
            && (attempts <= 0 ==> t.result == NothingTried && t.breaker == b)
  {
    AfterFailuresShape(b, attempts, base, clock, env, FirstStop(env, attempts, 0));
    SleepsDouble(b, attempts, base, clock, env, FirstStop(env, attempts, 0));
  }

  // ----- When the calls are made -----

  /** What the first n attempts took, lateness included. */
  function Spent<T, E>(env: nat -> Reply<T, E>, n: nat): nat {
    if n == 0 then 0 else Spent(env, n - 1) + env(n - 1).late + env(n - 1).took
  }

  /** When an attempt is due: after the call before it and the sleep that follows that call. */
  function Due<T, E>(base: nat, clock: int, env: nat -> Reply<T, E>, n: nat): int {
    if n == 0 then clock else Due(base, clock, env, n - 1) + env(n - 1).late + env(n - 1).took + base * Pow2(n - 1)
  }

  lemma {:induction false} DueIs<T, E>(base: nat, clock: int, env: nat -> Reply<T, E>, n: nat)
    ensures Due(base, clock, env, n) == clock + Spent(env, n) + base * (Pow2(n) - 1)
  {
    if n > 0 {
      DueIs(base, clock, env, n - 1);
      Doubling(base, n);
    }
  }

  /** What the breaker hears of some calls: every success, and every retryable failure when its call ends. */
  function Hearing<T, E>(env: nat -> Reply<T, E>, calls: seq<int>): seq<Signal> {
    if calls == [] then []
    else
      var n := |calls| - 1;
      Hearing(env, calls[..n]) +
        match env(n).outcome
        case Returned(_) => [Success]
        case Retryable(_) => [Failure(calls[n] + env(n).took)]
        case Fatal(_) => []
  }

  lemma HeardSnoc(b: Breaker, signals: seq<Signal>, more: seq<Signal>)
    requires |more| <= 1
    ensures Heard(b, signals + more) ==
            if more == [] then Heard(b, signals)
            else if more[0].Success? then OnSuccess(Heard(b, signals)) else OnFailure(Heard(b, signals), more[0].at)
  {
    if more == [] {
      assert signals + more == signals;
    } else {
      assert (signals + more)[..|signals|] == signals && (signals + more)[|signals|] == more[0];
    }
  }

  lemma HearingSnoc<T, E>(b: Breaker, env: nat -> Reply<T, E>, calls: seq<int>, called: int)
    ensures var n, before := |calls|, Heard(b, Hearing(env, calls));
            Heard(b, Hearing(env, calls + [called])) ==
            match env(n).outcome
            case Returned(_) => OnSuccess(before)
            case Retryable(_) => OnFailure(before, called + env(n).took)
            case Fatal(_) => before
  {
    var all := calls + [called];
    assert all[..|calls|] == calls && all[|calls|] == called;
    match env(|calls|).outcome {
      case Returned(_) => HeardSnoc(b, Hearing(env, calls), [Success]);
      case Retryable(_) => HeardSnoc(b, Hearing(env, calls), [Failure(called + env(|calls|).took)]);
      case Fatal(_) => HeardSnoc(b, Hearing(env, calls), []);
    }
  }

  /** Every call is made when due, but for its own lateness. */
  ghost predicate OnTime<T, E>(calls: seq<int>, base: nat, clock: int, env: nat -> Reply<T, E>) {
    forall i {:trigger calls[i]} :: 0 <= i < |calls| ==> calls[i] == Due(base, clock, env, i) + env(i).late
  }

  lemma OnTimeSnoc<T, E>(calls: seq<int>, base: nat, clock: int, env: nat -> Reply<T, E>, called: int)
    requires OnTime(calls, base, clock, env) && called == Due(base, clock, env, |calls|) + env(|calls|).late
    ensures OnTime(calls + [called], base, clock, env)
  {
  }

  /** After n retryable failures: the calls were on time, and the clock shows when the next attempt is due, if any. */
  lemma {:induction false} FailuresOnTime<T, E>(
      b: Breaker, attempts: int, base: nat, clock: int, env: nat -> Reply<T, E>, n: nat)
    requires n <= Max(attempts, 0)
    ensures var p := AfterFailures(b, attempts, base, clock, env, n);
            && |p.calls| == n && OnTime(p.calls, base, clock, env)
            && (n < attempts || n == 0 ==> p.clock == Due(base, clock, env, n))
            && (n == attempts && n > 0 ==> p.clock == p.calls[n - 1] + env(n - 1).took)
  {
    if n > 0 {
      var p := AfterFailures(b, attempts, base, clock, env, n - 1);
      FailuresOnTime(b, attempts, base, clock, env, n - 1);
      OnTimeSnoc(p.calls, base, clock, env, p.clock + env(n - 1).late);
    }
  }

  lemma RetriedHeard<T, E>(b: Breaker, p: Progress<E>, env: nat -> Reply<T, E>, nap: nat)
    requires p.breaker == Heard(b, Hearing(env, p.calls)) && env(|p.calls|).outcome.Retryable?
    ensures var q := Retried(p, env(|p.calls|), nap); q.breaker == Heard(b, Hearing(env, q.calls))
  {
    HearingSnoc(b, env, p.calls, p.clock + env(|p.calls|).late);
  }

  lemma {:induction false} FailuresHeard<T, E>(
      b: Breaker, attempts: int, base: nat, clock: int, env: nat -> Reply<T, E>, n: nat)
    requires forall i :: 0 <= i < n ==> env(i).outcome.Retryable?
    ensures var p := AfterFailures(b, attempts, base, clock, env, n);
            |p.calls| == n && p.breaker == Heard(b, Hearing(env, p.calls))
  {
    if n > 0 {
      FailuresHeard(b, attempts, base, clock, env, n - 1);
      RetriedHeard(b, AfterFailures(b, attempts, base, clock, env, n - 1), env, Nap(n - 1, attempts, base));
    }
  }

  lemma RetryOnTime<T, E>(b: Breaker, attempts: int, base: nat, clock: int, env: nat -> Reply<T, E>)
    requires !IsOpen(b, clock)
    ensures var t := Retry(b, attempts, base, clock, env);
            && OnTime(t.calls, base, clock, env)
            && t.clock == if t.calls == [] then clock else t.calls[|t.calls| - 1] + env(|t.calls| - 1).took
  {
    var stop := FirstStop(env, attempts, 0);
    var p := AfterFailures(b, attempts, base, clock, env, stop);
    FailuresOnTime(b, attempts, base, clock, env, stop);
    if stop < attempts { OnTimeSnoc(p.calls, base, clock, env, p.clock + env(stop).late); }
  }

  lemma EndedHeard<T, E>(b: Breaker, p: Progress<E>, env: nat -> Reply<T, E>)
    requires p.breaker == Heard(b, Hearing(env, p.calls)) && !env(|p.calls|).outcome.Retryable?
    ensures var t := Ended(p, env(|p.calls|)); t.breaker == Heard(b, Hearing(env, t.calls))
  {
    HearingSnoc(b, env, p.calls, p.clock + env(|p.calls|).late);
  }

  /** The breaker has heard of every success and every retryable failure, each failure at the end of its call. */
  lemma RetryHeard<T, E>(b: Breaker, attempts: int, base: nat, clock: int, env: nat -> Reply<T, E>)
    requires !IsOpen(b, clock)
    ensures var t := Retry(b, attempts, base, clock, env); t.breaker == Heard(b, Hearing(env, t.calls))
  {
    var stop := FirstStop(env, attempts, 0);
    var p := AfterFailures(b, attempts, base, clock, env, stop);
    FailuresHeard(b, attempts, base, clock, env, stop);
    if stop < attempts { EndedHeard(b, p, env); }
  }

  /**
   When a retried call reaches the dependency: call i comes after all earlier lateness and durations, its own
   lateness, and sleeps of base, 2 * base, 4 * base and so on, so consecutive calls are at least base * 2^i apart;
   the clock ends with the last call.
   */
  lemma CallTimesExact<T, E>(b: Breaker, attempts: int, base: nat, clock: int, env: nat -> Reply<T, E>, i: nat)
    requires !IsOpen(b, clock)
    ensures var t := Retry(b, attempts, base, clock, env);
            && (i < |t.calls| ==> t.calls[i] == clock + Spent(env, i) + env(i).late + base * (Pow2(i) - 1))
            && (0 < i < |t.calls| ==> t.calls[i] - t.calls[i - 1] >= base * Pow2(i - 1))
            && t.clock == if t.calls == [] then clock else t.calls[|t.calls| - 1] + env(|t.calls| - 1).took
  {
    var calls := Retry(b, attempts, base, clock, env).calls;
    RetryOnTime(b, attempts, base, clock, env);
    if i < |calls| { CallIsDue(calls, base, clock, env, i); }
    if 0 < i < |calls| { NextDue(calls, base, clock, env, i); }
  }

  lemma CallIsDue<T, E>(calls: seq<int>, base: nat, clock: int, env: nat -> Reply<T, E>, i: nat)
    requires OnTime(calls, base, clock, env) && i < |calls|
    ensures calls[i] == clock + Spent(env, i) + env(i).late + base * (Pow2(i) - 1)
  {
    DueIs(base, clock, env, i);
  }

  lemma NextDue<T, E>(calls: seq<int>, base: nat, clock: int, env: nat -> Reply<T, E>, i: nat)
    requires OnTime(calls, base, clock, env) && 0 < i < |calls|
    ensures calls[i] - calls[i - 1] >= base * Pow2(i - 1)
  {
  }

  /** When no success comes, the breaker is that of the k failures, and call k - 1 was the last of them. */
  lemma BreakerOfFailures<T, E>(b: Breaker, attempts: int, base: nat, clock: int, env: nat -> Reply<T, E>, k: nat)
    requires !IsOpen(b, clock) && attempts > 0 && k == FirstStop(env, attempts, 0) && k > 0
    requires k < attempts ==> !env(k).outcome.Returned?
    ensures var t, p := Retry(b, attempts, base, clock, env), AfterFailures(b, attempts, base, clock, env, k);
            t.breaker == p.breaker && k == |p.calls| <= |t.calls| && t.calls[k - 1] == p.calls[k - 1]
  {
    var p := AfterFailures(b, attempts, base, clock, env, k);
    FailuresStamp(b, attempts, base, clock, env, k);
    if k < attempts { assert Retry(b, attempts, base, clock, env) == Ended(p, env(k)); }
  }

  /**
   A retried call that fails after k retryable failures leaves the breaker stamped with the end of call k - 1, the last
   of them, if the failures reach the threshold, and with its old stamp otherwise.
   */
  lemma RetryStamps<T, E>(b: Breaker, attempts: int, base: nat, clock: int, env: nat -> Reply<T, E>, k: nat)
    requires !IsOpen(b, clock) && attempts > 0 && k == FirstStop(env, attempts, 0) && k > 0
    requires k < attempts ==> !env(k).outcome.Returned?
    ensures var t := Retry(b, attempts, base, clock, env);
            && k <= |t.calls| && t.breaker.failures == b.failures + k
            && t.breaker.openedAt == if b.failures + k >= b.threshold then Some(t.calls[k - 1] + env(k - 1).took)
                                     else b.openedAt
  {
    BreakerOfFailures(b, attempts, base, clock, env, k);
    FailuresStamp(b, attempts, base, clock, env, k);
  }

  lemma {:induction false} FailuresStamp<T, E>(
      b: Breaker, attempts: int, base: nat, clock: int, env: nat -> Reply<T, E>, n: nat)
    ensures var p := AfterFailures(b, attempts, base, clock, env, n);
            && |p.calls| == n && p.breaker.failures == b.failures + n && p.breaker.threshold == b.threshold
            && (n > 0 ==> p.breaker.openedAt == if b.failures + n >= b.threshold
                                               then Some(p.calls[n - 1] + env(n - 1).took) else b.openedAt)
            && (n == 0 ==> p.breaker == b)
  {
    if n > 0 { FailuresStamp(b, attempts, base, clock, env, n - 1); }
  }

  class CircuitBreaker {
    const failureThreshold: int
    const resetAfter: int
    var failures: nat
    var openedAt: Option<int>

    constructor (failureThreshold: int, resetAfter: int)
      ensures State() == Fresh(failureThreshold, resetAfter)
    {
      this.failureThreshold, this.resetAfter := failureThreshold, resetAfter;
      failures, openedAt := 0, None;
    }

    function State(): Breaker
      reads this
    {
      Breaker(failureThreshold, resetAfter, failures, openedAt)
    }

    method CheckOpen(now: int) returns (open: bool)
      ensures open <==> IsOpen(State(), now)
    {
      if openedAt.None? { return false; }
      if now - openedAt.value >= resetAfter { return false; }
      return true;
    }

    method RecordSuccess()
      modifies this
      ensures State() == OnSuccess(old(State()))
    {
      failures, openedAt := 0, None;
    }

    method RecordFailure(now: int)
      modifies this
      ensures State() == OnFailure(old(State()), now)
    {
      failures := failures + 1;
      if failures >= failureThreshold { openedAt := Some(now); }
    }
  }

  /** One call of the dependency; the breaker hears of a success or of a retryable failure, at the time it ends. */
  method Attempt<T, E>(breaker: CircuitBreaker, reply: Reply<T, E>, clock: int) returns (ended: int)
    modifies breaker
    ensures ended == clock + reply.late + reply.took
    ensures breaker.State() == match reply.outcome
                               case Returned(_) => OnSuccess(old(breaker.State()))
                               case Retryable(_) => OnFailure(old(breaker.State()), ended)
                               case Fatal(_) => old(breaker.State())
  {
    ended := clock + reply.late + reply.took;
    match reply.outcome {
      case Returned(_) => breaker.RecordSuccess();
      case Retryable(_) => breaker.RecordFailure(ended);
      case Fatal(_) =>
    }
  }

  lemma RetryEnds<T, E>(b: Breaker, attempts: int, base: nat, clock: int, env: nat -> Reply<T, E>, stop: nat)
    requires !IsOpen(b, clock) && stop < attempts
    requires FirstStop(env, attempts, 0) == FirstStop(env, attempts, stop) && !env(stop).outcome.Retryable?
    ensures Retry(b, attempts, base, clock, env) == Ended(AfterFailures(b, attempts, base, clock, env, stop), env(stop))
  {
  }

  lemma RetryGoesOn<T, E>(b: Breaker, attempts: int, base: nat, clock: int, env: nat -> Reply<T, E>, n: nat)
    requires n < attempts && env(n).outcome.Retryable?
    ensures FirstStop(env, attempts, n) == FirstStop(env, attempts, n + 1)
    ensures AfterFailures(b, attempts, base, clock, env, n + 1) ==
            Retried(AfterFailures(b, attempts, base, clock, env, n), env(n), Nap(n, attempts, base))
  {
  }

  lemma RetryExhausts<T, E>(b: Breaker, attempts: int, base: nat, clock: int, env: nat -> Reply<T, E>, n: nat)
    requires !IsOpen(b, clock) && n == Max(attempts, 0)
    requires FirstStop(env, attempts, 0) == FirstStop(env, attempts, n)
    ensures Retry(b, attempts, base, clock, env) == Exhausted(AfterFailures(b, attempts, base, clock, env, n))
  {
  }

  /** The trace when every attempt has failed. */
  function Exhausted<T, E>(p: Progress<E>): Trace<T, E> {
    Trace(p.breaker, p.clock, p.calls, p.slept, if p.last.None? then NothingTried else Raised(p.last.value))
  }

  /** What the retry loop does from some attempt on. */
  function RetryFrom<T, E>(p: Progress<E>, attempts: int, base: nat, env: nat -> Reply<T, E>, n: nat): Trace<T, E>
    decreases attempts - n
  {
    if n >= attempts then Exhausted(p)
    else if !env(n).outcome.Retryable? then Ended(p, env(n))
    else RetryFrom(Retried(p, env(n), Nap(n, attempts, base)), attempts, base, env, n + 1)
  }

  lemma {:induction false} RetryFromContinues<T, E>(
      b: Breaker, attempts: int, base: nat, clock: int, env: nat -> Reply<T, E>, n: nat)
    requires !IsOpen(b, clock) && n <= Max(attempts, 0)
    requires FirstStop(env, attempts, 0) == FirstStop(env, attempts, n)
    ensures RetryFrom(AfterFailures(b, attempts, base, clock, env, n), attempts, base, env, n) ==
            Retry(b, attempts, base, clock, env)
    decreases attempts - n
  {
    if n >= attempts {
      RetryExhausts(b, attempts, base, clock, env, n);
    } else if env(n).outcome.Retryable? {
      RetryGoesOn(b, attempts, base, clock, env, n);
      RetryFromContinues(b, attempts, base, clock, env, n + 1);
    } else {
      RetryEnds(b, attempts, base, clock, env, n);
    }
  }

  /** The loop, begun behind a closed breaker, does what the specification of a retried call says. */
  lemma LoopIsRetry<T, E>(b: Breaker, attempts: int, base: nat, clock: int, env: nat -> Reply<T, E>)
    requires !IsOpen(b, clock)
    ensures RetryFrom(Progress(b, clock, [], 0, None), attempts, base, env, 0) == Retry(b, attempts, base, clock, env)
  {
    RetryFromContinues(b, attempts, base, clock, env, 0);
  }

  /** One pass of the retry loop: call, and end with a result, or sleep and leave the error for later. */
  method Pass<T, E>(
      breaker: CircuitBreaker, reply: Reply<T, E>, nap: nat, start: int, before: seq<int>, sofar: nat)
    returns (result: Result<T, E>, clock: int, calls: seq<int>, slept: nat)
    modifies breaker
    ensures var p := Progress(old(breaker.State()), start, before, sofar, None);
            if reply.outcome.Retryable?
            then && result == Raised(reply.outcome.error)
                 && Progress(breaker.State(), clock, calls, slept, Some(reply.outcome.error)) == Retried(p, reply, nap)
            else Trace(breaker.State(), clock, calls, slept, result) == Ended(p, reply)
  {
    calls, slept := before + [start + reply.late], sofar;
    clock := Attempt(breaker, reply, start);
    match reply.outcome {
      case Returned(v) => result := Ok(v);
      case Fatal(e) => result := Raised(e);
      case Retryable(e) =>
        result := Raised(e);
        clock, slept := clock + nap, slept + nap;
    }
  }

  /** Call the dependency with exponential backoff, respecting the breaker. */
  method WithRetry<T, E>(breaker: CircuitBreaker, attempts: int, base: nat, start: int, env: nat -> Reply<T, E>)
    returns (result: Result<T, E>, clock: int, calls: seq<int>, slept: nat)
    modifies breaker
    ensures Trace(breaker.State(), clock, calls, slept, result) ==
            Retry(old(breaker.State()), attempts, base, start, env)
    ensures old(IsOpen(breaker.State(), start)) ==>
              && result == CircuitOpen && calls == [] && slept == 0 && clock == start
              && breaker.State() == old(breaker.State())
  {
    clock, calls, slept := start, [], 0;
    var open := breaker.CheckOpen(clock);
    if open { return CircuitOpen, clock, calls, slept; }
    var last: Option<E> := None;
    var attempt := 0;
    ghost var first := Progress(breaker.State(), start, [], 0, None);
    LoopIsRetry(breaker.State(), attempts, base, start, env);
    while attempt < attempts
      invariant 0 <= attempt <= Max(attempts, 0)
      invariant RetryFrom(Progress(breaker.State(), clock, calls, slept, last), attempts, base, env, attempt) ==
                RetryFrom(first, attempts, base, env, 0)
    {
      var reply := env(attempt);
      result, clock, calls, slept := Pass(breaker, reply, Nap(attempt, attempts, base), clock, calls, slept);
      if !reply.outcome.Retryable? { return; }
      last := Some(reply.outcome.error);
      attempt := attempt + 1;
    }
    result := if last.None? then NothingTried else Raised(last.value);
  }

  // ----- Load on a dead dependency -----

  /** One use of the breaker: it begins some time after the previous one ended. */
  datatype Request<!T, !E> = Request(gap: nat, env: nat -> Reply<T, E>)

  ghost predicate Dead<T, E>(env: nat -> Reply<T, E>) {
    forall i: nat :: env(i).outcome.Retryable?
  }

  ghost predicate AllDead<T, E>(requests: seq<Request<T, E>>) {
    forall r :: r in requests ==> Dead(r.env)
  }

  function First<T, E>(b: Breaker, attempts: int, base: nat, clock: int, requests: seq<Request<T, E>>): Trace<T, E>
    requires requests != []
  {
    Retry(b, attempts, base, clock + requests[0].gap, requests[0].env)
  }

  /** The times at which sequential retried calls reach the dependency. */
  function Load<T, E>(b: Breaker, attempts: int, base: nat, clock: int, requests: seq<Request<T, E>>): seq<int>
    decreases |requests|
  {
    if requests == [] then []
    else
      var t := First(b, attempts, base, clock, requests);
      t.calls + Load(t.breaker, attempts, base, t.clock, requests[1..])
  }

  /** When the breaker first opens: the last failure of the retried call that opened it. */
  function Opening<T, E>(b: Breaker, attempts: int, base: nat, clock: int, requests: seq<Request<T, E>>): Option<int>
    decreases |requests|
  {
    if requests == [] then None
    else
      var t := First(b, attempts, base, clock, requests);
      if t.breaker.openedAt.Some? then t.breaker.openedAt
      else Opening(t.breaker, attempts, base, t.clock, requests[1..])
  }

  function CountUpTo(times: seq<int>, limit: int): nat {
    if times == [] then 0 else CountUpTo(times[1..], limit) + (if times[0] <= limit then 1 else 0)
  }

  /** n divided by d, rounded up. */
  function CeilDiv(n: int, d: int): (q: nat)
    requires d > 0
    decreases n
  {
    if n <= 0 then 0 else 1 + CeilDiv(n - d, d)
  }

  /** The number of bursts before the breaker opens: the least whose calls reach the threshold. */
  lemma {:induction false} CeilDivIsCeiling(n: int, d: int)
    requires n > 0 && d > 0
    ensures (CeilDiv(n, d) - 1) * d < n <= CeilDiv(n, d) * d
    decreases n
  {
    var q: int := CeilDiv(n - d, d);
    TimesSuccessor(q, d);
    TimesSuccessor(q - 1, d);
    if n > d { CeilDivIsCeiling(n - d, d); }
  }

  lemma DeadBurst<T, E>(b: Breaker, attempts: int, base: nat, clock: int, env: nat -> Reply<T, E>)
    requires attempts >= 1 && Dead(env) && !IsOpen(b, clock)
    ensures var t := Retry(b, attempts, base, clock, env);
            && |t.calls| == attempts && t.clock >= clock
            && t.breaker.failures == b.failures + attempts
            && t.breaker.threshold == b.threshold && t.breaker.reset == b.reset
            && (forall i :: 0 <= i < attempts ==> clock <= t.calls[i] <= t.clock)
            && (b.failures + attempts >= b.threshold ==> t.breaker.openedAt == Some(t.clock))
            && (b.failures + attempts < b.threshold ==> t.breaker.openedAt == b.openedAt)
  {
    RetryExact(b, attempts, base, clock, env);
    AfterFailuresShape(b, attempts, base, clock, env, attempts);
  }

  /** The first request's calls come first, then those of the rest. */
  lemma LoadAt<T, E>(b: Breaker, attempts: int, base: nat, clock: int, requests: seq<Request<T, E>>, k: nat)
    requires requests != [] && k < |Load(b, attempts, base, clock, requests)|
    ensures var t := First(b, attempts, base, clock, requests);
            var rest := Load(t.breaker, attempts, base, t.clock, requests[1..]);
            && |Load(b, attempts, base, clock, requests)| == |t.calls| + |rest|
            && Load(b, attempts, base, clock, requests)[k] == if k < |t.calls| then t.calls[k] else rest[k - |t.calls|]
  {
    var t := First(b, attempts, base, clock, requests);
    assert Load(b, attempts, base, clock, requests) ==
           t.calls + Load(t.breaker, attempts, base, t.clock, requests[1..]);
  }

  lemma TimesSuccessor(m: int, x: int)
    ensures (m + 1) * x == m * x + x
  {
  }

  /** Once open, every call after the first m bursts comes at least m + 1 reset periods later. */
  lemma {:induction false} OpenBreakerSpacesBursts<T, E>(
      b: Breaker, attempts: int, base: nat, clock: int, requests: seq<Request<T, E>>, stamp: int, k: nat, m: nat)
    requires attempts >= 1 && AllDead(requests) && b.reset > 0
    requires b.openedAt == Some(stamp) && b.failures >= b.threshold && stamp <= clock
    requires m * attempts <= k < |Load(b, attempts, base, clock, requests)|
    ensures Load(b, attempts, base, clock, requests)[k] >= stamp + (m + 1) * b.reset
    decreases |requests|
  {
    var start := clock + requests[0].gap;
    var t := First(b, attempts, base, clock, requests);
    assert requests[0] in requests;
    LoadAt(b, attempts, base, clock, requests, k);
    if IsOpen(b, start) {
      OpenBreakerSpacesBursts(b, attempts, base, t.clock, requests[1..], stamp, k, m);
    } else {
      DeadBurst(b, attempts, base, start, requests[0].env);
      TimesSuccessor(m, b.reset);
      TimesSuccessor(m - 1, attempts);
      if k < attempts {
        if m >= 1 { TimesMonotone(0, m - 1, attempts); }
      } else {
        var n: nat := if m == 0 then 0 else m - 1;
        OpenBreakerSpacesBursts(t.breaker, attempts, base, t.clock, requests[1..], t.clock, k - attempts, n);
        TimesSuccessor(n, b.reset);
        TimesMonotone(0, n, b.reset);
      }
    }
  }

  lemma TimesMonotone(m: int, n: int, x: int)
    requires m <= n && x >= 0
    ensures m * x <= n * x
  {
  }

  lemma {:induction false} CountLate(times: seq<int>, limit: int, n: nat)
    requires forall k :: n <= k < |times| ==> times[k] > limit
    ensures CountUpTo(times, limit) <= n
  {
    if times != [] {
      if n == 0 {
        assert times[0] > limit;
        CountLate(times[1..], limit, 0);
      } else {
        CountLate(times[1..], limit, n - 1);
      }
    }
  }

  lemma OneRound(need: int, attempts: int, m: nat)
    requires need >= 1 && attempts >= 1
    ensures CeilDiv(need, attempts) * attempts == CeilDiv(need - attempts, attempts) * attempts + attempts
    ensures CeilDiv(need - attempts, attempts) * attempts >= 0 && m * attempts >= 0
  {
    TimesSuccessor(CeilDiv(need - attempts, attempts), attempts);
    TimesMonotone(0, CeilDiv(need - attempts, attempts), attempts);
    TimesMonotone(0, m, attempts);
  }

  /** The first burst already opens the breaker. */
  lemma OpensAtOnce<T, E>(
      b: Breaker, attempts: int, base: nat, clock: int, requests: seq<Request<T, E>>, k: nat, m: nat)
    requires attempts >= 1 && AllDead(requests) && b.reset > 0 && requests != []
    requires b.openedAt == None && b.failures < b.threshold <= b.failures + attempts
    ensures var load := Load(b, attempts, base, clock, requests);
            var opening := Opening(b, attempts, base, clock, requests);
            opening.Some? && (attempts + m * attempts <= k < |load| ==> load[k] >= opening.value + (m + 1) * b.reset)
  {
    var t := First(b, attempts, base, clock, requests);
    assert requests[0] in requests;
    DeadBurst(b, attempts, base, clock + requests[0].gap, requests[0].env);
    TimesMonotone(0, m, attempts);
    if attempts + m * attempts <= k < |Load(b, attempts, base, clock, requests)| {
      LoadAt(b, attempts, base, clock, requests, k);
      OpenBreakerSpacesBursts(t.breaker, attempts, base, t.clock, requests[1..], t.clock, k - attempts, m);
    }
  }

  /** How many calls pass before the breaker opens, and when later ones come. */
  lemma {:induction false} ClosedBreakerOpensInTime<T, E>(
      b: Breaker, attempts: int, base: nat, clock: int, requests: seq<Request<T, E>>, k: nat, m: nat)
    requires attempts >= 1 && AllDead(requests) && b.reset > 0
    requires b.openedAt == None && b.failures < b.threshold
    ensures var load := Load(b, attempts, base, clock, requests);
            var opening := Opening(b, attempts, base, clock, requests);
            var before := CeilDiv(b.threshold - b.failures, attempts) * attempts;
            && (opening.None? ==> |load| <= before)
            && (opening.Some? && before + m * attempts <= k < |load| ==>
                  load[k] >= opening.value + (m + 1) * b.reset)
    decreases |requests|
  {
    var need := b.threshold - b.failures;
    if requests != [] {
      OneRound(need, attempts, m);
      if need <= attempts {
        OpensAtOnce(b, attempts, base, clock, requests, k, m);
      } else {
        var t := First(b, attempts, base, clock, requests);
        var j: nat := if k < attempts then 0 else k - attempts;
        assert requests[0] in requests;
        DeadBurst(b, attempts, base, clock + requests[0].gap, requests[0].env);
        if k < |Load(b, attempts, base, clock, requests)| { LoadAt(b, attempts, base, clock, requests, k); }
        ClosedBreakerOpensInTime(t.breaker, attempts, base, t.clock, requests[1..], j, m);
      }
    }
  }

  lemma WholePeriods(d: nat, reset: int)
    requires reset > 0
    ensures d / reset >= 0 && d < (d / reset + 1) * reset
  {
    TimesSuccessor(d / reset, reset);
  }

  /** The most calls that can reach a dead dependency until d after the breaker opened: ceil(T/a)*a + floor(D/R)*a. */
  function LoadCap(need: int, attempts: int, reset: int, d: nat): int
    requires attempts >= 1 && reset > 0
  {
    CeilDiv(need, attempts) * attempts + (d / reset) * attempts
  }

  lemma LoadCapNatural(need: int, attempts: int, reset: int, d: nat)
    requires attempts >= 1 && reset > 0
    ensures LoadCap(need, attempts, reset, d) >= 0
  {
    WholePeriods(d, reset);
    TimesMonotone(0, CeilDiv(need, attempts), attempts);
    TimesMonotone(0, d / reset, attempts);
  }

  lemma LateCall<T, E>(
      b: Breaker, attempts: int, base: nat, clock: int, requests: seq<Request<T, E>>, k: nat, d: nat)
    requires attempts >= 1 && AllDead(requests) && b.reset > 0
    requires b.openedAt == None && b.failures < b.threshold
    requires Opening(b, attempts, base, clock, requests).Some?
    requires LoadCap(b.threshold - b.failures, attempts, b.reset, d) <= k < |Load(b, attempts, base, clock, requests)|
    ensures Load(b, attempts, base, clock, requests)[k] > Opening(b, attempts, base, clock, requests).value + d
  {
    WholePeriods(d, b.reset);
    ClosedBreakerOpensInTime(b, attempts, base, clock, requests, k, d / b.reset);
  }

  lemma CountFrom(times: seq<int>, limit: int, n: int)
    requires n >= 0 && forall k: nat :: n <= k < |times| ==> times[k] > limit
    ensures CountUpTo(times, limit) <= n
  {
    CountLate(times, limit, n);
  }

  /**
   Against a dependency that always fails retryably, sequential retried calls through a fresh breaker reach
   it at most ceil(T/a)*a + a*floor(D/R) times up to D after the breaker opened, and at most ceil(T/a)*a times
   if it never opens.
   */
  lemma DeadDependencyLoad<T, E>(
      threshold: int, reset: int, attempts: int, base: nat, clock: int, requests: seq<Request<T, E>>, d: nat)
    requires threshold >= 1 && reset > 0 && attempts >= 1 && AllDead(requests)
    ensures var load := Load(Fresh(threshold, reset), attempts, base, clock, requests);
            var opening := Opening(Fresh(threshold, reset), attempts, base, clock, requests);
            && (opening.None? ==> |load| <= CeilDiv(threshold, attempts) * attempts)
            && (opening.Some? ==> CountUpTo(load, opening.value + d) <= LoadCap(threshold, attempts, reset, d))
  {
    var b := Fresh(threshold, reset);
    ClosedBreakerOpensInTime(b, attempts, base, clock, requests, 0, 0);
    var opening := Opening(b, attempts, base, clock, requests);
    if opening.Some? {
      var load, cap := Load(b, attempts, base, clock, requests), LoadCap(threshold, attempts, reset, d);
      LoadCapNatural(threshold, attempts, reset, d);
      forall k: nat | cap <= k < |load| ensures load[k] > opening.value + d {
        LateCall(b, attempts, base, clock, requests, k, d);
      }
      CountFrom(load, opening.value + d, cap);
    }
  }

  /** A dependency that fails at once, every time. */
  function Refusing(): nat -> Reply<(), ()> {
    (i: nat) => Reply(0, 0, Retryable(()))
  }

  function Spaced(gap: nat, n: nat): seq<Request<(), ()>> {
    if n == 0 then [] else [Request(gap, Refusing())] + Spaced(gap, n - 1)
  }

  lemma {:induction false} RefusedAtOnce(b: Breaker, attempts: int, clock: int, n: nat)
    requires n <= Max(attempts, 0)
    ensures AfterFailures(b, attempts, 0, clock, Refusing(), n).clock == clock
  {
    if n > 0 { RefusedAtOnce(b, attempts, clock, n - 1); }
  }

  lemma InstantBurst(b: Breaker, attempts: int, start: int)
    requires attempts >= 1 && !IsOpen(b, start)
    ensures var t := Retry(b, attempts, 0, start, Refusing());
            && |t.calls| == attempts && t.clock == start && t.breaker.failures == b.failures + attempts
            && t.breaker.threshold == b.threshold && t.breaker.reset == b.reset
            && (forall i :: 0 <= i < attempts ==> t.calls[i] <= start)
            && (b.failures + attempts >= b.threshold ==> t.breaker.openedAt == Some(start))
            && (b.failures + attempts < b.threshold ==> t.breaker.openedAt == b.openedAt)
  {
    DeadBurst(b, attempts, 0, start, Refusing());
    RefusedAtOnce(b, attempts, start, attempts);
  }

  lemma {:induction false} CountAll(times: seq<int>, limit: int)
    requires forall k :: 0 <= k < |times| ==> times[k] <= limit
    ensures CountUpTo(times, limit) == |times|
  {
    if times != [] { CountAll(times[1..], limit); }
  }

  /** An open breaker tried once per reset period lets a whole burst through each time. */
  lemma {:induction false} BurstEveryPeriod(b: Breaker, attempts: int, clock: int, n: nat, k: nat)
    requires attempts >= 1 && b.reset > 0 && b.failures >= b.threshold && b.openedAt == Some(clock)
    ensures var load := Load(b, attempts, 0, clock, Spaced(b.reset, n));
            |load| == n * attempts && (k < |load| ==> load[k] <= clock + n * b.reset)
    decreases n
  {
    if n > 0 {
      SpacedLoad(b, attempts, clock, n);
      var t := Retry(b, attempts, 0, clock + b.reset, Refusing());
      var j: nat := if k < attempts then 0 else k - attempts;
      BurstEveryPeriod(t.breaker, attempts, clock + b.reset, n - 1, j);
      OnePeriodLess(n, attempts);
      OnePeriodLess(n, b.reset);
      var later := Load(t.breaker, attempts, 0, clock + b.reset, Spaced(b.reset, n - 1));
      BoundedConcat(t.calls, later, k, clock + b.reset, clock + n * b.reset);
    }
  }

  lemma OnePeriodLess(n: nat, x: int)
    requires n > 0 && x >= 0
    ensures n * x == (n - 1) * x + x && n * x >= x
  {
    TimesSuccessor(n - 1, x);
    TimesMonotone(0, n - 1, x);
  }

  lemma BoundedConcat(near: seq<int>, far: seq<int>, k: nat, soon: int, late: int)
    requires soon <= late && forall i :: 0 <= i < |near| ==> near[i] <= soon
    requires |near| <= k < |near| + |far| ==> far[k - |near|] <= late
    ensures k < |near + far| ==> (near + far)[k] <= late
  {
  }

  /** The first burst of the spaced calls, and what follows it. */
  lemma SpacedLoad(b: Breaker, attempts: int, clock: int, n: nat)
    requires attempts >= 1 && b.reset > 0 && b.failures >= b.threshold && b.openedAt == Some(clock) && n > 0
    ensures var start := clock + b.reset;
            var t := Retry(b, attempts, 0, start, Refusing());
            && |t.calls| == attempts && (forall i :: 0 <= i < attempts ==> t.calls[i] <= start)
            && t.breaker.failures == b.failures + attempts && t.breaker.openedAt == Some(start)
            && t.breaker.threshold == b.threshold && t.breaker.reset == b.reset
            && Load(b, attempts, 0, clock, Spaced(b.reset, n)) ==
               t.calls + Load(t.breaker, attempts, 0, start, Spaced(b.reset, n - 1))
  {
    InstantBurst(b, attempts, clock + b.reset);
    assert Spaced(b.reset, n)[1..] == Spaced(b.reset, n - 1);
  }

  /** Retried calls at one moment until the breaker opens, then one per reset period. */
  function Storm(need: int, attempts: int, reset: nat, n: nat): seq<Request<(), ()>>
    requires attempts >= 1
    decreases need
  {
    if need <= 0 then Spaced(reset, n) else [Request(0, Refusing())] + Storm(need - attempts, attempts, reset, n)
  }

  /** A storm opens the breaker at once, after as many calls as it takes, and then goes on for n periods. */
  lemma {:induction false} StormLength(b: Breaker, attempts: int, clock: int, n: nat)
    requires attempts >= 1 && b.reset > 0 && b.openedAt == None && b.failures < b.threshold
    ensures var requests := Storm(b.threshold - b.failures, attempts, b.reset, n);
            && Opening(b, attempts, 0, clock, requests) == Some(clock)
            && |Load(b, attempts, 0, clock, requests)| ==
               CeilDiv(b.threshold - b.failures, attempts) * attempts + n * attempts
    decreases b.threshold - b.failures
  {
    var need := b.threshold - b.failures;
    var t := Retry(b, attempts, 0, clock, Refusing());
    StormBurst(b, attempts, clock, n);
    OneRound(need, attempts, n);
    if need <= attempts {
      BurstEveryPeriod(t.breaker, attempts, clock, n, 0);
    } else {
      StormLength(t.breaker, attempts, clock, n);
    }
  }

  /** All of it comes within n reset periods. */
  lemma {:induction false} StormBound(b: Breaker, attempts: int, clock: int, n: nat, k: nat, late: int)
    requires attempts >= 1 && b.reset > 0 && b.openedAt == None && b.failures < b.threshold
    requires late == clock + n * b.reset
    ensures var load := Load(b, attempts, 0, clock, Storm(b.threshold - b.failures, attempts, b.reset, n));
            k < |load| ==> load[k] <= late
    decreases b.threshold - b.failures
  {
    var need := b.threshold - b.failures;
    var t := Retry(b, attempts, 0, clock, Refusing());
    StormBurst(b, attempts, clock, n);
    var later := Load(t.breaker, attempts, 0, clock, Storm(need - attempts, attempts, b.reset, n));
    assert late >= clock by { TimesMonotone(0, n, b.reset); }
    if k >= attempts {
      if need <= attempts {
        BurstEveryPeriod(t.breaker, attempts, clock, n, k - attempts);
      } else {
        StormBound(t.breaker, attempts, clock, n, k - attempts, late);
      }
    }
    BoundedConcat(t.calls, later, k, clock, late);
  }

  /** The first burst of the storm, and what follows it. */
  lemma StormBurst(b: Breaker, attempts: int, clock: int, n: nat)
    requires attempts >= 1 && b.reset > 0 && b.openedAt == None && b.failures < b.threshold
    ensures var need := b.threshold - b.failures;
            var t := Retry(b, attempts, 0, clock, Refusing());
            var requests, rest := Storm(need, attempts, b.reset, n), Storm(need - attempts, attempts, b.reset, n);
            && |t.calls| == attempts && (forall i :: 0 <= i < attempts ==> t.calls[i] <= clock)
            && t.breaker.failures == b.failures + attempts
            && t.breaker.openedAt == (if need <= attempts then Some(clock) else None)
            && t.breaker.threshold == b.threshold && t.breaker.reset == b.reset
            && Load(b, attempts, 0, clock, requests) == t.calls + Load(t.breaker, attempts, 0, clock, rest)
            && Opening(b, attempts, 0, clock, requests) ==
               if need <= attempts then Some(clock) else Opening(t.breaker, attempts, 0, clock, rest)
  {
    var need := b.threshold - b.failures;
    InstantBurst(b, attempts, clock);
    assert Storm(need, attempts, b.reset, n)[1..] == Storm(need - attempts, attempts, b.reset, n);
  }

  /** The bound is attained: a whole burst, not a single trial, passes in every reset period. */
  lemma LoadCapAttained(threshold: int, reset: int, attempts: int, clock: int, n: nat)
    requires threshold >= 1 && reset > 0 && attempts >= 1
    ensures var requests := Storm(threshold, attempts, reset, n);
            var load := Load(Fresh(threshold, reset), attempts, 0, clock, requests);
            && Opening(Fresh(threshold, reset), attempts, 0, clock, requests) == Some(clock)
            && n * reset >= 0
            && CountUpTo(load, clock + n * reset) == LoadCap(threshold, attempts, reset, n * reset)
  {
    var b := Fresh(threshold, reset);
    var load := Load(b, attempts, 0, clock, Storm(threshold, attempts, reset, n));
    TimesMonotone(0, n, reset);
    StormLength(b, attempts, clock, n);
    forall k | 0 <= k < |load| ensures load[k] <= clock + n * reset {
      StormBound(b, attempts, clock, n, k, clock + n * reset);
    }
    CountAll(load, clock + n * reset);
    PeriodsIn(n, reset);
  }

  lemma PeriodsIn(n: nat, reset: int)
    requires reset > 0
    ensures n * reset >= 0 && (n * reset) / reset == n
  {
    var q := (n * reset) / reset;
    var r := (n * reset) % reset;
    assert n * reset == q * reset + r;
    if q < n { TimesMonotone(q + 1, n, reset); TimesSuccessor(q, reset); }
    if q > n { TimesMonotone(n + 1, q, reset); TimesSuccessor(n, reset); }
  }
}
