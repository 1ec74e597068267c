/**
 The provider retry loop (internal/provider/retry.go). The operation, the context, the sleeper and
 the jitter are the loop's environment: what each of them answers is an arbitrary function of the
 attempt it is asked in. StopAt says what one attempt does; a run is the attempts up to the first
 that stops.
 */
module Retry {
  import opened Domain
  import opened Backoff

  datatype Failure = Failure(retryable: bool, retryAfter: Duration)

  datatype Reply = Succeeds | Fails(failure: Failure)

  datatype Environment = Environment(operation: nat -> Reply, endedBefore: nat -> bool, endedAfter: nat -> bool,
                                     sleepFails: nat -> bool, jitter: Option<(nat, Duration) -> Duration>)

  datatype Policy = Policy(maxAttempts: int, initialBackoff: Duration, maxBackoff: Duration,
                           maxRetryAfter: Duration, totalTimeout: Duration)

  datatype Outcome = Succeeded | GaveUp(failure: Failure) | ContextEnded | SleepFailed | Invalid

  datatype Stop = Stop(count: nat, outcome: Outcome)

  predicate ValidPolicy(p: Policy) {
    && p.maxAttempts > 0 && p.initialBackoff > 0 && p.maxBackoff >= p.initialBackoff
    && p.maxRetryAfter >= 0 && p.totalTimeout >= 0
  }

  /** One attempt */

  function StopAt(p: Policy, e: Environment, attempt: nat): Option<Stop>
    requires attempt > 0
  {
    if e.endedBefore(attempt) then Some(Stop(attempt - 1, ContextEnded))
    else
      match e.operation(attempt)
      case Succeeds => Some(Stop(attempt, Succeeded))
      case Fails(f) =>
        if e.endedAfter(attempt) then Some(Stop(attempt, ContextEnded))
        else if !f.retryable || attempt == p.maxAttempts then Some(Stop(attempt, GaveUp(f)))
        else if e.sleepFails(attempt) then Some(Stop(attempt, SleepFailed))
        else None
  }

  function Jittered(p: Policy, e: Environment, attempt: nat): int
    requires ValidPolicy(p)
  {
    ScheduledBounds(p.initialBackoff as int, p.maxBackoff as int, attempt);
    var delay := Scheduled(p.initialBackoff as int, p.maxBackoff as int, attempt) as Duration;
    var moved := if e.jitter.Some? then e.jitter.value(attempt, delay) else delay;
    Min(Max(moved as int, 0), p.maxBackoff as int)
  }

  // How long the loop sleeps after the given failed attempt.
  function DelayAfter(p: Policy, e: Environment, attempt: nat, f: Failure): int
    requires ValidPolicy(p)
  {
    if f.retryAfter <= 0 then Jittered(p, e, attempt)
    else if p.maxRetryAfter > 0 then Min(f.retryAfter as int, p.maxRetryAfter as int)
    else f.retryAfter as int
  }

  /** Runs */

  ghost predicate Proceeds(p: Policy, e: Environment, n: nat) {
    forall i: nat :: 0 < i < n ==> StopAt(p, e, i).None?
  }

  // The run stops in attempt n.
  ghost predicate StopsIn(p: Policy, e: Environment, n: nat, stop: Stop) {
    0 < n && Proceeds(p, e, n) && StopAt(p, e, n) == Some(stop)
  }

  // The run gets past the given attempt to its sleeper.
  ghost predicate AsksToSleep(p: Policy, e: Environment, attempt: nat) {
    && 0 < attempt < p.maxAttempts && Proceeds(p, e, attempt) && !e.endedBefore(attempt)
    && RetryableFailure(e.operation(attempt)) && !e.endedAfter(attempt)
  }

  predicate RetryableFailure(r: Reply) { r.Fails? && r.failure.retryable }

  ghost predicate SleepsAre(p: Policy, e: Environment, sleeps: seq<Duration>) {
    forall i :: 0 <= i < |sleeps| ==> SleepIs(p, e, i + 1, sleeps[i])
  }

  // The backoff of the attempt itself, moved by the jitter and kept between zero and the maximum.
  ghost predicate BacksOff(p: Policy, e: Environment, attempt: nat, delay: Duration) {
    exists backoff :: BacksOffFrom(p, e, attempt, backoff, delay)
  }

  ghost predicate BacksOffFrom(p: Policy, e: Environment, attempt: nat, backoff: Duration, delay: Duration) {
    && WaitsFor(backoff as int, p.initialBackoff as int, p.maxBackoff as int, attempt)
    && var moved := if e.jitter.Some? then e.jitter.value(attempt, backoff) else backoff;
       delay == if moved < 0 then 0 else if moved > p.maxBackoff then p.maxBackoff else moved
  }

  // The sleep after an attempt that failed: as long as was asked for, unless that exceeds a cap
  // that is set, and the backoff if nothing was asked for.
  ghost predicate SleepIs(p: Policy, e: Environment, attempt: nat, delay: Duration) {
    && e.operation(attempt).Fails?
    && var asked := e.operation(attempt).failure.retryAfter;
       if asked <= 0 then BacksOff(p, e, attempt, delay)
       else if p.maxRetryAfter > 0 && asked > p.maxRetryAfter then delay == p.maxRetryAfter
       else delay == asked
  }

  lemma BackoffExactly(p: Policy, e: Environment, attempt: nat, delay: Duration)
    requires ValidPolicy(p)
    ensures BacksOff(p, e, attempt, delay) <==> delay as int == Jittered(p, e, attempt)
  {
    ScheduledBounds(p.initialBackoff as int, p.maxBackoff as int, attempt);
    var backoff := Scheduled(p.initialBackoff as int, p.maxBackoff as int, attempt) as Duration;
    if delay as int == Jittered(p, e, attempt) { assert BacksOffFrom(p, e, attempt, backoff, delay); }
    if other :| BacksOffFrom(p, e, attempt, other, delay) {
      assert other as int == backoff as int;
      assert other == backoff;
    }
  }

  // DelayAfter is that sleep.
  lemma SleepExactly(p: Policy, e: Environment, attempt: nat, delay: Duration)
    requires ValidPolicy(p) && e.operation(attempt).Fails?
    ensures SleepIs(p, e, attempt, delay) <==> delay as int == DelayAfter(p, e, attempt, e.operation(attempt).failure)
  {
    BackoffExactly(p, e, attempt, delay);
  }

  method DelayFor(p: Policy, e: Environment, attempt: nat) returns (delay: Duration)
    requires ValidPolicy(p)
    ensures delay as int == Jittered(p, e, attempt) && BacksOff(p, e, attempt, delay)
  {
    BackoffExactly(p, e, attempt, Jittered(p, e, attempt) as Duration);
    delay := BackoffFor(p.initialBackoff, p.maxBackoff, attempt);
    if e.jitter.Some? { delay := e.jitter.value(attempt, delay); }
    if delay < 0 { delay := 0; }
    if delay > p.maxBackoff { delay := p.maxBackoff; }
  }

  // calls lists the attempt numbers the operation was called with, sleeps the delays asked for.
  method Run(p: Policy, e: Environment)
    returns (count: nat, outcome: Outcome, calls: seq<nat>, sleeps: seq<Duration>)
    ensures !ValidPolicy(p) ==> count == 0 && outcome == Invalid && calls == [] && sleeps == []
    ensures ValidPolicy(p) ==> exists n: nat :: n <= p.maxAttempts && StopsIn(p, e, n, Stop(count, outcome))
                                                && |sleeps| == n - 1 + (if outcome == SleepFailed then 1 else 0)
    ensures ValidPolicy(p) ==> SleepsAre(p, e, sleeps)
    ensures ValidPolicy(p) ==> forall a: nat :: a > 0 ==> (AsksToSleep(p, e, a) <==> a <= |sleeps|)
    ensures ValidPolicy(p) && CapsHold(p) ==> forall i :: 0 <= i < |sleeps| ==> 0 <= sleeps[i] as int <= Cap(p)
    ensures |calls| == count && forall i :: 0 <= i < count ==> calls[i] == i + 1
  {
    calls, sleeps := [], [];
    if !ValidPolicy(p) { return 0, Invalid, calls, sleeps; }
    WithinCaps(p, e);
    var attempt := 1;
    while true
      invariant 1 <= attempt <= p.maxAttempts && Proceeds(p, e, attempt)
      invariant |calls| == |sleeps| == attempt - 1
      invariant forall i :: 0 <= i < attempt - 1 ==> calls[i] == i + 1
      invariant SleepsAre(p, e, sleeps)
      invariant forall a: nat :: 0 < a < attempt ==> AsksToSleep(p, e, a)
      invariant CapsHold(p) ==> forall i :: 0 <= i < |sleeps| ==> 0 <= sleeps[i] as int <= Cap(p)
      decreases p.maxAttempts - attempt
    {
      if e.endedBefore(attempt) {
        assert StopsIn(p, e, attempt, Stop(attempt - 1, ContextEnded));
        return attempt - 1, ContextEnded, calls, sleeps;
      }
      calls := calls + [attempt];
      var reply := e.operation(attempt);
      if reply.Succeeds? {
        assert StopsIn(p, e, attempt, Stop(attempt, Succeeded));
        return attempt, Succeeded, calls, sleeps;
      }
      if e.endedAfter(attempt) {
        assert StopsIn(p, e, attempt, Stop(attempt, ContextEnded));
        return attempt, ContextEnded, calls, sleeps;
      }
      var f := reply.failure;
      if !f.retryable || attempt == p.maxAttempts {
        assert StopsIn(p, e, attempt, Stop(attempt, GaveUp(f)));
        return attempt, GaveUp(f), calls, sleeps;
      }
      var delay := DelayFor(p, e, attempt);
      if f.retryAfter > 0 {
        delay := f.retryAfter;
        if p.maxRetryAfter > 0 && delay > p.maxRetryAfter { delay := p.maxRetryAfter; }
      }
      SleepExactly(p, e, attempt, delay);
      sleeps := sleeps + [delay];
      if e.sleepFails(attempt) {
        assert StopsIn(p, e, attempt, Stop(attempt, SleepFailed));
        return attempt, SleepFailed, calls, sleeps;
      }
      attempt := attempt + 1;
    }
  }

  /** What every run keeps */

  // The last permitted attempt always stops: the loop never falls through.
  lemma LastAttemptStops(p: Policy, e: Environment)
    requires ValidPolicy(p)
    ensures StopAt(p, e, p.maxAttempts).Some?
    ensures exists n: nat :: 0 < n <= p.maxAttempts && Proceeds(p, e, n) && StopAt(p, e, n).Some?
  {
    FirstStop(p, e, p.maxAttempts);
  }

  lemma {:induction false} FirstStop(p: Policy, e: Environment, m: nat)
    requires 0 < m && StopAt(p, e, m).Some?
    ensures exists n: nat :: 0 < n <= m && Proceeds(p, e, n) && StopAt(p, e, n).Some?
  {
    if !Proceeds(p, e, m) {
      var i: nat :| 0 < i < m && StopAt(p, e, i).Some?;
      FirstStop(p, e, i);
    }
  }

  // Every operation but the last failed retryably; the run succeeds exactly when the last
  // operation begun did; a failure is returned only if it is permanent or attempts ran out.
  lemma RunsAreHonest(p: Policy, e: Environment, n: nat, stop: Stop)
    requires ValidPolicy(p) && n <= p.maxAttempts && StopsIn(p, e, n, stop)
    ensures stop.count <= p.maxAttempts
    ensures forall i: nat :: 0 < i < stop.count ==> RetryableFailure(e.operation(i))
    ensures stop.outcome == Succeeded <==> stop.count > 0 && e.operation(stop.count) == Succeeds
    ensures forall f :: stop.outcome == GaveUp(f) ==>
              stop.count > 0 && e.operation(stop.count) == Fails(f)
              && (!f.retryable || stop.count == p.maxAttempts)
  {
    forall i: nat | 0 < i < n ensures RetryableFailure(e.operation(i)) { assert StopAt(p, e, i).None?; }
  }

  /** How long a run may sleep */

  function Cap(p: Policy): int { Max(p.maxBackoff as int, p.maxRetryAfter as int) }

  // What an operator can check of a policy: a cap on Retry-After is set, or there is nothing to
  // wait for, or no duration exceeds the backoff cap.
  predicate CapsHold(p: Policy) {
    p.maxRetryAfter > 0 || p.maxAttempts == 1 || p.maxBackoff == 0x7fff_ffff_ffff_ffff
  }

  // Whatever the operation, the context, the sleeper and the jitter do, no sleep exceeds the caps.
  ghost predicate Capped(p: Policy)
    requires ValidPolicy(p)
  {
    forall e: Environment, attempt: nat :: AsksToSleep(p, e, attempt) ==>
      0 <= DelayAfter(p, e, attempt, e.operation(attempt).failure) <= Cap(p)
  }

  // After one failure: the server's request is capped or does not exceed the backoff cap.
  lemma SleepIsCappedIff(p: Policy, e: Environment, attempt: nat, f: Failure)
    requires ValidPolicy(p)
    ensures DelayAfter(p, e, attempt, f) >= 0
    ensures DelayAfter(p, e, attempt, f) <= Cap(p) <==> p.maxRetryAfter > 0 || f.retryAfter <= p.maxBackoff
  {
  }

  lemma WithinCaps(p: Policy, e: Environment)
    requires ValidPolicy(p)
    ensures CapsHold(p) ==> forall attempt: nat :: AsksToSleep(p, e, attempt) ==>
      0 <= DelayAfter(p, e, attempt, e.operation(attempt).failure) <= Cap(p)
  {
    forall attempt: nat | AsksToSleep(p, e, attempt) {
      SleepIsCappedIff(p, e, attempt, e.operation(attempt).failure);
    }
  }

  // A provider that keeps asking for the longest pause there is.
  function Stalling(): Environment {
    Environment(_ => Fails(Failure(true, 0x7fff_ffff_ffff_ffff)), _ => false, _ => false, _ => false, None)
  }

  // Under any other policy a run against it sleeps beyond both caps after its first attempt.
  lemma StallingExceedsCaps(p: Policy)
    requires ValidPolicy(p) && !CapsHold(p)
    ensures AsksToSleep(p, Stalling(), 1)
    ensures DelayAfter(p, Stalling(), 1, Stalling().operation(1).failure) > Cap(p)
  {
  }

  lemma CappedIff(p: Policy)
    requires ValidPolicy(p)
    ensures Capped(p) <==> CapsHold(p)
  {
    if CapsHold(p) {
      forall e: Environment { WithinCaps(p, e); }
    } else {
      StallingExceedsCaps(p);
    }
  }
}
