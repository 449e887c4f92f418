// The bounded retry loop and its integer backoff.
module Retry {
  import opened Prelude

  datatype FailurePosture = Retryable | Restartable | RequiresOperator | NotRetryable

  predicate AllowsRetry(p: FailurePosture) { p.Retryable? || p.Restartable? }

  predicate TripsCircuitBreaker(p: FailurePosture) { p.Retryable? }

  datatype Failure = Failure(posture: FailurePosture, detail: nat)

  datatype RetryPolicy = RetryPolicy(
    maxAttempts: U32,
    initialBackoffMs: U32,
    maxBackoffMs: U32,
    backoffMultiplierX10: U32)

  function SaturatingMul(a: U64, b: U64): U64 { Min(a * b, U64_MAX) }

  // The delay after a sleep of d: computed in u64, capped, back in u32.
  function NextDelay(policy: RetryPolicy, d: U32): U32 {
    Min(SaturatingMul(d, policy.backoffMultiplierX10) / 10, policy.maxBackoffMs)
  }

  // The i-th sleep. The first one is the initial backoff, capped or not.
  function DelayAt(policy: RetryPolicy, i: nat): U32 {
    if i == 0 then policy.initialBackoffMs else NextDelay(policy, DelayAt(policy, i - 1))
  }

  ghost predicate FollowsBackoff(policy: RetryPolicy, sleeps: seq<U32>) {
    forall i :: 0 <= i < |sleeps| ==> sleeps[i] == DelayAt(policy, i)
  }

  // The first sleep is the initial backoff; each later one is the one before it times the
  // multiplier in tenths, rounded down, and at most the cap.
  ghost predicate ExactBackoff(policy: RetryPolicy, sleeps: seq<U32>) {
    && (sleeps != [] ==> sleeps[0] == policy.initialBackoffMs)
    && forall i :: 0 < i < |sleeps| ==>
         sleeps[i] == Min(sleeps[i - 1] * policy.backoffMultiplierX10 / 10, policy.maxBackoffMs)
  }

  lemma BackoffIsExact(policy: RetryPolicy, sleeps: seq<U32>)
    requires FollowsBackoff(policy, sleeps)
    ensures ExactBackoff(policy, sleeps)
  {
    forall i | 0 < i < |sleeps|
      ensures sleeps[i] == Min(sleeps[i - 1] * policy.backoffMultiplierX10 / 10, policy.maxBackoffMs)
    {
      assert sleeps[i] == DelayAt(policy, i) && sleeps[i - 1] == DelayAt(policy, i - 1);
      BackoffNeverSaturates(policy, sleeps[i - 1]);
    }
  }

  // `operation(i)` is what the (i+1)-th attempt returns.
  method WithRetry<T>(policy: RetryPolicy, operation: nat -> Result<T, Failure>)
    returns (result: Result<T, Failure>, calls: nat, sleeps: seq<U32>)
    ensures 1 <= calls <= Max(1, policy.maxAttempts)
    ensures result == operation(calls - 1)
    ensures forall i :: 0 <= i < calls - 1 ==>
      operation(i).Err? && (operation(i).error.posture == Retryable || operation(i).error.posture == Restartable)
    ensures result.Err? && (result.error.posture == Retryable || result.error.posture == Restartable) ==>
      calls == Max(1, policy.maxAttempts)
    ensures |sleeps| == calls - 1
    ensures FollowsBackoff(policy, sleeps) && ExactBackoff(policy, sleeps)
    ensures sleeps != [] ==> TotalSlept(sleeps) <= LongestSleep(policy, |sleeps|)
  {
    var attempts: U32 := 0;
    var delayMs := policy.initialBackoffMs;
    calls, sleeps := 0, [];
    while true
      invariant attempts == calls == |sleeps|
      invariant calls == 0 || calls < policy.maxAttempts
      invariant delayMs == DelayAt(policy, calls)
      invariant forall i :: 0 <= i < calls ==> operation(i).Err? && AllowsRetry(operation(i).error.posture)
      invariant FollowsBackoff(policy, sleeps)
      decreases Max(1, policy.maxAttempts) - calls
    {
      TotalDelayBound(policy, sleeps);
      BackoffIsExact(policy, sleeps);
      attempts := Min(attempts + 1, U32_MAX);
      result := operation(calls);
      calls := calls + 1;
      if result.Ok? {
        return;
      }
      if !AllowsRetry(result.error.posture) || attempts >= policy.maxAttempts {
        return;
      }
      sleeps := sleeps + [delayMs];
      delayMs := NextDelay(policy, delayMs);
    }
  }

  // The product of two u32 never saturates u64, so the backoff is exact.
  lemma BackoffNeverSaturates(policy: RetryPolicy, d: U32)
    ensures d * policy.backoffMultiplierX10 <= U64_MAX
    ensures NextDelay(policy, d) == Min(d * policy.backoffMultiplierX10 / 10, policy.maxBackoffMs)
  {
    var m := policy.backoffMultiplierX10;
    assert d * m <= U32_MAX * m;
    assert U32_MAX * m <= U32_MAX * U32_MAX;
  }

  function TotalSlept(sleeps: seq<U32>): nat {
    if sleeps == [] then 0 else TotalSlept(sleeps[..|sleeps| - 1]) + sleeps[|sleeps| - 1]
  }

  // The initial backoff, and one capped sleep for each further one.
  function LongestSleep(policy: RetryPolicy, n: nat): int {
    policy.initialBackoffMs + (n - 1) * policy.maxBackoffMs
  }

  lemma OneMoreSleep(policy: RetryPolicy, n: nat)
    ensures LongestSleep(policy, n + 1) == LongestSleep(policy, n) + policy.maxBackoffMs
  {
    var cap := policy.maxBackoffMs;
    assert n * cap == (n - 1) * cap + cap;
  }

  lemma LaterSleepsAreCapped(policy: RetryPolicy, i: nat)
    requires i > 0
    ensures DelayAt(policy, i) <= policy.maxBackoffMs
  {
  }

  // All sleeps together last no longer than that.
  lemma {:induction false} TotalDelayBound(policy: RetryPolicy, sleeps: seq<U32>)
    requires FollowsBackoff(policy, sleeps)
    ensures sleeps != [] ==> TotalSlept(sleeps) <= LongestSleep(policy, |sleeps|)
    ensures sleeps != [] ==>
      TotalSlept(sleeps) <= policy.initialBackoffMs + (|sleeps| - 1) * policy.maxBackoffMs
  {
    if sleeps != [] {
      var front, last := sleeps[..|sleeps| - 1], sleeps[|sleeps| - 1];
      TotalDelayBound(policy, front);
      OneMoreSleep(policy, |front|);
      if front != [] {
        LaterSleepsAreCapped(policy, |front|);
      }
    }
  }

  // A multiplier of at least 1.0 over an initial backoff within the cap never shortens
  // the delay.
  lemma {:induction false} DelaysNeverShrink(policy: RetryPolicy, i: nat)
    requires policy.backoffMultiplierX10 >= 10 && policy.initialBackoffMs <= policy.maxBackoffMs
    ensures DelayAt(policy, i) <= DelayAt(policy, i + 1) && DelayAt(policy, i) <= policy.maxBackoffMs
  {
    if i > 0 {
      DelaysNeverShrink(policy, i - 1);
    }
    NextDelayAtLeast(policy, DelayAt(policy, i));
  }

  lemma NextDelayAtLeast(policy: RetryPolicy, d: U32)
    requires policy.backoffMultiplierX10 >= 10 && d <= policy.maxBackoffMs
    ensures d <= NextDelay(policy, d)
  {
    BackoffNeverSaturates(policy, d);
    TenTimesAtLeast(d, policy.backoffMultiplierX10);
  }

  lemma TenTimesAtLeast(d: nat, m: nat)
    requires m >= 10
    ensures d <= d * m / 10
  {
    assert d * 10 <= d * m;
  }
}
