// The circuit breaker object. Each method holds the lock for its whole body.
module CircuitBreaker {
  import opened Prelude
  import opened Retry
  import opened BreakerSpec

  datatype CallError = CircuitBroken | Lifted(failure: Failure)

  class Breaker {
    const config: Config
    var state: CircuitState

    constructor (config: Config)
      ensures this.config == config && state == Closed(0)
    {
      this.config := config;
      state := Closed(0);
    }

    method AllowCall(now: Instant) returns (allowed: bool)
      modifies this
      ensures (state, allowed) == BreakerSpec.AllowCall(config, old(state), now)
      // an open breaker admits once the cooldown has passed since it opened
      ensures old(state).Open? && old(state).openedAt <= now ==>
        allowed == (now - old(state).openedAt >= config.cooldown)
      ensures old(state).Open? && now < old(state).openedAt ==> allowed == (config.cooldown == 0)
      ensures !old(state).Open? ==> allowed
      ensures state == if allowed && old(state).Open? then HalfOpen else old(state)
    {
      if state.Closed? || state.HalfOpen? {
        return true;
      }
      if Elapsed(state.openedAt, now) >= config.cooldown {
        state := HalfOpen;
        return true;
      }
      return false;
    }

    method RecordSuccess()
      modifies this
      ensures state == Closed(0)
    {
      state := Closed(0);
    }

    method RecordFailure(now: Instant)
      modifies this
      ensures state == BreakerSpec.RecordFailure(config, old(state), now)
      ensures state == if old(state).Closed? && old(state).consecutiveFailures + 1 < config.failureThreshold
                       then Closed(old(state).consecutiveFailures + 1) else Open(now)
    {
      if state.Closed? {
        var next := Min(state.consecutiveFailures + 1, U32_MAX);
        state := if next >= config.failureThreshold then Open(now) else Closed(next);
      } else {
        state := Open(now);
      }
    }

    // A call that starts at startMs and whose retries end at endMs, with the breaker
    // untouched by others in between.
    method WithBreakerAndRetry<T>(policy: RetryPolicy, operation: nat -> Result<T, Failure>,
                                  startMs: Instant, endMs: Instant)
      returns (result: Result<T, CallError>, calls: nat, ghost verdict: Verdict)
      modifies this
      ensures var (st, allowed) := BreakerSpec.AllowCall(config, old(state), startMs);
        && (!allowed ==> result == Err(CircuitBroken) && calls == 0 && state == old(state))
        && (allowed ==>
              && 1 <= calls <= Max(1, policy.maxAttempts)
              && (forall i :: 0 <= i < calls - 1 ==>
                    operation(i).Err? && operation(i).error.posture in {Retryable, Restartable})
              && (operation(calls - 1).Err? && operation(calls - 1).error.posture in {Retryable, Restartable} ==>
                    calls == Max(1, policy.maxAttempts))
              && verdict == VerdictOf(operation(calls - 1))
              && state == Record(config, st, verdict, endMs)
              // success closes, a retryable end counts as a failure, any other is ignored
              && (operation(calls - 1).Ok? ==> verdict == Success && state == Closed(0))
              && (operation(calls - 1).Err? && operation(calls - 1).error.posture == Retryable ==>
                    verdict == Tripping && state == BreakerSpec.RecordFailure(config, st, endMs))
              && (operation(calls - 1).Err? && operation(calls - 1).error.posture != Retryable ==>
                    verdict == NonTripping && state == st)
              && result == match operation(calls - 1)
                           case Ok(v) => Ok(v)
                           case Err(e) => Err(Lifted(e)))
    {
      var allowed := AllowCall(startMs);
      if !allowed {
        verdict := NonTripping;
        return Err(CircuitBroken), 0, verdict;
      }
      var outcome, attempts, sleeps := WithRetry(policy, operation);
      calls, verdict := attempts, VerdictOf(outcome);
      match outcome
      case Ok(v) =>
        RecordSuccess();
        result := Ok(v);
      case Err(e) =>
        if TripsCircuitBreaker(e.posture) {
          RecordFailure(endMs);
        }
        result := Err(Lifted(e));
    }
  }
}
