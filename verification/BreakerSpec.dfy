// The circuit breaker's transitions as functions of the current instant.
module BreakerSpec {
  import opened Prelude
  import opened Retry

  // Instants in milliseconds on a monotonic clock.
  type Instant = nat

  datatype Config = Config(failureThreshold: U32, cooldown: nat)

  datatype CircuitState = Closed(consecutiveFailures: U32) | Open(openedAt: Instant) | HalfOpen

  // Instant::elapsed saturates at zero.
  function Elapsed(since: Instant, now: Instant): nat { if now >= since then now - since else 0 }

  function AllowCall(cfg: Config, st: CircuitState, now: Instant): (CircuitState, bool) {
    match st
    case Closed(_) => (st, true)
    case HalfOpen => (st, true)
    case Open(at) => if Elapsed(at, now) >= cfg.cooldown then (HalfOpen, true) else (st, false)
  }

  function RecordFailure(cfg: Config, st: CircuitState, now: Instant): CircuitState {
    match st
    case Closed(n) =>
      var next := Min(n + 1, U32_MAX);
      if next >= cfg.failureThreshold then Open(now) else Closed(next)
    case _ => Open(now)
  }

  // What a finished call tells the breaker.
  datatype Verdict = Success | Tripping | NonTripping

  function VerdictOf<T>(r: Result<T, Failure>): Verdict {
    if r.Ok? then Success
    else if TripsCircuitBreaker(r.error.posture) then Tripping
    else NonTripping
  }

  function Record(cfg: Config, st: CircuitState, v: Verdict, now: Instant): CircuitState {
    match v
    case Success => Closed(0)
    case Tripping => RecordFailure(cfg, st, now)
    case NonTripping => st
  }
}
