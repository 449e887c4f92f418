// Whole-history properties of the circuit breaker, first for any overlap of the calls that
// share it and then for calls made one after another.
module BreakerHistory {
  import opened Prelude
  import opened Retry
  import opened BreakerSpec

  // ---- overlapping calls ----

  // What calls do to the breaker: ask for admission, and report how they ended. Calls in
  // flight together interleave these in any way. The instant is read under the lock.
  datatype Op = Allow(now: Instant) | Done(verdict: Verdict, now: Instant)

  ghost predicate Ordered(ops: seq<Op>) {
    forall i, j :: 0 <= i < j < |ops| ==> ops[i].now <= ops[j].now
  }

  ghost predicate NotAfter(ops: seq<Op>, now: Instant) {
    forall i :: 0 <= i < |ops| ==> ops[i].now <= now
  }

  function RunOps(cfg: Config, ops: seq<Op>): CircuitState {
    if ops == [] then Closed(0)
    else
      var st := RunOps(cfg, ops[..|ops| - 1]);
      match ops[|ops| - 1]
      case Allow(now) => AllowCall(cfg, st, now).0
      case Done(v, now) => Record(cfg, st, v, now)
  }

  function Admitted(cfg: Config, ops: seq<Op>, now: Instant): bool { AllowCall(cfg, RunOps(cfg, ops), now).1 }

  function Threshold(cfg: Config): nat { Max(1, cfg.failureThreshold) }

  // Tripping failures reported since the last reported success.
  function OpStreak(ops: seq<Op>): nat {
    if ops == [] then 0
    else
      var front := OpStreak(ops[..|ops| - 1]);
      match ops[|ops| - 1]
      case Done(Success, _) => 0
      case Done(Tripping, _) => front + 1
      case _ => front
  }

  // When the last tripping failure was reported.
  function OpTrip(ops: seq<Op>): Instant {
    if ops == [] then 0
    else
      match ops[|ops| - 1]
      case Done(Tripping, now) => now
      case _ => OpTrip(ops[..|ops| - 1])
  }

  // The breaker's state, read off the two numbers; HalfOpen is an Open whose cooldown has
  // already been seen to pass.
  ghost predicate Represents(cfg: Config, streak: nat, trip: Instant, st: CircuitState, now: Instant) {
    && trip <= now
    && match st
       case Closed(n) => n == streak < Threshold(cfg)
       case Open(at) => streak >= Threshold(cfg) && at == trip
       case HalfOpen => streak >= Threshold(cfg) && now - trip >= cfg.cooldown
  }

  lemma {:induction false} RunRepresents(cfg: Config, ops: seq<Op>, now: Instant)
    requires Ordered(ops) && NotAfter(ops, now)
    ensures Represents(cfg, OpStreak(ops), OpTrip(ops), RunOps(cfg, ops), now)
  {
    if ops != [] {
      RunRepresents(cfg, ops[..|ops| - 1], ops[|ops| - 1].now);
    }
  }

  // However calls overlap, a call is admitted exactly when the streak of tripping failures
  // is below the threshold or the cooldown has passed since the last of them. Which calls
  // were admitted or refused before plays no part.
  lemma AdmissionByStreak(cfg: Config, ops: seq<Op>, now: Instant)
    requires Ordered(ops) && NotAfter(ops, now)
    ensures Admitted(cfg, ops, now) <==>
      OpStreak(ops) < Max(1, cfg.failureThreshold) || now - OpTrip(ops) >= cfg.cooldown
    ensures RunOps(cfg, ops).Closed? <==> OpStreak(ops) < Threshold(cfg)
    ensures RunOps(cfg, ops).Closed? ==> RunOps(cfg, ops).consecutiveFailures == OpStreak(ops)
  {
    RunRepresents(cfg, ops, now);
  }

  // The reports that count: successes and tripping failures.
  function Essential(ops: seq<Op>): seq<Op> {
    if ops == [] then []
    else
      var front, op := Essential(ops[..|ops| - 1]), ops[|ops| - 1];
      if op.Done? && !op.verdict.NonTripping? then front + [op] else front
  }

  lemma {:induction false} EssentialKeepsNumbers(ops: seq<Op>)
    ensures OpStreak(Essential(ops)) == OpStreak(ops) && OpTrip(Essential(ops)) == OpTrip(ops)
  {
    if ops != [] {
      var front := Essential(ops[..|ops| - 1]);
      EssentialKeepsNumbers(ops[..|ops| - 1]);
      assert (front + [ops[|ops| - 1]])[..|front|] == front;
    }
  }

  // Histories that differ only in admission requests and non-tripping failures, however
  // these interleave with the rest, decide every later request alike.
  lemma EssentialDecides(cfg: Config, ops: seq<Op>, ops': seq<Op>, now: Instant)
    requires Ordered(ops) && NotAfter(ops, now) && Ordered(ops') && NotAfter(ops', now)
    requires Essential(ops) == Essential(ops')
    ensures Admitted(cfg, ops, now) == Admitted(cfg, ops', now)
  {
    EssentialKeepsNumbers(ops);
    EssentialKeepsNumbers(ops');
    AdmissionByStreak(cfg, ops, now);
    AdmissionByStreak(cfg, ops', now);
  }

  lemma {:induction false} EssentialIsOrdered(ops: seq<Op>, now: Instant)
    requires Ordered(ops) && NotAfter(ops, now)
    ensures Ordered(Essential(ops)) && NotAfter(Essential(ops), now)
    ensures Essential(Essential(ops)) == Essential(ops)
  {
    if ops != [] {
      var front, op := ops[..|ops| - 1], ops[|ops| - 1];
      EssentialIsOrdered(front, op.now);
      assert (Essential(front) + [op])[..|Essential(front)|] == Essential(front);
    }
  }

  // Erasing all of them at once changes no decision.
  lemma ErasureUnderOverlap(cfg: Config, ops: seq<Op>, now: Instant)
    requires Ordered(ops) && NotAfter(ops, now)
    ensures Admitted(cfg, Essential(ops), now) == Admitted(cfg, ops, now)
  {
    EssentialIsOrdered(ops, now);
    EssentialDecides(cfg, ops, Essential(ops), now);
  }

  // Even with a clock that runs anyhow, a closed breaker's counter stays below the
  // threshold, so it never saturates.
  lemma {:induction false} ClosedCounterBound(cfg: Config, ops: seq<Op>)
    ensures RunOps(cfg, ops).Closed? ==> RunOps(cfg, ops).consecutiveFailures < Threshold(cfg)
  {
    if ops != [] {
      ClosedCounterBound(cfg, ops[..|ops| - 1]);
    }
  }

  // ---- calls one after another ----

  // One call of a sequential history: when it asks, when it would end, and how.
  datatype Call = Call(startMs: Instant, endMs: Instant, verdict: Verdict)

  ghost predicate Timed(h: seq<Call>) {
    && (forall i :: 0 <= i < |h| ==> h[i].startMs <= h[i].endMs)
    && (forall i, j :: 0 <= i < j < |h| ==> h[i].endMs <= h[j].startMs)
  }

  ghost predicate NotBefore(h: seq<Call>, now: Instant) {
    forall i :: 0 <= i < |h| ==> h[i].endMs <= now
  }

  function AfterCall(cfg: Config, st: CircuitState, c: Call): CircuitState {
    var (st', allowed) := AllowCall(cfg, st, c.startMs);
    if allowed then Record(cfg, st', c.verdict, c.endMs) else st'
  }

  function Run(cfg: Config, h: seq<Call>): CircuitState {
    if h == [] then Closed(0) else AfterCall(cfg, Run(cfg, h[..|h| - 1]), h[|h| - 1])
  }

  function Admits(cfg: Config, h: seq<Call>, now: Instant): bool { AllowCall(cfg, Run(cfg, h), now).1 }

  // ---- a reference breaker that remembers two numbers and has no states ----

  // Admit while the streak of tripping failures is below the threshold, or once the
  // cooldown has passed since the last of them.
  function Reference(cfg: Config, h: seq<Call>, now: Instant): bool
    decreases |h|, 1
  {
    Streak(cfg, h) < Threshold(cfg) || now - LastTrip(cfg, h) >= cfg.cooldown
  }

  // Admitted tripping failures since the last admitted success.
  function Streak(cfg: Config, h: seq<Call>): nat
    decreases |h|, 0
  {
    if h == [] then 0
    else
      var front, c := h[..|h| - 1], h[|h| - 1];
      if !Reference(cfg, front, c.startMs) then Streak(cfg, front)
      else match c.verdict
        case Success => 0
        case Tripping => Streak(cfg, front) + 1
        case NonTripping => Streak(cfg, front)
  }

  // When the last admitted tripping failure ended.
  function LastTrip(cfg: Config, h: seq<Call>): Instant
    decreases |h|, 0
  {
    if h == [] then 0
    else
      var front, c := h[..|h| - 1], h[|h| - 1];
      if c.verdict.Tripping? && Reference(cfg, front, c.startMs) then c.endMs else LastTrip(cfg, front)
  }

  // The operations a sequential history amounts to: a refused call reports nothing.
  function AsOps(cfg: Config, h: seq<Call>): seq<Op> {
    if h == [] then []
    else
      var front, c := h[..|h| - 1], h[|h| - 1];
      AsOps(cfg, front) + CallOps(c, Admits(cfg, front, c.startMs))
  }

  function CallOps(c: Call, admitted: bool): seq<Op> {
    if admitted then [Allow(c.startMs), Done(c.verdict, c.endMs)] else [Allow(c.startMs)]
  }

  lemma AfterCallOps(cfg: Config, ops: seq<Op>, c: Call, admitted: bool)
    ensures var ops' := ops + CallOps(c, admitted);
      && OpStreak(ops') == (if !admitted || c.verdict.NonTripping? then OpStreak(ops)
                            else if c.verdict.Success? then 0 else OpStreak(ops) + 1)
      && OpTrip(ops') == (if admitted && c.verdict.Tripping? then c.endMs else OpTrip(ops))
      && (admitted == Admitted(cfg, ops, c.startMs) ==> RunOps(cfg, ops') == AfterCall(cfg, RunOps(cfg, ops), c))
  {
    var asked := ops + [Allow(c.startMs)];
    assert asked[..|ops|] == ops;
    if admitted {
      assert ops + CallOps(c, admitted) == asked + [Done(c.verdict, c.endMs)];
      assert (asked + [Done(c.verdict, c.endMs)])[..|asked|] == asked;
    }
  }

  lemma OrderedThenCall(ops: seq<Op>, c: Call, admitted: bool)
    requires Ordered(ops) && NotAfter(ops, c.startMs) && c.startMs <= c.endMs
    ensures Ordered(ops + CallOps(c, admitted)) && NotAfter(ops + CallOps(c, admitted), c.endMs)
  {
  }

  lemma {:induction false} AsOpsOrdered(cfg: Config, h: seq<Call>, now: Instant)
    requires Timed(h) && NotBefore(h, now)
    ensures Ordered(AsOps(cfg, h)) && NotAfter(AsOps(cfg, h), now)
  {
    if h != [] {
      var front, c := h[..|h| - 1], h[|h| - 1];
      AsOpsOrdered(cfg, front, c.startMs);
      OrderedThenCall(AsOps(cfg, front), c, Admits(cfg, front, c.startMs));
    }
  }

  lemma {:induction false} SequentialIsOverlap(cfg: Config, h: seq<Call>)
    requires Timed(h)
    ensures RunOps(cfg, AsOps(cfg, h)) == Run(cfg, h)
    ensures OpStreak(AsOps(cfg, h)) == Streak(cfg, h) && OpTrip(AsOps(cfg, h)) == LastTrip(cfg, h)
  {
    if h != [] {
      var front, c := h[..|h| - 1], h[|h| - 1];
      SequentialIsOverlap(cfg, front);
      AsOpsOrdered(cfg, front, c.startMs);
      AdmissionByStreak(cfg, AsOps(cfg, front), c.startMs);
      AfterCallOps(cfg, AsOps(cfg, front), c, Admits(cfg, front, c.startMs));
    }
  }

  // In a sequential history the two numbers are those of the admitted calls, so the
  // breaker admits exactly when the reference does.
  lemma BreakerMeetsReference(cfg: Config, h: seq<Call>, now: Instant)
    requires Timed(h) && NotBefore(h, now)
    ensures Admits(cfg, h, now) <==> Reference(cfg, h, now)
    ensures Run(cfg, h).Closed? <==> Streak(cfg, h) < Threshold(cfg)
    ensures Run(cfg, h).Closed? ==> Run(cfg, h).consecutiveFailures == Streak(cfg, h)
  {
    SequentialIsOverlap(cfg, h);
    AsOpsOrdered(cfg, h, now);
    AdmissionByStreak(cfg, AsOps(cfg, h), now);
  }

  // ---- erasing calls that end in a non-tripping failure ----

  function Erase(h: seq<Call>): seq<Call> {
    if h == [] then []
    else
      var front, c := Erase(h[..|h| - 1]), h[|h| - 1];
      if c.verdict.NonTripping? then front else front + [c]
  }

  function Decisions(cfg: Config, h: seq<Call>): seq<bool> {
    if h == [] then [] else Decisions(cfg, h[..|h| - 1]) + [Admits(cfg, h[..|h| - 1], h[|h| - 1].startMs)]
  }

  // The decisions of h on the calls that Erase keeps.
  function KeptDecisions(cfg: Config, h: seq<Call>): seq<bool> {
    if h == [] then []
    else
      var front, c := h[..|h| - 1], h[|h| - 1];
      if c.verdict.NonTripping? then KeptDecisions(cfg, front)
      else KeptDecisions(cfg, front) + [Admits(cfg, front, c.startMs)]
  }

  lemma {:induction false} EraseKeepsTime(h: seq<Call>, now: Instant)
    requires Timed(h) && NotBefore(h, now)
    ensures Timed(Erase(h)) && NotBefore(Erase(h), now)
  {
    if h != [] {
      var front, c := h[..|h| - 1], h[|h| - 1];
      EraseKeepsTime(front, c.startMs);
    }
  }

  lemma {:induction false} EraseKeepsNumbers(cfg: Config, h: seq<Call>)
    ensures Streak(cfg, Erase(h)) == Streak(cfg, h) && LastTrip(cfg, Erase(h)) == LastTrip(cfg, h)
  {
    if h != [] {
      var front, c := h[..|h| - 1], h[|h| - 1];
      EraseKeepsNumbers(cfg, front);
      if !c.verdict.NonTripping? {
        assert (Erase(front) + [c])[..|Erase(front)|] == Erase(front);
        assert Reference(cfg, Erase(front), c.startMs) == Reference(cfg, front, c.startMs);
      }
    }
  }

  // Erasing every call that ends in a non-tripping failure changes no decision on the
  // calls that remain, nor on any later one.
  lemma {:induction false} ErasureChangesNoDecision(cfg: Config, h: seq<Call>, now: Instant)
    requires Timed(h) && NotBefore(h, now)
    ensures Decisions(cfg, Erase(h)) == KeptDecisions(cfg, h)
    ensures Admits(cfg, Erase(h), now) == Admits(cfg, h, now)
  {
    EraseKeepsTime(h, now);
    EraseKeepsNumbers(cfg, h);
    BreakerMeetsReference(cfg, h, now);
    BreakerMeetsReference(cfg, Erase(h), now);
    if h != [] {
      var front, c := h[..|h| - 1], h[|h| - 1];
      ErasureChangesNoDecision(cfg, front, c.startMs);
      if !c.verdict.NonTripping? {
        assert (Erase(front) + [c])[..|Erase(front)|] == Erase(front);
      }
    }
  }
}
