// What the spend ledgers guarantee in every run, crashes included.
module SpendTheorems {
  import opened Prelude
  import opened SpendStore
  import opened SpendProtocol

  // At every submit call all transparent inputs of that transaction are in the ledger
  // already, unless the sync loop swept that very broadcast.
  lemma SubmitSeesLedger(events: seq<Event>, c: CallId)
    requires c in Run(events).calls && Run(events).calls[c].pc.Submitting?
    ensures var k, s := Run(events).calls[c], Run(events);
      && k.at < |k.prepared|
      && (k.prepared[k.at].txId !in s.swept ==> Recorded(s.pending, k.prepared[k.at], k.stamp))
  {
    RunInv(events);
    assert ProgressInv(Run(events).calls[c], Run(events).idempotency);
    assert LedgerInv(Run(events).calls[c], Run(events).pending, Run(events).swept);
  }

  // Wherever a call stands, ends or crashes: the transactions before its step are in the
  // ledger, those after it are not; a call that failed at its step has left no row of
  // that step, unless its own clear failed.
  lemma LedgerMatchesProgress(events: seq<Event>, c: CallId, j: nat)
    requires c in Run(events).calls && j < |Run(events).calls[c].prepared|
    ensures var k, s := Run(events).calls[c], Run(events);
      && k.at <= |k.prepared| && k.at <= k.submits <= k.at + 1
      && (j < k.at && k.prepared[j].txId !in s.swept ==> Recorded(s.pending, k.prepared[j], k.stamp))
      && (j > k.at ==> NoRows(s.pending, k.prepared[j].txId))
      && (j == k.at && k.pc.Done? && !k.clearFailed ==> NoRows(s.pending, k.prepared[j].txId))
      && (k.pc.Done? && k.pc.result.Ok? ==> k.at == |k.prepared| == k.submits)
  {
    RunInv(events);
    assert ProgressInv(Run(events).calls[c], Run(events).idempotency);
    assert LedgerInv(Run(events).calls[c], Run(events).pending, Run(events).swept);
  }

  // The call an event belongs to, if any.
  function CallOf(e: Event): Option<CallId> {
    match e
    case Crash => None
    case SweepMined(_) => None
    case SweepExpired(_) => None
    case _ => Some(e.c)
  }

  // Steps of other calls, and crashes, leave this call's rows alone.
  lemma OthersLeaveRows(events: seq<Event>, e: Event, c: CallId, j: nat)
    requires c in Run(events).calls && j < |Run(events).calls[c].prepared|
    requires CallOf(e) != Some(c) && !e.SweepMined? && !e.SweepExpired?
    ensures var k, s, s' := Run(events).calls[c], Run(events), Step(Run(events), e);
      forall key: PendingKey :: key.broadcast == k.prepared[j].txId ==>
        (key in s.pending <==> key in s'.pending) && (key in s.pending ==> s.pending[key] == s'.pending[key])
  {
    RunInv(events);
    var s := Run(events);
    if Enabled(s, e) && (e.Record? || e.Clear?) {
      var d := s.calls[e.c];
      assert DisjointIds(s.calls[c], d);
      TouchesOwnRows(s, e);
    }
  }

  lemma TouchesOwnRows(s: State, e: Event)
    requires Enabled(s, e) && (e.Record? || e.Clear?)
    ensures SameElsewhere(s.pending, Step(s, e).pending, {s.calls[e.c].prepared[s.calls[e.c].at].txId})
  {
    var d := s.calls[e.c];
    RecordEffect(s.pending, d.prepared[d.at], d.stamp);
    ClearEffect(s.pending, {d.prepared[d.at].txId});
  }

  // ---- idempotency ----

  lemma StepKeepsBindings(s: State, e: Event, key: string)
    requires key in s.idempotency
    ensures key in Step(s, e).idempotency && Step(s, e).idempotency[key] == s.idempotency[key]
  {
  }

  // Once bound, a key keeps its transaction id for good.
  lemma {:induction false} BindingIsForever(s: State, more: seq<Event>, key: string)
    requires key in s.idempotency
    ensures key in RunFrom(s, more).idempotency && RunFrom(s, more).idempotency[key] == s.idempotency[key]
  {
    if more != [] {
      BindingIsForever(s, more[..|more| - 1], key);
      StepKeepsBindings(RunFrom(s, more[..|more| - 1]), more[|more| - 1], key);
    }
  }

  // All successful calls with one key, concurrent or not, name one transaction.
  lemma OksAgree(events: seq<Event>, c: CallId, d: CallId)
    requires forall i :: i in {c, d} ==>
      i in Run(events).calls && Run(events).calls[i].pc.Done? && Run(events).calls[i].pc.result.Ok?
    requires Run(events).calls[c].key == Run(events).calls[d].key
    ensures Run(events).calls[c].pc.result == Run(events).calls[d].pc.result
    ensures var key := Run(events).calls[c].key;
      key in Run(events).idempotency && Run(events).calls[c].pc.result == Ok(Run(events).idempotency[key])
  {
    RunInv(events);
    assert c in {c, d} && d in {c, d};
    assert ProgressInv(Run(events).calls[c], Run(events).idempotency);
    assert ProgressInv(Run(events).calls[d], Run(events).idempotency);
  }

  // A call that has read nothing yet, or has already been answered from the table.
  ghost predicate Replays(k: Call, txId: TxId) {
    k.submits == 0 && k.prepared == []
    && match k.pc
       case Looking => true
       case Done(r) => r.Ok? ==> r.value == txId
       case Crashed => true
       case _ => false
  }

  // After a key is bound, a call that starts later with that key submits nothing, and if
  // it succeeds it names the bound transaction, whatever else runs beside it.
  lemma {:induction false} LaterCallsReplay(s: State, more: seq<Event>, key: string, d: CallId)
    requires key in s.idempotency
    requires d in s.calls ==> s.calls[d].key == key && Replays(s.calls[d], s.idempotency[key])
    ensures var s' := RunFrom(s, more);
      d in s'.calls && s'.calls[d].key == key ==> Replays(s'.calls[d], s.idempotency[key])
    ensures d in s.calls ==> d in RunFrom(s, more).calls && RunFrom(s, more).calls[d].key == key
  {
    if more != [] {
      var before := RunFrom(s, more[..|more| - 1]);
      LaterCallsReplay(s, more[..|more| - 1], key, d);
      BindingIsForever(s, more[..|more| - 1], key);
      ReplayStep(before, more[|more| - 1], key, d);
    }
  }

  lemma ReplayStep(s: State, e: Event, key: string, d: CallId)
    requires key in s.idempotency
    requires d in s.calls && s.calls[d].key == key ==> Replays(s.calls[d], s.idempotency[key])
    ensures d in Step(s, e).calls && Step(s, e).calls[d].key == key ==> Replays(Step(s, e).calls[d], s.idempotency[key])
    ensures d in s.calls ==> d in Step(s, e).calls && Step(s, e).calls[d].key == s.calls[d].key
  {
  }

  // ---- how a call ends ----

  // A submit call that was not answered with this transaction's own id is on its way to an
  // error, or has ended in one, or died.
  ghost predicate Failing(pc: CallPc) {
    pc.Clearing? || pc.Crashed? || (pc.Done? && pc.result.Err?)
  }

  lemma FailingStep(s: State, e: Event, c: CallId)
    requires c in s.calls && Failing(s.calls[c].pc)
    ensures c in Step(s, e).calls && Failing(Step(s, e).calls[c].pc)
  {
  }

  lemma {:induction false} FailingForever(s: State, more: seq<Event>, c: CallId)
    requires c in s.calls && Failing(s.calls[c].pc)
    ensures c in RunFrom(s, more).calls && Failing(RunFrom(s, more).calls[c].pc)
  {
    if more != [] {
      FailingForever(s, more[..|more| - 1], c);
      FailingStep(RunFrom(s, more[..|more| - 1]), more[|more| - 1], c);
    }
  }

  // A call whose submitter rejected a transaction, failed, or answered with another id never
  // ends in Ok, whatever follows; unless it dies or its clear fails it clears that
  // transaction's rows and answers with the error.
  lemma RefusedSubmitNeverEndsOk(s: State, c: CallId, outcome: SubmitOutcome, more: seq<Event>)
    requires Enabled(s, Submit(c, outcome))
    requires var txId := s.calls[c].prepared[s.calls[c].at].txId;
      outcome != Accepted(txId) && outcome != Duplicate(txId) && outcome != Queued(txId)
    ensures ResolveSendOutcome(outcome, s.calls[c].prepared[s.calls[c].at].txId).Err?
    ensures var txId, s' := s.calls[c].prepared[s.calls[c].at].txId, Step(s, Submit(c, outcome));
      && s'.pending == s.pending && s'.idempotency == s.idempotency
      && c in RunFrom(s', more).calls && Failing(RunFrom(s', more).calls[c].pc)
      && c in s'.calls && s'.calls[c].pc == Clearing(ResolveSendOutcome(outcome, txId).error)
      && var t := Step(s', Clear(c, false));
         NoRows(t.pending, txId) && c in t.calls && t.calls[c].pc == Done(Err(s'.calls[c].pc.error))
  {
    var txId, s' := s.calls[c].prepared[s.calls[c].at].txId, Step(s, Submit(c, outcome));
    ResolvesExactly(outcome, txId);
    FailingForever(s', more, c);
    ClearEffect(s'.pending, {txId});
  }

  // A look-up that finds its key bound answers with the bound transaction at once.
  lemma LookupReplays(s: State, c: CallId)
    requires Enabled(s, Lookup(c)) && s.calls[c].key in s.idempotency
    ensures Step(s, Lookup(c)) == SetCall(s, c, s.calls[c].(pc := Done(Ok(s.idempotency[s.calls[c].key]))))
  {
  }

  // The steps that record and submit the first n transactions, each accepted.
  function Accepting(c: CallId, prepared: seq<PreparedTransaction>, n: nat): seq<Event>
    requires n <= |prepared|
  {
    if n == 0 then []
    else Accepting(c, prepared, n - 1) + [Record(c, false), Submit(c, Accepted(prepared[n - 1].txId))]
  }

  lemma AcceptOne(s: State, c: CallId)
    requires c in s.calls && s.calls[c].pc == Recording && s.calls[c].at < |s.calls[c].prepared|
    ensures var k := s.calls[c];
      var t := Step(Step(s, Record(c, false)), Submit(c, Accepted(k.prepared[k.at].txId)));
      && c in t.calls && t.idempotency == s.idempotency
      && t.calls[c].key == k.key && t.calls[c].prepared == k.prepared && t.calls[c].at == k.at + 1
      && t.calls[c].pc == if k.at + 1 < |k.prepared| then Recording else Binding
  {
    var k := s.calls[c];
    ResolvesExactly(Accepted(k.prepared[k.at].txId), k.prepared[k.at].txId);
    var recorded := DoRecord(s, c, k, false);
    assert Step(s, Record(c, false)) == recorded;
    assert recorded.calls[c] == k.(pc := Submitting, recorded := k.at + 1);
  }

  lemma {:induction false} AcceptMany(s: State, c: CallId, n: nat)
    requires c in s.calls && s.calls[c].pc == Recording && s.calls[c].at == 0 && n <= |s.calls[c].prepared|
    requires s.calls[c].prepared != []
    ensures var k, t := s.calls[c], RunFrom(s, Accepting(c, s.calls[c].prepared, n));
      && c in t.calls && t.idempotency == s.idempotency
      && t.calls[c].key == k.key && t.calls[c].prepared == k.prepared && t.calls[c].at == n
      && t.calls[c].pc == if n < |k.prepared| then Recording else Binding
  {
    if n > 0 {
      AcceptMany(s, c, n - 1);
      var prepared := s.calls[c].prepared;
      var front, txId := Accepting(c, prepared, n - 1), prepared[n - 1].txId;
      AcceptOne(RunFrom(s, front), c);
      RunTwoMore(s, front, Record(c, false), Submit(c, Accepted(txId)));
    }
  }

  lemma RunTwoMore(s: State, front: seq<Event>, e: Event, f: Event)
    ensures RunFrom(s, front + [e, f]) == Step(Step(RunFrom(s, front), e), f)
  {
    var all := front + [e, f];
    assert all[..|all| - 1] == front + [e] && (front + [e])[..|front|] == front;
  }

  // A payment whose key is free, whose transactions are all accepted and which nothing
  // disturbs ends with its first transaction, and the key is bound to it.
  lemma UndisturbedPayment(s: State, c: CallId, prepared: seq<PreparedTransaction>, stamp: Stamp)
    requires Enabled(s, Lookup(c)) && s.calls[c].key !in s.idempotency && s.calls[c].at == 0
    requires FreshIds(s, prepared) && prepared != []
    ensures var begun := Step(Step(s, Lookup(c)), Prepare(c, prepared, stamp));
      var t := Step(RunFrom(begun, Accepting(c, prepared, |prepared|)), Bind(c));
      && c in t.calls && t.calls[c].pc == Done(Ok(prepared[0].txId))
      && t.idempotency == s.idempotency[s.calls[c].key := prepared[0].txId]
  {
    var begun := Step(Step(s, Lookup(c)), Prepare(c, prepared, stamp));
    PaymentBegun(s, c, prepared, stamp);
    AcceptMany(begun, c, |prepared|);
    var made := RunFrom(begun, Accepting(c, prepared, |prepared|));
    assert Step(made, Bind(c)) == DoBind(made, c, made.calls[c]);
    BindDecides(s.idempotency, s.calls[c].key, prepared[0].txId);
  }

  // A call whose key is free goes on to submit what is prepared; with nothing prepared it is
  // rejected.
  lemma PaymentBegun(s: State, c: CallId, prepared: seq<PreparedTransaction>, stamp: Stamp)
    requires Enabled(s, Lookup(c)) && s.calls[c].key !in s.idempotency && FreshIds(s, prepared)
    ensures var k := s.calls[c].(pc := Preparing);
      Step(Step(s, Lookup(c)), Prepare(c, prepared, stamp))
      == SetCall(s, c, if prepared == [] then k.(pc := Done(Err(ProposalRejected)))
                       else k.(pc := Recording, prepared := prepared, stamp := stamp))
  {
    var looked := SetCall(s, c, s.calls[c].(pc := Preparing));
    assert Step(s, Lookup(c)) == looked;
    LookupKeepsIds(s, c, prepared);
    var prepares := DoPrepare(looked, c, looked.calls[c], prepared, stamp);
    assert Step(looked, Prepare(c, prepared, stamp)) == prepares;
    assert looked.calls[c := prepares.calls[c]] == s.calls[c := prepares.calls[c]];
  }

  lemma LookupKeepsIds(s: State, c: CallId, prepared: seq<PreparedTransaction>)
    requires c in s.calls && FreshIds(s, prepared)
    ensures FreshIds(SetCall(s, c, s.calls[c].(pc := Preparing)), prepared)
  {
  }

  // A crash stops every call that has not ended and leaves both ledgers as they stand.
  lemma CrashStopsCalls(s: State, c: CallId)
    requires c in s.calls
    ensures var t := Step(s, Crash);
      && t.pending == s.pending && t.idempotency == s.idempotency && c in t.calls
      && t.calls[c] == if s.calls[c].pc.Done? then s.calls[c] else s.calls[c].(pc := Crashed)
  {
  }

  // A sweep takes the rows of mined broadcasts, or those recorded before a time, and no call
  // notices.
  lemma SweepsTakeRows(s: State, txIds: set<TxId>, beforeMs: nat, key: PendingKey)
    requires key in s.pending
    ensures key in Step(s, SweepMined(txIds)).pending <==> key.broadcast !in txIds
    ensures key in Step(s, SweepExpired(beforeMs)).pending <==> beforeMs <= s.pending[key].atMs
    ensures Step(s, SweepMined(txIds)).calls == s.calls && Step(s, SweepExpired(beforeMs)).calls == s.calls
  {
  }
}
