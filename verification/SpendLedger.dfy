// The spend ledgers updated in place, and the submission loop that drives them.
module SpendLedger {
  import opened Prelude
  import opened SpendStore

  // How the outside world answers at one step of the loop.
  datatype StepScript = StepScript(recordFails: bool, outcome: SubmitOutcome, clearFails: bool)

  // One submit call: the transaction, and the ledger as it stood at that moment.
  datatype Submission = Submission(tx: PreparedTransaction, ledger: PendingTable)

  class Ledger {
    var pending: PendingTable
    var idempotency: map<string, TxId>
    ghost var submissions: seq<Submission>

    constructor ()
      ensures pending == map[] && idempotency == map[] && submissions == []
    {
      pending, idempotency, submissions := map[], map[], [];
    }

    // Hands the raw bytes to the submitter through the breaker and the retries.
    method Submit(tx: PreparedTransaction, answer: SubmitOutcome) returns (outcome: SubmitOutcome)
      modifies this`submissions
      ensures outcome == answer
      ensures submissions == old(submissions) + [Submission(tx, pending)]
    {
      submissions := submissions + [Submission(tx, pending)];
      return answer;
    }

    // One transaction over all inputs.
    method RecordPendingBroadcastInputs(txId: TxId, inputs: seq<Input>, stamp: Stamp, fails: bool)
      returns (r: Result<(), SpendError>)
      modifies this`pending
      ensures r == if fails then Err(SqliteFailed) else Ok(())
      ensures pending == if fails then old(pending) else RecordInputs(old(pending), txId, inputs, stamp)
    {
      var transaction := pending;
      var i := 0;
      while i < |inputs|
        invariant i <= |inputs| && pending == old(pending)
        invariant transaction == RecordInputs(pending, txId, inputs[..i], stamp)
      {
        assert inputs[..i + 1][..i] == inputs[..i];
        transaction := transaction[PendingKey(txId, inputs[i].outpoint) := RowFor(stamp, inputs[i].valueZat)];
        i := i + 1;
      }
      assert inputs[..i] == inputs;
      if fails {
        return Err(SqliteFailed);
      }
      pending := transaction;
      return Ok(());
    }

    // clear_pending_broadcast_inputs_for_mined: one delete a chunk of 900 ids, outside any
    // transaction, so a chunk that fails leaves those before it removed.
    method ClearForMined(txIds: seq<TxId>, failAt: Option<nat>) returns (r: Result<(), SpendError>)
      modifies this`pending
      ensures r.Err? <==> failAt.Some? && 900 * failAt.value < |txIds|
      ensures pending
           == ClearTransactions(old(pending), IdSet(if r.Err? then txIds[..900 * failAt.value] else txIds))
    {
      var chunk, done := 0, 0;
      while done < |txIds|
        invariant done == Min(900 * chunk, |txIds|)
        invariant failAt.Some? ==> chunk <= failAt.value || |txIds| <= 900 * failAt.value
        invariant pending == ClearTransactions(old(pending), IdSet(txIds[..done]))
      {
        if failAt == Some(chunk) {
          return Err(SqliteFailed);
        }
        var next := Min(done + 900, |txIds|);
        var ids := IdSet(txIds[done..next]);
        ClearTwice(old(pending), IdSet(txIds[..done]), ids);
        assert txIds[..next] == txIds[..done] + txIds[done..next];
        pending := map k | k in pending && k.broadcast !in ids :: pending[k];
        chunk, done := chunk + 1, next;
      }
      assert txIds[..done] == txIds;
      return Ok(());
    }

    method RecordIdempotentSubmission(key: string, txId: TxId) returns (r: Result<(), SpendError>)
      modifies this`idempotency
      ensures (idempotency, r) == BindKey(old(idempotency), key, txId)
    {
      if key in idempotency {
        return if idempotency[key] == txId then Ok(()) else Err(IdempotencyKeyConflict);
      }
      idempotency := idempotency[key := txId];
      return Ok(());
    }

    // One step of the loop: record the inputs, submit, and clear the rows again if the
    // submission fails, ignoring whether the clear works. `made` are its submit calls.
    method SubmitStep(tx: PreparedTransaction, stamp: Stamp, step: StepScript)
      returns (r: Result<TxId, SpendError>, ghost made: seq<Submission>)
      modifies this`pending, this`submissions
      ensures SameElsewhere(old(pending), pending, {tx.txId})
      ensures r == StepAnswer(tx, step)
      ensures r.Ok? <==>
        && (tx.inputs == [] || !step.recordFails)
        && (step.outcome == Accepted(tx.txId) || step.outcome == Duplicate(tx.txId) || step.outcome == Queued(tx.txId))
      ensures r.Ok? ==> r.value == tx.txId && Recorded(pending, tx, stamp)
      ensures submissions == old(submissions) + made
      ensures RecordBreaks(tx, step) ==> pending == old(pending) && made == []
      ensures !RecordBreaks(tx, step) ==> |made| == 1 && made[0].tx == tx && Recorded(made[0].ledger, tx, stamp)
      ensures r.Err? && !RecordBreaks(tx, step) && !step.clearFails ==> NoRows(pending, tx.txId)
    {
      ghost var before := pending;
      made := [];
      if tx.inputs != [] {
        var recorded := RecordPendingBroadcastInputs(tx.txId, tx.inputs, stamp, step.recordFails);
        if recorded.Err? {
          return Err(recorded.error), made;
        }
      }
      RecordEffect(before, tx, stamp);
      made := [Submission(tx, pending)];
      var outcome := Submit(tx, step.outcome);
      r := ResolveSendOutcome(outcome, tx.txId);
      if r.Err? {
        ClearEffect(pending, {tx.txId});
        assert IdSet([tx.txId]) == {tx.txId} && IdSet([]) == {};
        var _ := ClearForMined([tx.txId], if step.clearFails then Some(0) else None);
      }
    }

    // Takes the prepared transactions in order and returns the first one's result.
    // `reached` is the step the loop ended in, `made` are the submit calls.
    method SubmitAndRecordPending(prepared: seq<PreparedTransaction>, stamp: Stamp, script: seq<StepScript>)
      returns (r: Result<(TxId, U32), SpendError>, reached: nat, ghost made: seq<Submission>)
      requires |script| == |prepared| && DistinctIds(prepared)
      modifies this`pending, this`submissions
      ensures r.Ok? <==> reached == |prepared| > 0
      // success needs transactions, all recorded and all taken under their own ids
      ensures r.Ok? <==> prepared != [] && forall j :: 0 <= j < |prepared| ==>
        && (prepared[j].inputs == [] || !script[j].recordFails)
        && (script[j].outcome == Accepted(prepared[j].txId) || script[j].outcome == Duplicate(prepared[j].txId)
            || script[j].outcome == Queued(prepared[j].txId))
      ensures r.Ok? ==> r.value == (prepared[0].txId, prepared[0].expiryHeight)
      ensures reached <= |prepared| && forall j :: 0 <= j < reached ==> StepAnswer(prepared[j], script[j]).Ok?
      ensures r.Err? && prepared != [] ==>
        reached < |prepared| && StepAnswer(prepared[reached], script[reached]) == Err(r.error)
      ensures prepared == [] ==> r == Err(ProposalRejected)
      // one submit call for each transaction recorded, made with its inputs in the ledger
      ensures submissions == old(submissions) + made && CallsInOrder(made, prepared, stamp)
      ensures |made| == Tried(prepared, script, reached)
      // earlier transactions stay recorded
      ensures AllRecorded(pending, prepared, reached, stamp)
      // the one that failed to submit is recorded no longer, given that its clear worked
      ensures reached < |made| && !script[reached].clearFails ==> NoRows(pending, prepared[reached].txId)
      // every other broadcast, later ones included, is untouched; so is one that failed to
      // record
      ensures SameElsewhere(old(pending), pending, TxIds(prepared, |made|))
    {
      var firstResult: Option<(TxId, U32)> := None;
      reached, made := 0, [];
      while reached < |prepared|
        invariant reached <= |prepared| && |made| == reached
        invariant firstResult == if reached == 0 then None else Some((prepared[0].txId, prepared[0].expiryHeight))
        invariant forall j :: 0 <= j < reached ==> StepAnswer(prepared[j], script[j]).Ok?
        invariant submissions == old(submissions) + made && CallsInOrder(made, prepared, stamp)
        invariant AllRecorded(pending, prepared, reached, stamp)
        invariant SameElsewhere(old(pending), pending, TxIds(prepared, reached))
      {
        ghost var before := pending;
        var outcome, calls := SubmitStep(prepared[reached], stamp, script[reached]);
        EarlierStay(before, pending, prepared, reached, stamp);
        OneMoreTouched(old(pending), before, pending, prepared, reached);
        made := made + calls;
        if outcome.Err? {
          return Err(outcome.error), reached, made;
        }
        if firstResult.None? {
          firstResult := Some((outcome.value, prepared[reached].expiryHeight));
        }
        reached := reached + 1;
      }
      r := if firstResult.Some? then Ok(firstResult.value) else Err(ProposalRejected);
    }
  }

  function IdSet(txIds: seq<TxId>): set<TxId> { set t | t in txIds }

  // Recording the inputs fails; with no inputs there is nothing to record.
  predicate RecordBreaks(tx: PreparedTransaction, step: StepScript) {
    tx.inputs != [] && step.recordFails
  }

  // How a step ends: with the storage error, or as the submitter's outcome resolves.
  function StepAnswer(tx: PreparedTransaction, step: StepScript): Result<TxId, SpendError> {
    if RecordBreaks(tx, step) then Err(SqliteFailed) else ResolveSendOutcome(step.outcome, tx.txId)
  }

  // How many submit calls a loop that ended in step `reached` has made.
  function Tried(prepared: seq<PreparedTransaction>, script: seq<StepScript>, reached: nat): nat
    requires |script| == |prepared|
  {
    if reached < |prepared| && !RecordBreaks(prepared[reached], script[reached]) then reached + 1 else reached
  }

  ghost predicate DistinctIds(prepared: seq<PreparedTransaction>) {
    forall i, j :: 0 <= i < j < |prepared| ==> prepared[i].txId != prepared[j].txId
  }

  // Call j was for transaction j, with its inputs in the ledger at that moment.
  ghost predicate CallsInOrder(made: seq<Submission>, prepared: seq<PreparedTransaction>, stamp: Stamp) {
    && |made| <= |prepared|
    && forall j :: 0 <= j < |made| ==> made[j].tx == prepared[j] && Recorded(made[j].ledger, prepared[j], stamp)
  }

  ghost predicate AllRecorded(table: PendingTable, prepared: seq<PreparedTransaction>, n: nat, stamp: Stamp) {
    n <= |prepared| && forall j :: 0 <= j < n ==> Recorded(table, prepared[j], stamp)
  }

  ghost function TxIds(prepared: seq<PreparedTransaction>, n: nat): set<TxId> {
    set j | 0 <= j < |prepared| && j < n :: prepared[j].txId
  }

  // A change confined to step n's broadcast leaves the earlier ones recorded.
  lemma EarlierStay(t1: PendingTable, t2: PendingTable, prepared: seq<PreparedTransaction>, n: nat, stamp: Stamp)
    requires n < |prepared| && SameElsewhere(t1, t2, {prepared[n].txId}) && DistinctIds(prepared)
    requires AllRecorded(t1, prepared, n, stamp)
    ensures AllRecorded(t2, prepared, n, stamp)
  {
    forall j | 0 <= j < n ensures Recorded(t2, prepared[j], stamp) {
      RecordedElsewhere(t1, t2, {prepared[n].txId}, prepared[j], stamp);
    }
  }

  lemma OneMoreTouched(t0: PendingTable, t1: PendingTable, t2: PendingTable, prepared: seq<PreparedTransaction>, n: nat)
    requires n < |prepared| && SameElsewhere(t0, t1, TxIds(prepared, n)) && SameElsewhere(t1, t2, {prepared[n].txId})
    ensures SameElsewhere(t0, t2, TxIds(prepared, n + 1))
  {
  }
}
