// Sends and shields interleaving over the shared spend ledgers, with a crash possible
// between any two steps and the sync loop sweeping rows of mined and expired broadcasts.
module SpendProtocol {
  import opened Prelude
  import opened SpendStore

  type CallId = nat

  datatype CallPc =
    | Looking
    | Preparing
    | Recording
    | Submitting
    | Clearing(error: SpendError)
    | Binding
    | Done(result: Result<TxId, SpendError>)
    | Crashed

  // `at` is the current step; `recorded` counts the transactions whose rows were written
  // and not cleared again; `submits` counts submit calls. The last two and `clearFailed`
  // appear in no guard.
  datatype Call = Call(
    key: string,
    pc: CallPc,
    prepared: seq<PreparedTransaction>,
    stamp: Stamp,
    at: nat,
    recorded: nat,
    submits: nat,
    clearFailed: bool)

  // `swept` are the broadcasts whose rows the sync loop has removed. A sweep that fails in a
  // later chunk is a sweep of the ids before it.
  datatype State = State(
    pending: PendingTable,
    idempotency: map<string, TxId>,
    calls: map<CallId, Call>,
    swept: set<TxId>)

  datatype Event =
    | Start(c: CallId, key: string)
    | Lookup(c: CallId)
    | Prepare(c: CallId, prepared: seq<PreparedTransaction>, stamp: Stamp)
    | Record(c: CallId, fails: bool)
    | Submit(c: CallId, outcome: SubmitOutcome)
    | Clear(c: CallId, fails: bool)
    | Bind(c: CallId)
    | StorageFails(c: CallId)
    | Crash
    | SweepMined(txIds: set<TxId>)
    | SweepExpired(beforeMs: nat)

  function Init(): State { State(map[], map[], map[], {}) }

  function SetCall(s: State, c: CallId, k: Call): State { s.(calls := s.calls[c := k]) }

  function DoLookup(s: State, c: CallId, k: Call): State {
    SetCall(s, c, k.(pc := if k.key in s.idempotency then Done(Ok(s.idempotency[k.key])) else Preparing))
  }

  function DoPrepare(s: State, c: CallId, k: Call, prepared: seq<PreparedTransaction>, stamp: Stamp): State {
    if prepared == [] then SetCall(s, c, k.(pc := Done(Err(ProposalRejected))))
    else SetCall(s, c, k.(pc := Recording, prepared := prepared, stamp := stamp))
  }

  function DoRecord(s: State, c: CallId, k: Call, fails: bool): State
    requires k.at < |k.prepared|
  {
    var tx := k.prepared[k.at];
    if fails && tx.inputs != [] then SetCall(s, c, k.(pc := Done(Err(SqliteFailed))))
    else
      var s' := SetCall(s, c, k.(pc := Submitting, recorded := k.at + 1));
      s'.(pending := RecordInputs(s.pending, tx.txId, tx.inputs, k.stamp))
  }

  function DoSubmit(s: State, c: CallId, k: Call, outcome: SubmitOutcome): State
    requires k.at < |k.prepared|
  {
    match ResolveSendOutcome(outcome, k.prepared[k.at].txId)
    case Err(e) => SetCall(s, c, k.(pc := Clearing(e), submits := k.submits + 1))
    case Ok(_) =>
      var pc := if k.at + 1 < |k.prepared| then Recording else Binding;
      SetCall(s, c, k.(pc := pc, at := k.at + 1, submits := k.submits + 1))
  }

  function DoClear(s: State, c: CallId, k: Call, fails: bool): State
    requires k.at < |k.prepared| && k.pc.Clearing?
  {
    var done := k.(pc := Done(Err(k.pc.error)));
    if fails then SetCall(s, c, done.(clearFailed := true))
    else SetCall(s, c, done.(recorded := k.at)).(pending := ClearTransactions(s.pending, {k.prepared[k.at].txId}))
  }

  function DoBind(s: State, c: CallId, k: Call): State
    requires k.prepared != []
  {
    var txId := k.prepared[0].txId;
    var (idempotency, r) := BindKey(s.idempotency, k.key, txId);
    SetCall(s, c, k.(pc := Done(if r.Ok? then Ok(txId) else Err(r.error)))).(idempotency := idempotency)
  }

  // The process dies: running calls stop where they are, the ledgers stay.
  function DoCrash(s: State): State {
    s.(calls := map c | c in s.calls :: if s.calls[c].pc.Done? then s.calls[c] else s.calls[c].(pc := Crashed))
  }

  function ExpiredIds(pending: PendingTable, beforeMs: nat): set<TxId> {
    set k | k in pending && pending[k].atMs < beforeMs :: k.broadcast
  }

  // Freshly built transactions have ids of their own.
  ghost predicate FreshIds(s: State, prepared: seq<PreparedTransaction>) {
    && (forall i, j :: 0 <= i < j < |prepared| ==> prepared[i].txId != prepared[j].txId)
    && (forall i :: 0 <= i < |prepared| ==> NoRows(s.pending, prepared[i].txId))
    && (forall c, i, j :: c in s.calls && 0 <= i < |s.calls[c].prepared| && 0 <= j < |prepared| ==>
          s.calls[c].prepared[i].txId != prepared[j].txId)
  }

  ghost predicate Enabled(s: State, e: Event) {
    match e
    case Start(c, _) => c !in s.calls
    case Lookup(c) => c in s.calls && s.calls[c].pc.Looking?
    case Prepare(c, prepared, _) => c in s.calls && s.calls[c].pc.Preparing? && FreshIds(s, prepared)
    case Record(c, _) => c in s.calls && s.calls[c].pc.Recording? && s.calls[c].at < |s.calls[c].prepared|
    case Submit(c, _) => c in s.calls && s.calls[c].pc.Submitting? && s.calls[c].at < |s.calls[c].prepared|
    case Clear(c, _) => c in s.calls && s.calls[c].pc.Clearing? && s.calls[c].at < |s.calls[c].prepared|
    case Bind(c) => c in s.calls && s.calls[c].pc.Binding? && s.calls[c].prepared != []
    case StorageFails(c) =>
      c in s.calls && (s.calls[c].pc.Looking? || s.calls[c].pc.Preparing? || s.calls[c].pc.Binding?)
    case Crash => true
    case SweepMined(_) => true
    case SweepExpired(_) => true
  }

  ghost function Step(s: State, e: Event): State {
    if !Enabled(s, e) then s
    else
      match e
      case Start(c, key) => SetCall(s, c, Call(key, Looking, [], Stamp(0, 0, None), 0, 0, 0, false))
      case Lookup(c) => DoLookup(s, c, s.calls[c])
      case Prepare(c, prepared, stamp) => DoPrepare(s, c, s.calls[c], prepared, stamp)
      case Record(c, fails) => DoRecord(s, c, s.calls[c], fails)
      case Submit(c, outcome) => DoSubmit(s, c, s.calls[c], outcome)
      case Clear(c, fails) => DoClear(s, c, s.calls[c], fails)
      case Bind(c) => DoBind(s, c, s.calls[c])
      case StorageFails(c) => SetCall(s, c, s.calls[c].(pc := Done(Err(SqliteFailed))))
      case Crash => DoCrash(s)
      case SweepMined(txIds) => s.(pending := ClearTransactions(s.pending, txIds), swept := s.swept + txIds)
      case SweepExpired(ms) => s.(pending := ClearExpired(s.pending, ms), swept := s.swept + ExpiredIds(s.pending, ms))
  }

  ghost function RunFrom(s: State, events: seq<Event>): State {
    if events == [] then s else Step(RunFrom(s, events[..|events| - 1]), events[|events| - 1])
  }

  ghost function Run(events: seq<Event>): State { RunFrom(Init(), events) }

  // ---- the invariant ----

  ghost predicate DistinctIds(k: Call) {
    forall i, j :: 0 <= i < j < |k.prepared| ==> k.prepared[i].txId != k.prepared[j].txId
  }

  ghost predicate DisjointIds(k: Call, k': Call) {
    forall i, j :: 0 <= i < |k.prepared| && 0 <= j < |k'.prepared| ==> k.prepared[i].txId != k'.prepared[j].txId
  }

  // The rows of the recorded transactions are there unless swept; the others have none.
  ghost predicate LedgerInv(k: Call, pending: PendingTable, swept: set<TxId>) {
    && (forall j :: 0 <= j < |k.prepared| && j < k.recorded && k.prepared[j].txId !in swept ==>
          Recorded(pending, k.prepared[j], k.stamp))
    && (forall j :: 0 <= j < |k.prepared| && k.recorded <= j ==> NoRows(pending, k.prepared[j].txId))
  }

  ghost predicate ProgressInv(k: Call, idempotency: map<string, TxId>) {
    && k.at <= k.recorded <= k.at + 1
    && k.recorded <= |k.prepared|
    && k.at <= k.submits <= k.at + 1
    && (k.clearFailed ==> k.pc.Done? && k.pc.result.Err?)
    && match k.pc
       case Looking => k.prepared == [] && k.submits == 0
       case Preparing => k.prepared == [] && k.submits == 0
       case Recording => k.recorded == k.at == k.submits < |k.prepared|
       case Submitting => k.recorded == k.at + 1 && k.submits == k.at
       case Clearing(_) => k.recorded == k.at + 1 && k.submits == k.at + 1
       case Binding => k.at == |k.prepared| > 0 && k.submits == k.at
       case Done(r) =>
         && (r.Ok? ==>
               && k.at == |k.prepared| == k.submits
               && k.key in idempotency && idempotency[k.key] == r.value
               && (k.prepared != [] ==> r.value == k.prepared[0].txId))
         && (k.recorded > k.at ==> k.clearFailed)
       case Crashed => true
  }

  ghost predicate Inv(s: State) {
    && (forall c :: c in s.calls ==>
          && DistinctIds(s.calls[c])
          && LedgerInv(s.calls[c], s.pending, s.swept)
          && ProgressInv(s.calls[c], s.idempotency))
    && (forall c, d :: c in s.calls && d in s.calls && c != d ==> DisjointIds(s.calls[c], s.calls[d]))
  }

  // A table change confined to broadcasts that are not this call's, or that are swept.
  lemma LedgerFrame(k: Call, t1: PendingTable, t2: PendingTable, ids: set<TxId>, swept: set<TxId>, swept': set<TxId>)
    requires LedgerInv(k, t1, swept) && SameElsewhere(t1, t2, ids) && swept <= swept'
    requires forall j :: 0 <= j < |k.prepared| && k.prepared[j].txId in ids ==>
      k.prepared[j].txId in swept' && (NoRows(t1, k.prepared[j].txId) ==> NoRows(t2, k.prepared[j].txId))
    ensures LedgerInv(k, t2, swept')
  {
    forall j | 0 <= j < |k.prepared| && k.prepared[j].txId !in ids
      ensures Recorded(t1, k.prepared[j], k.stamp) ==> Recorded(t2, k.prepared[j], k.stamp)
      ensures NoRows(t1, k.prepared[j].txId) ==> NoRows(t2, k.prepared[j].txId)
    {
      RecordedElsewhere(t1, t2, ids, k.prepared[j], k.stamp);
    }
  }

  // A step that rewrites one call and neither ledger.
  lemma CallOnly(s: State, c: CallId, k: Call)
    requires Inv(s) && DistinctIds(k) && LedgerInv(k, s.pending, s.swept) && ProgressInv(k, s.idempotency)
    requires forall d :: d in s.calls && d != c ==> DisjointIds(k, s.calls[d]) && DisjointIds(s.calls[d], k)
    ensures Inv(SetCall(s, c, k))
  {
  }

  // A step of call c that changes only the rows of its current transaction.
  lemma OwnRows(s: State, c: CallId, k: Call, pending: PendingTable)
    requires Inv(s) && c in s.calls && s.calls[c].at < |s.calls[c].prepared|
    requires k.prepared == s.calls[c].prepared && k.stamp == s.calls[c].stamp
    requires SameElsewhere(s.pending, pending, {k.prepared[s.calls[c].at].txId})
    requires LedgerInv(k, pending, s.swept) && ProgressInv(k, s.idempotency)
    ensures Inv(SetCall(s, c, k).(pending := pending))
  {
    var txId := k.prepared[s.calls[c].at].txId;
    forall d | d in s.calls && d != c ensures LedgerInv(s.calls[d], pending, s.swept) {
      assert DisjointIds(s.calls[c], s.calls[d]);
      LedgerFrame(s.calls[d], s.pending, pending, {txId}, s.swept, s.swept);
    }
  }

  lemma PrepareStep(s: State, c: CallId, prepared: seq<PreparedTransaction>, stamp: Stamp)
    requires Inv(s) && Enabled(s, Prepare(c, prepared, stamp))
    ensures Inv(DoPrepare(s, c, s.calls[c], prepared, stamp))
  {
    var k := DoPrepare(s, c, s.calls[c], prepared, stamp).calls[c];
    CallOnly(s, c, k);
  }

  lemma RecordStep(s: State, c: CallId, fails: bool)
    requires Inv(s) && Enabled(s, Record(c, fails))
    ensures Inv(DoRecord(s, c, s.calls[c], fails))
  {
    var k, s' := s.calls[c], DoRecord(s, c, s.calls[c], fails);
    var tx := k.prepared[k.at];
    if fails && tx.inputs != [] {
      CallOnly(s, c, s'.calls[c]);
    } else {
      RecordEffect(s.pending, tx, k.stamp);
      assert DistinctIds(k);
      forall j | 0 <= j < |k.prepared| && j != k.at
        ensures Recorded(s.pending, k.prepared[j], k.stamp) ==> Recorded(s'.pending, k.prepared[j], k.stamp)
        ensures NoRows(s.pending, k.prepared[j].txId) ==> NoRows(s'.pending, k.prepared[j].txId)
      {
        RecordedElsewhere(s.pending, s'.pending, {tx.txId}, k.prepared[j], k.stamp);
      }
      OwnRows(s, c, s'.calls[c], s'.pending);
    }
  }

  lemma ClearStep(s: State, c: CallId, fails: bool)
    requires Inv(s) && Enabled(s, Clear(c, fails))
    ensures Inv(DoClear(s, c, s.calls[c], fails))
  {
    var k, s' := s.calls[c], DoClear(s, c, s.calls[c], fails);
    if fails {
      CallOnly(s, c, s'.calls[c]);
    } else {
      var tx := k.prepared[k.at];
      ClearEffect(s.pending, {tx.txId});
      assert DistinctIds(k);
      forall j | 0 <= j < |k.prepared| && j != k.at
        ensures Recorded(s.pending, k.prepared[j], k.stamp) ==> Recorded(s'.pending, k.prepared[j], k.stamp)
        ensures NoRows(s.pending, k.prepared[j].txId) ==> NoRows(s'.pending, k.prepared[j].txId)
      {
        RecordedElsewhere(s.pending, s'.pending, {tx.txId}, k.prepared[j], k.stamp);
      }
      assert NoRows(s'.pending, tx.txId);
      OwnRows(s, c, s'.calls[c], s'.pending);
    }
  }

  lemma MoreBindings(s: State, idempotency: map<string, TxId>)
    requires Inv(s)
    requires forall key :: key in s.idempotency ==> key in idempotency && idempotency[key] == s.idempotency[key]
    ensures Inv(s.(idempotency := idempotency))
  {
    forall c | c in s.calls ensures ProgressInv(s.calls[c], idempotency) {
    }
  }

  lemma BindStep(s: State, c: CallId)
    requires Inv(s) && Enabled(s, Bind(c))
    ensures Inv(DoBind(s, c, s.calls[c]))
  {
    var k, s' := s.calls[c], DoBind(s, c, s.calls[c]);
    MoreBindings(s, s'.idempotency);
    assert ProgressInv(s'.calls[c], s'.idempotency);
    CallOnly(s.(idempotency := s'.idempotency), c, s'.calls[c]);
  }

  lemma CrashedCall(k: Call, pending: PendingTable, swept: set<TxId>, idempotency: map<string, TxId>)
    requires LedgerInv(k, pending, swept) && ProgressInv(k, idempotency) && DistinctIds(k) && !k.pc.Done?
    ensures var k' := k.(pc := Crashed);
      LedgerInv(k', pending, swept) && ProgressInv(k', idempotency) && DistinctIds(k')
  {
  }

  lemma CrashStep(s: State)
    requires Inv(s)
    ensures Inv(DoCrash(s))
  {
    var s' := DoCrash(s);
    forall c | c in s'.calls
      ensures DistinctIds(s'.calls[c])
      ensures LedgerInv(s'.calls[c], s'.pending, s'.swept) && ProgressInv(s'.calls[c], s'.idempotency)
    {
      if !s.calls[c].pc.Done? {
        CrashedCall(s.calls[c], s.pending, s.swept, s.idempotency);
      }
    }
    forall c, d | c in s'.calls && d in s'.calls && c != d ensures DisjointIds(s'.calls[c], s'.calls[d]) {
      assert DisjointIds(s.calls[c], s.calls[d]);
      assert s'.calls[c].prepared == s.calls[c].prepared && s'.calls[d].prepared == s.calls[d].prepared;
    }
  }

  lemma SweepStep(s: State, pending: PendingTable, ids: set<TxId>)
    requires Inv(s) && SameElsewhere(s.pending, pending, ids)
    requires forall key :: key in pending ==> key in s.pending
    ensures Inv(s.(pending := pending, swept := s.swept + ids))
  {
    forall c | c in s.calls ensures LedgerInv(s.calls[c], pending, s.swept + ids) {
      LedgerFrame(s.calls[c], s.pending, pending, ids, s.swept, s.swept + ids);
    }
  }

  lemma StartStep(s: State, c: CallId, key: string)
    requires Inv(s) && c !in s.calls
    ensures Inv(Step(s, Start(c, key)))
  {
    CallOnly(s, c, Call(key, Looking, [], Stamp(0, 0, None), 0, 0, 0, false));
  }

  lemma SubmitStep(s: State, c: CallId, outcome: SubmitOutcome)
    requires Inv(s) && Enabled(s, Submit(c, outcome))
    ensures Inv(DoSubmit(s, c, s.calls[c], outcome))
  {
    var k := DoSubmit(s, c, s.calls[c], outcome).calls[c];
    assert ProgressInv(k, s.idempotency);
    CallOnly(s, c, k);
  }

  lemma LookupStep(s: State, c: CallId)
    requires Inv(s) && Enabled(s, Lookup(c))
    ensures Inv(DoLookup(s, c, s.calls[c]))
  {
    CallOnly(s, c, DoLookup(s, c, s.calls[c]).calls[c]);
  }

  lemma FailStep(s: State, c: CallId)
    requires Inv(s) && Enabled(s, StorageFails(c))
    ensures Inv(SetCall(s, c, s.calls[c].(pc := Done(Err(SqliteFailed)))))
  {
    var k := s.calls[c].(pc := Done(Err(SqliteFailed)));
    assert ProgressInv(k, s.idempotency);
    CallOnly(s, c, k);
  }

  lemma StepKeepsInv(s: State, e: Event)
    requires Inv(s)
    ensures Inv(Step(s, e))
  {
    if Enabled(s, e) {
      match e
      case Prepare(c, prepared, stamp) => PrepareStep(s, c, prepared, stamp);
      case Record(c, fails) => RecordStep(s, c, fails);
      case Clear(c, fails) => ClearStep(s, c, fails);
      case Bind(c) => BindStep(s, c);
      case Crash => CrashStep(s);
      case SweepMined(txIds) =>
        ClearEffect(s.pending, txIds);
        SweepStep(s, ClearTransactions(s.pending, txIds), txIds);
      case SweepExpired(ms) => SweepStep(s, ClearExpired(s.pending, ms), ExpiredIds(s.pending, ms));
      case Start(c, key) => StartStep(s, c, key);
      case Lookup(c) => LookupStep(s, c);
      case Submit(c, outcome) => SubmitStep(s, c, outcome);
      case StorageFails(c) => FailStep(s, c);
    }
  }

  lemma {:induction false} RunInv(events: seq<Event>)
    ensures Inv(Run(events))
  {
    if events != [] {
      RunInv(events[..|events| - 1]);
      StepKeepsInv(Run(events[..|events| - 1]), events[|events| - 1]);
    }
  }
}
