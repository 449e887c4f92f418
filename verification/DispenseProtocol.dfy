// Any number of reserve_for_dispense calls interleaving with each other and with releases
// and finalizations. Each call reads, checks and inserts in separate storage work items,
// so its pre-check may be stale by the time it inserts.
module DispenseProtocol {
  import opened Prelude
  import opened LockedNotes
  import opened NoteSelection
  import opened HoldStore

  type CallerId = nat

  datatype Plan = Plan(accountId: AccountId, amountZat: Zatoshis, requestId: string, idempotencyKey: string)

  datatype Hold = Hold(
    holdId: HoldId,
    requestId: string,
    idempotencyKey: string,
    amountZat: Zatoshis,
    noteCount: U32,
    totalLockedZat: Zatoshis,
    availableAfterReleaseZat: Zatoshis)

  datatype WalletError =
    | ProposalRejected
    | InsufficientBalance(requestedZat: Zatoshis, spendableZat: Zatoshis)
    | Storage(error: HoldError)

  datatype CallerPc =
    | Looking(plan: Plan)
    | Listing(plan: Plan)
    | Summing(plan: Plan, notes: seq<HeldNote>)
    | Inserting(record: HoldRecord, spendable: Zatoshis)
    | ListingPrior(accountId: AccountId, prior: HoldRow)
    | SummingPrior(accountId: AccountId, prior: HoldRow, notes: seq<HeldNote>)
    | Done(result: Result<Hold, WalletError>)

  // `gross` is the spendable figure passed by each account's latest successful insert.
  datatype State = State(rows: seq<HoldRow>, callers: map<CallerId, CallerPc>, gross: map<AccountId, Zatoshis>)

  datatype Event =
    | Reserve(c: CallerId, plan: Plan)
    | Lookup(c: CallerId, at: Option<nat>)
    | ListNotes(c: CallerId, notes: seq<HeldNote>)
    | ReadReserved(c: CallerId, holdId: HoldId, nowMs: nat)
    | Insert(c: CallerId)
    | StorageFails(c: CallerId)
    | ReleaseRow(holdId: HoldId, atMs: nat)
    | FinalizeRow(holdId: HoldId, txId: TxId)

  // ---- wallet arithmetic ----

  function SpendableForNextDispense(notes: seq<HeldNote>, reserved: U64): Zatoshis {
    ZatoshisOrZero(SaturatingSub(SaturatingSum(notes), reserved))
  }

  function ComputeAvailableAfterRelease(notes: seq<HeldNote>, reserved: U64, amount: Zatoshis): Zatoshis {
    ZatoshisOrZero(SaturatingAdd(SpendableForNextDispense(notes, reserved), amount))
  }

  // sum_active_dispense_reserved_zat
  function ReadReservedZat(rows: seq<HoldRow>, a: AccountId): Result<Zatoshis, HoldError> {
    match CheckedActiveSum(rows, a)
    case Err(e) => Err(e)
    case Ok(sum) => if sum > MAX_MONEY then Err(RowValueOutOfRange) else Ok(sum)
  }

  // ---- steps ----

  function SetPc(s: State, c: CallerId, pc: CallerPc): State { s.(callers := s.callers[c := pc]) }

  function DoLookup(s: State, c: CallerId, plan: Plan, at: Option<nat>): State
    requires at.Some? ==> at.value < |s.rows|
  {
    if at.None? then SetPc(s, c, Listing(plan))
    else
      var row := s.rows[at.value];
      if Decoded(row.lockedNotes).Err? then SetPc(s, c, Done(Err(Storage(RowValueOutOfRange))))
      else if Active(row) then SetPc(s, c, ListingPrior(plan.accountId, row))
      else SetPc(s, c, Listing(plan))
  }

  function DoReadReserved(s: State, c: CallerId, plan: Plan, notes: seq<HeldNote>, holdId: HoldId, nowMs: nat): State {
    match ReadReservedZat(s.rows, plan.accountId)
    case Err(e) => SetPc(s, c, Done(Err(Storage(e))))
    case Ok(reserved) =>
      var spendable := SpendableForNextDispense(notes, reserved);
      if plan.amountZat > spendable then SetPc(s, c, Done(Err(InsufficientBalance(plan.amountZat, spendable))))
      else
        var record := HoldRecord(holdId, plan.requestId, plan.idempotencyKey, plan.accountId, plan.amountZat,
                                 ZatoshisOrZero(SaturatingSum(notes)), Selection(notes, plan.amountZat), nowMs);
        SetPc(s, c, Inserting(record, spendable))
  }

  function HoldOf(id: HoldId, requestId: string, key: string, amount: Zatoshis, locked: seq<HeldNote>,
                  available: Zatoshis): Hold {
    Hold(id, requestId, key, amount, Min(|locked|, U32_MAX), ZatoshisOrZero(SaturatingSum(locked)), available)
  }

  // The figures are those of the account the caller names, whichever account the hold is on.
  function DoReadReservedPrior(s: State, c: CallerId, a: AccountId, prior: HoldRow, notes: seq<HeldNote>): State {
    match ReadReservedZat(s.rows, a)
    case Err(e) => SetPc(s, c, Done(Err(Storage(e))))
    case Ok(reserved) =>
      var available := ComputeAvailableAfterRelease(notes, reserved, prior.amountZat);
      var locked := Decoded(prior.lockedNotes);
      if locked.Err? then SetPc(s, c, Done(Err(Storage(RowValueOutOfRange))))
      else SetPc(s, c, Done(Ok(HoldOf(prior.holdId, prior.requestId, prior.idempotencyKey, prior.amountZat,
                                      locked.value, available))))
  }

  function DoInsert(s: State, c: CallerId, record: HoldRecord, spendable: Zatoshis): State {
    var (rows, r) := CreateHold(s.rows, record);
    if r.Err? then SetPc(s, c, Done(Err(Storage(r.error))))
    else
      var hold := HoldOf(record.holdId, record.requestId, record.idempotencyKey, record.amountZat,
                         record.lockedNotes, spendable);
      SetPc(s, c, Done(Ok(hold))).(rows := rows, gross := s.gross[record.accountId := record.spendableForCheckZat])
  }

  // What find_hold_by_request_id may answer.
  predicate LookupAnswer(rows: seq<HoldRow>, requestId: string, at: Option<nat>) {
    match at
    case None => forall i :: 0 <= i < |rows| ==> rows[i].requestId != requestId
    case Some(i) => Newest(rows, requestId, i)
  }

  predicate Enabled(s: State, e: Event) {
    match e
    case Reserve(c, _) => c !in s.callers
    case Lookup(c, at) =>
      && c in s.callers && s.callers[c].Looking?
      && LookupAnswer(s.rows, s.callers[c].plan.requestId, at)
    case ListNotes(c, notes) =>
      && c in s.callers && (s.callers[c].Listing? || s.callers[c].ListingPrior?)
      && |notes| <= U32_MAX
    case ReadReserved(c, _, _) => c in s.callers && (s.callers[c].Summing? || s.callers[c].SummingPrior?)
    case Insert(c) => c in s.callers && s.callers[c].Inserting?
    case StorageFails(c) => c in s.callers && !s.callers[c].Done?
    case ReleaseRow(_, _) => true
    case FinalizeRow(_, _) => true
  }

  function Step(s: State, e: Event): State {
    if !Enabled(s, e) then s
    else
      match e
      case Reserve(c, plan) =>
        SetPc(s, c, if plan.amountZat == 0 then Done(Err(ProposalRejected)) else Looking(plan))
      case Lookup(c, at) => DoLookup(s, c, s.callers[c].plan, at)
      case ListNotes(c, notes) =>
        SetPc(s, c, match s.callers[c]
                    case Listing(plan) => Summing(plan, notes)
                    case ListingPrior(a, prior) => SummingPrior(a, prior, notes)
                    case other => other)
      case ReadReserved(c, holdId, nowMs) =>
        (match s.callers[c]
         case Summing(plan, notes) => DoReadReserved(s, c, plan, notes, holdId, nowMs)
         case SummingPrior(a, prior, notes) => DoReadReservedPrior(s, c, a, prior, notes)
         case _ => s)
      case Insert(c) => DoInsert(s, c, s.callers[c].record, s.callers[c].spendable)
      case StorageFails(c) => SetPc(s, c, Done(Err(Storage(SqliteFailed))))
      case ReleaseRow(id, ms) => s.(rows := ReleaseHold(s.rows, id, ms).0)
      case FinalizeRow(id, tx) => s.(rows := FinalizeHold(s.rows, id, tx).0)
  }

  function Init(): State { State([], map[], map[]) }

  function RunFrom(s: State, events: seq<Event>): State {
    if events == [] then s else Step(RunFrom(s, events[..|events| - 1]), events[|events| - 1])
  }

  function Run(events: seq<Event>): State { RunFrom(Init(), events) }

  // ---- the invariant ----

  // A row is active only while no later row carries its request id.
  ghost predicate SupersededInactive(rows: seq<HoldRow>) {
    forall i, j :: 0 <= i < j < |rows| && rows[i].requestId == rows[j].requestId ==> !Active(rows[i])
  }

  function GrossOf(s: State, a: AccountId): Zatoshis { if a in s.gross then s.gross[a] else 0 }

  ghost predicate WithinGross(s: State) {
    forall a: AccountId :: ActiveSum(s.rows, a) <= GrossOf(s, a)
  }

  ghost predicate BlobsDecode(rows: seq<HoldRow>) {
    forall i :: 0 <= i < |rows| ==> Decoded(rows[i].lockedNotes).Ok?
  }

  ghost predicate IsRow(rows: seq<HoldRow>, r: HoldRow) {
    exists i :: 0 <= i < |rows| && RowGrows(r, rows[i])
  }

  // The summary a hold gives of its notes: their number, and their sum if that is an amount
  // of money.
  ghost predicate Summarizes(h: Hold, notes: seq<HeldNote>) {
    && h.noteCount == Min(|notes|, U32_MAX)
    && h.totalLockedZat == if Sum(notes) <= MAX_MONEY then Sum(notes) else 0
  }

  // A granted hold is a row of the table and summarizes the notes stored with it.
  ghost predicate BackedBy(r: HoldRow, h: Hold) {
    && r.holdId == h.holdId && r.requestId == h.requestId
    && r.idempotencyKey == h.idempotencyKey && r.amountZat == h.amountZat > 0
    && Decoded(r.lockedNotes).Ok? && Summarizes(h, Decoded(r.lockedNotes).value)
  }

  ghost predicate Backed(rows: seq<HoldRow>, h: Hold) {
    exists i :: 0 <= i < |rows| && BackedBy(rows[i], h)
  }

  lemma HoldSummary(id: HoldId, requestId: string, key: string, amount: Zatoshis, locked: seq<HeldNote>,
                    available: Zatoshis)
    ensures Summarizes(HoldOf(id, requestId, key, amount, locked, available), locked)
  {
    SaturatingSumIs(locked);
  }

  ghost predicate CallerInv(rows: seq<HoldRow>, pc: CallerPc) {
    match pc
    case Looking(plan) => plan.amountZat > 0
    case Listing(plan) => plan.amountZat > 0
    case Summing(plan, notes) => plan.amountZat > 0 && |notes| <= U32_MAX
    case Inserting(record, _) => record.amountZat > 0 && |record.lockedNotes| <= U32_MAX
    case ListingPrior(_, prior) => prior.amountZat > 0 && IsRow(rows, prior)
    case SummingPrior(_, prior, _) => prior.amountZat > 0 && IsRow(rows, prior)
    case Done(r) => r.Ok? ==> Backed(rows, r.value)
  }

  ghost predicate RowsInv(rows: seq<HoldRow>) {
    && UniqueIds(rows)
    && SupersededInactive(rows)
    && BlobsDecode(rows)
    && (forall i :: 0 <= i < |rows| ==> rows[i].amountZat > 0)
  }

  ghost predicate Inv(s: State) {
    && RowsInv(s.rows)
    && WithinGross(s)
    && (forall c :: c in s.callers ==> CallerInv(s.rows, s.callers[c]))
  }

  lemma CallerInvGrows(rows: seq<HoldRow>, rows': seq<HoldRow>, pc: CallerPc)
    requires CallerInv(rows, pc) && TableGrows(rows, rows')
    ensures CallerInv(rows', pc)
  {
    match pc
    case ListingPrior(_, prior) =>
      var i :| 0 <= i < |rows| && RowGrows(prior, rows[i]);
      assert RowGrows(rows[i], rows'[i]) && RowGrows(prior, rows'[i]);
    case SummingPrior(_, prior, _) =>
      var i :| 0 <= i < |rows| && RowGrows(prior, rows[i]);
      assert RowGrows(rows[i], rows'[i]) && RowGrows(prior, rows'[i]);
    case Done(r) =>
      if r.Ok? {
        var h := r.value;
        var i :| 0 <= i < |rows| && BackedBy(rows[i], h);
        assert RowGrows(rows[i], rows'[i]) && BackedBy(rows'[i], h);
      }
    case _ =>
  }

  lemma AppendKeepsRowsInv(rows: seq<HoldRow>, r: HoldRow)
    requires RowsInv(rows) && !HasId(rows, r.holdId) && !HasActiveRequest(rows, r.requestId)
    requires Decoded(r.lockedNotes).Ok? && r.amountZat > 0
    ensures RowsInv(rows + [r])
  {
    var rows' := rows + [r];
    forall i, j | 0 <= i < j < |rows'| && rows'[i].requestId == rows'[j].requestId ensures !Active(rows'[i]) {
      assert rows'[i] == rows[i];
    }
    assert forall i :: 0 <= i < |rows| ==> rows'[i] == rows[i];
  }

  lemma InsertedFits(s: State, record: HoldRecord, a: AccountId)
    requires WithinGross(s) && CreateHold(s.rows, record).1.Ok?
    ensures ActiveSum(CreateHold(s.rows, record).0, a)
         <= if a == record.accountId then record.spendableForCheckZat else GrossOf(s, a)
  {
    ActiveSumSnoc(s.rows, NewRow(record), a);
  }

  lemma CallersKeepInv(s: State, rows': seq<HoldRow>)
    requires Inv(s) && TableGrows(s.rows, rows')
    ensures forall c :: c in s.callers ==> CallerInv(rows', s.callers[c])
  {
    forall c | c in s.callers ensures CallerInv(rows', s.callers[c]) {
      CallerInvGrows(s.rows, rows', s.callers[c]);
    }
  }

  lemma GrantedIsBacked(rows: seq<HoldRow>, record: HoldRecord, spendable: Zatoshis)
    requires record.amountZat > 0 && |record.lockedNotes| <= U32_MAX
    ensures Backed(rows + [NewRow(record)],
                   HoldOf(record.holdId, record.requestId, record.idempotencyKey, record.amountZat,
                          record.lockedNotes, spendable))
  {
    NotesRoundTrip(record.lockedNotes);
    HoldSummary(record.holdId, record.requestId, record.idempotencyKey, record.amountZat,
                record.lockedNotes, spendable);
    assert (rows + [NewRow(record)])[|rows|] == NewRow(record);
  }

  lemma InsertStep(s: State, c: CallerId, record: HoldRecord, spendable: Zatoshis)
    requires Inv(s) && CallerInv(s.rows, Inserting(record, spendable))
    ensures Inv(DoInsert(s, c, record, spendable))
  {
    if CreateHold(s.rows, record).1.Err? {
      SetPcStep(s, c, DoInsert(s, c, record, spendable).callers[c]);
    } else {
      GrantStep(s, c, record, spendable);
    }
  }

  lemma GrantWithinGross(s: State, c: CallerId, record: HoldRecord, spendable: Zatoshis)
    requires WithinGross(s) && CreateHold(s.rows, record).1.Ok?
    ensures WithinGross(DoInsert(s, c, record, spendable))
  {
    forall a: AccountId
      ensures ActiveSum(DoInsert(s, c, record, spendable).rows, a) <= GrossOf(DoInsert(s, c, record, spendable), a)
    {
      InsertedFits(s, record, a);
    }
  }

  lemma GrantStep(s: State, c: CallerId, record: HoldRecord, spendable: Zatoshis)
    requires Inv(s) && CallerInv(s.rows, Inserting(record, spendable)) && CreateHold(s.rows, record).1.Ok?
    ensures Inv(DoInsert(s, c, record, spendable))
  {
    var rows' := CreateHold(s.rows, record).0;
    GrantWithinGross(s, c, record, spendable);
    assert RowsInv(rows') by {
      NotesRoundTrip(record.lockedNotes);
      AppendKeepsRowsInv(s.rows, NewRow(record));
    }
    CreateHoldGrows(s.rows, record);
    CallersKeepInv(s, rows');
    GrantedIsBacked(s.rows, record, spendable);
    GrantedCallers(s, c, rows', DoInsert(s, c, record, spendable).callers[c]);
  }

  lemma GrantedCallers(s: State, c: CallerId, rows': seq<HoldRow>, pc: CallerPc)
    requires (forall d :: d in s.callers ==> CallerInv(rows', s.callers[d])) && CallerInv(rows', pc)
    ensures var callers' := s.callers[c := pc];
      forall d :: d in callers' ==> CallerInv(rows', callers'[d])
  {
  }

  lemma UpdateStep(s: State, rows': seq<HoldRow>)
    requires Inv(s) && TableGrows(s.rows, rows') && |rows'| == |s.rows|
    ensures Inv(s.(rows := rows'))
  {
    CallersKeepInv(s, rows');
    forall a: AccountId ensures ActiveSum(rows', a) <= GrossOf(s, a) {
      ActiveSumShrinks(s.rows, rows', a);
    }
    forall i | 0 <= i < |rows'|
      ensures rows'[i].holdId == s.rows[i].holdId && rows'[i].requestId == s.rows[i].requestId
           && rows'[i].amountZat == s.rows[i].amountZat && rows'[i].lockedNotes == s.rows[i].lockedNotes
           && (Active(rows'[i]) ==> Active(s.rows[i]))
    {
      assert RowGrows(s.rows[i], rows'[i]);
    }
  }

  lemma SetPcStep(s: State, c: CallerId, pc: CallerPc)
    requires Inv(s) && CallerInv(s.rows, pc)
    ensures Inv(SetPc(s, c, pc)) && TableGrows(s.rows, SetPc(s, c, pc).rows)
  {
  }

  lemma LookupStep(s: State, c: CallerId, plan: Plan, at: Option<nat>)
    requires Inv(s) && plan.amountZat > 0 && (at.Some? ==> at.value < |s.rows|)
    ensures Inv(DoLookup(s, c, plan, at)) && TableGrows(s.rows, DoLookup(s, c, plan, at).rows)
  {
    if at.Some? {
      assert RowGrows(s.rows[at.value], s.rows[at.value]);
    }
    SetPcStep(s, c, DoLookup(s, c, plan, at).callers[c]);
  }

  lemma ReadReservedStep(s: State, c: CallerId, plan: Plan, notes: seq<HeldNote>, holdId: HoldId, nowMs: nat)
    requires Inv(s) && CallerInv(s.rows, Summing(plan, notes))
    ensures var s' := DoReadReserved(s, c, plan, notes, holdId, nowMs); Inv(s') && TableGrows(s.rows, s'.rows)
  {
    SelectionIsShort(notes, plan.amountZat);
    SetPcStep(s, c, DoReadReserved(s, c, plan, notes, holdId, nowMs).callers[c]);
  }

  lemma ReadReservedPriorStep(s: State, c: CallerId, a: AccountId, prior: HoldRow, notes: seq<HeldNote>)
    requires Inv(s) && CallerInv(s.rows, SummingPrior(a, prior, notes))
    ensures var s' := DoReadReservedPrior(s, c, a, prior, notes); Inv(s') && TableGrows(s.rows, s'.rows)
  {
    var i :| 0 <= i < |s.rows| && RowGrows(prior, s.rows[i]);
    var pc := DoReadReservedPrior(s, c, a, prior, notes).callers[c];
    if pc.result.Ok? {
      HoldSummary(prior.holdId, prior.requestId, prior.idempotencyKey, prior.amountZat,
                  Decoded(prior.lockedNotes).value, pc.result.value.availableAfterReleaseZat);
      assert BackedBy(s.rows[i], pc.result.value);
    }
    SetPcStep(s, c, pc);
  }

  lemma CallerStep(s: State, e: Event)
    requires Inv(s) && Enabled(s, e) && !e.Insert? && !e.ReleaseRow? && !e.FinalizeRow?
    ensures Inv(Step(s, e)) && TableGrows(s.rows, Step(s, e).rows)
  {
    match e
    case Reserve(c, plan) => SetPcStep(s, c, Step(s, e).callers[c]);
    case Lookup(c, at) => LookupStep(s, c, s.callers[c].plan, at);
    case ListNotes(c, notes) => SetPcStep(s, c, Step(s, e).callers[c]);
    case ReadReserved(c, holdId, nowMs) =>
      match s.callers[c] {
        case Summing(plan, notes) => ReadReservedStep(s, c, plan, notes, holdId, nowMs);
        case SummingPrior(a, prior, notes) => ReadReservedPriorStep(s, c, a, prior, notes);
      }
    case StorageFails(c) => SetPcStep(s, c, Step(s, e).callers[c]);
  }

  lemma StepKeepsInv(s: State, e: Event)
    requires Inv(s)
    ensures Inv(Step(s, e)) && TableGrows(s.rows, Step(s, e).rows)
  {
    if Enabled(s, e) {
      match e
      case Insert(c) =>
        InsertStep(s, c, s.callers[c].record, s.callers[c].spendable);
        CreateHoldGrows(s.rows, s.callers[c].record);
      case ReleaseRow(id, ms) =>
        ReleaseHoldGrows(s.rows, id, ms);
        UpdateStep(s, ReleaseHold(s.rows, id, ms).0);
      case FinalizeRow(id, tx) =>
        FinalizeHoldGrows(s.rows, id, tx);
        UpdateStep(s, FinalizeHold(s.rows, id, tx).0);
      case _ => CallerStep(s, e);
    }
  }

  // The recorded figure of an account changes only when an insert for it is granted, to the
  // figure that insert was checked against.
  lemma GrossFollowsInserts(s: State, e: Event, a: AccountId)
    ensures Enabled(s, e) && e.Insert? ==>
      var record := s.callers[e.c].record;
      GrossOf(Step(s, e), a)
        == if record.accountId == a && CreateHold(s.rows, record).1.Ok? then record.spendableForCheckZat
           else GrossOf(s, a)
    ensures !(Enabled(s, e) && e.Insert?) ==> GrossOf(Step(s, e), a) == GrossOf(s, a)
  {
  }

  lemma {:induction false} RunFromInv(s: State, events: seq<Event>)
    requires Inv(s)
    ensures Inv(RunFrom(s, events)) && TableGrows(s.rows, RunFrom(s, events).rows)
  {
    if events != [] {
      var before := RunFrom(s, events[..|events| - 1]);
      RunFromInv(s, events[..|events| - 1]);
      StepKeepsInv(before, events[|events| - 1]);
      var after := RunFrom(s, events);
      forall i | 0 <= i < |s.rows| ensures RowGrows(s.rows[i], after.rows[i]) {
        assert RowGrows(s.rows[i], before.rows[i]) && RowGrows(before.rows[i], after.rows[i]);
      }
    }
  }

  lemma RunInv(events: seq<Event>)
    ensures Inv(Run(events))
  {
    assert Inv(Init());
    RunFromInv(Init(), events);
  }
}
