// One reservation call among any others: what each of its steps decides, and what it may
// answer however the run goes on.
module DispenseInterleaving {
  import opened Prelude
  import opened LockedNotes
  import opened NoteSelection
  import opened HoldStore
  import opened DispenseProtocol
  import opened DispenseTheorems

  // ---- what a step decides, in whatever state it runs ----

  // A call for nothing is rejected at once, and any other goes on to its look-up.
  lemma ReserveDecides(s: State, c: CallerId, plan: Plan)
    requires c !in s.callers
    ensures Step(s, Reserve(c, plan))
         == SetPc(s, c, if plan.amountZat == 0 then Done(Err(ProposalRejected)) else Looking(plan))
  {
  }

  // The spendable view is what the notes hold beyond the active reservations: zero if they
  // hold less, and zero again if the rest is no amount of money.
  lemma SpendableIs(notes: seq<HeldNote>, reserved: U64)
    requires Sum(notes) <= U64_MAX
    ensures var rest := Sum(notes) - reserved;
      SpendableForNextDispense(notes, reserved) == if 0 <= rest <= MAX_MONEY then rest else 0
  {
    SaturatingSumIs(notes);
  }

  // The look-up sends the call on to the hold it found if and only if that hold is active.
  lemma LookupDecides(s: State, c: CallerId, at: Option<nat>)
    requires Inv(s) && Enabled(s, Lookup(c, at))
    ensures var plan := s.callers[c].plan;
      Step(s, Lookup(c, at))
      == SetPc(s, c, if at.Some? && Active(s.rows[at.value]) then ListingPrior(plan.accountId, s.rows[at.value])
                     else Listing(plan))
  {
  }

  // The pre-check passes if and only if the amount is within the view of that moment.
  lemma ReadDecides(s: State, c: CallerId, holdId: HoldId, nowMs: nat)
    requires Inv(s) && c in s.callers && s.callers[c].Summing?
    ensures var plan, notes := s.callers[c].plan, s.callers[c].notes;
      && ActiveSum(s.rows, plan.accountId) <= MAX_MONEY
      && var spendable := SpendableForNextDispense(notes, ActiveSum(s.rows, plan.accountId));
         Step(s, ReadReserved(c, holdId, nowMs))
         == SetPc(s, c, if plan.amountZat <= spendable then Inserting(RecordFor(plan, notes, holdId, nowMs), spendable)
                        else Done(Err(InsufficientBalance(plan.amountZat, spendable))))
  {
    var a := s.callers[c].plan.accountId;
    assert ActiveSum(s.rows, a) <= GrossOf(s, a);
  }

  // What a call brings to its insert: its plan, the gross figure, and notes of its listing
  // that cover the amount, as few as possible.
  lemma RecordBrought(s: State, c: CallerId, holdId: HoldId, nowMs: nat)
    requires Inv(s) && c in s.callers && s.callers[c].Summing?
    requires Step(s, ReadReserved(c, holdId, nowMs)).callers[c].Inserting?
    ensures var plan, notes := s.callers[c].plan, s.callers[c].notes;
      var record := Step(s, ReadReserved(c, holdId, nowMs)).callers[c].record;
      && record.holdId == holdId && record.reservedAtMs == nowMs && PlanOf(record) == plan
      && record.spendableForCheckZat == (if Sum(notes) <= MAX_MONEY then Sum(notes) else 0)
      && multiset(record.lockedNotes) <= multiset(notes) && Sum(record.lockedNotes) >= plan.amountZat
      && forall pick: seq<HeldNote> :: multiset(pick) <= multiset(notes) && Sum(pick) >= plan.amountZat ==>
           |record.lockedNotes| <= |pick|
  {
    var plan, notes := s.callers[c].plan, s.callers[c].notes;
    ReadDecides(s, c, holdId, nowMs);
    SaturatingSumIs(notes);
    SelectionCovers(notes, plan.amountZat);
    forall pick: seq<HeldNote> | multiset(pick) <= multiset(notes) && Sum(pick) >= plan.amountZat
      ensures |Selection(notes, plan.amountZat)| <= |pick|
    {
      SelectionMinimal(notes, plan.amountZat, pick);
    }
  }

  // The insert is refused as a conflict if and only if some row of its request is active
  // at that moment, and for want of funds if and only if none is and the active sum of
  // that moment leaves too little of the figure the call brought along.
  lemma InsertDecides(s: State, c: CallerId)
    requires Inv(s) && c in s.callers && s.callers[c].Inserting?
    ensures var record, s' := s.callers[c].record, Step(s, Insert(c));
      var fits := ActiveSum(s.rows, record.accountId) + record.amountZat <= record.spendableForCheckZat;
      && s'.callers.Keys == s.callers.Keys && s'.callers[c].Done?
      && var r := s'.callers[c].result;
         && (r == Err(Storage(HoldRequestConflict)) <==> HasActiveRequest(s.rows, record.requestId))
         && (r.Err? && r.error.Storage? && r.error.error.InsufficientFunds?
             <==> !HasActiveRequest(s.rows, record.requestId) && !fits)
         && (r.Ok? <==> !HasActiveRequest(s.rows, record.requestId) && fits && !HasId(s.rows, record.holdId))
         && s'.rows == if r.Ok? then s.rows + [NewRow(record)] else s.rows
  {
    var record := s.callers[c].record;
    assert ActiveSum(s.rows, record.accountId) <= GrossOf(s, record.accountId);
    CreateDecision(s.rows, record);
  }

  // ---- after a look-up that found an active hold ----

  // The call is on its way to answering with `prior`, or has answered with it, or met a
  // storage failure.
  ghost predicate OnPrior(pc: CallerPc, a: AccountId, prior: HoldRow) {
    match pc
    case ListingPrior(b, p) => b == a && p == prior
    case SummingPrior(b, p, _) => b == a && p == prior
    case Done(Ok(h)) =>
      && h.holdId == prior.holdId && h.requestId == prior.requestId
      && h.idempotencyKey == prior.idempotencyKey && h.amountZat == prior.amountZat
    case Done(Err(e)) => e == Storage(SqliteFailed)
    case _ => false
  }

  // The call an event is a step of.
  function CallerOf(e: Event): Option<CallerId> {
    match e
    case ReleaseRow(_, _) => None
    case FinalizeRow(_, _) => None
    case _ => Some(e.c)
  }

  lemma OthersLeaveCaller(s: State, e: Event, c: CallerId)
    requires c in s.callers && CallerOf(e) != Some(c)
    ensures c in Step(s, e).callers && Step(s, e).callers[c] == s.callers[c]
  {
  }

  lemma OnPriorStep(s: State, e: Event, c: CallerId, a: AccountId, prior: HoldRow)
    requires Inv(s) && c in s.callers && OnPrior(s.callers[c], a, prior)
    ensures c in Step(s, e).callers && OnPrior(Step(s, e).callers[c], a, prior)
  {
    if CallerOf(e) != Some(c) {
      OthersLeaveCaller(s, e, c);
    } else if Enabled(s, e) && e.ReadReserved? {
      PriorAnswered(s, c, a, prior, s.callers[c].notes);
    }
  }

  lemma PriorAnswered(s: State, c: CallerId, a: AccountId, prior: HoldRow, notes: seq<HeldNote>)
    requires Inv(s) && CallerInv(s.rows, SummingPrior(a, prior, notes))
    ensures OnPrior(DoReadReservedPrior(s, c, a, prior, notes).callers[c], a, prior)
  {
    var i :| 0 <= i < |s.rows| && RowGrows(prior, s.rows[i]);
    assert Decoded(prior.lockedNotes).Ok?;
    assert ActiveSum(s.rows, a) <= GrossOf(s, a);
  }

  // A call whose look-up found an active hold answers with that hold whatever the others
  // do, releasing or finalizing it included.
  lemma {:induction false} PriorHoldIsTheAnswer(s: State, more: seq<Event>, c: CallerId, a: AccountId, prior: HoldRow)
    requires Inv(s) && c in s.callers && OnPrior(s.callers[c], a, prior)
    ensures c in RunFrom(s, more).callers && OnPrior(RunFrom(s, more).callers[c], a, prior)
  {
    if more != [] {
      var front := more[..|more| - 1];
      PriorHoldIsTheAnswer(s, front, c, a, prior);
      RunFromInv(s, front);
      OnPriorStep(RunFrom(s, front), more[|more| - 1], c, a, prior);
    }
  }

  // ---- after a look-up that found none ----

  // The call is on its way to a hold of its own, which is none of `before`, or failed.
  ghost predicate OnNewHold(pc: CallerPc, plan: Plan, before: seq<HoldRow>) {
    match pc
    case Listing(p) => p == plan
    case Summing(p, _) => p == plan
    case Inserting(record, _) => PlanOf(record) == plan
    case Done(Ok(h)) =>
      && h.requestId == plan.requestId && h.idempotencyKey == plan.idempotencyKey && h.amountZat == plan.amountZat
      && !HasId(before, h.holdId)
    case Done(Err(e)) => e.InsufficientBalance? || e.Storage?
    case _ => false
  }

  function PlanOf(record: HoldRecord): Plan {
    Plan(record.accountId, record.amountZat, record.requestId, record.idempotencyKey)
  }

  lemma IdsStay(before: seq<HoldRow>, rows: seq<HoldRow>, id: HoldId)
    requires TableGrows(before, rows) && !HasId(rows, id)
    ensures !HasId(before, id)
  {
    forall i | 0 <= i < |before| ensures before[i].holdId != id {
      assert RowGrows(before[i], rows[i]);
    }
  }

  lemma NewHoldInserted(s: State, c: CallerId, plan: Plan, before: seq<HoldRow>, record: HoldRecord,
                        spendable: Zatoshis)
    requires TableGrows(before, s.rows) && PlanOf(record) == plan
    ensures OnNewHold(DoInsert(s, c, record, spendable).callers[c], plan, before)
  {
    if CreateHold(s.rows, record).1.Ok? {
      IdsStay(before, s.rows, record.holdId);
    }
  }

  lemma OnNewHoldStep(s: State, e: Event, c: CallerId, plan: Plan, before: seq<HoldRow>)
    requires TableGrows(before, s.rows) && c in s.callers && OnNewHold(s.callers[c], plan, before)
    ensures c in Step(s, e).callers && OnNewHold(Step(s, e).callers[c], plan, before)
  {
    if Enabled(s, e) && e.Insert? && e.c == c {
      NewHoldInserted(s, c, plan, before, s.callers[c].record, s.callers[c].spendable);
    }
  }

  // A call whose look-up found nothing active never answers with a hold that was in the
  // table then, whatever the others do.
  lemma {:induction false} NewHoldIsTheAnswer(s: State, more: seq<Event>, c: CallerId, plan: Plan, before: seq<HoldRow>)
    requires Inv(s) && TableGrows(before, s.rows) && c in s.callers && OnNewHold(s.callers[c], plan, before)
    ensures c in RunFrom(s, more).callers && OnNewHold(RunFrom(s, more).callers[c], plan, before)
  {
    if more != [] {
      var front := more[..|more| - 1];
      NewHoldIsTheAnswer(s, front, c, plan, before);
      RunFromInv(s, front);
      var t := RunFrom(s, front);
      GrowsTwice(before, s.rows, t.rows);
      OnNewHoldStep(t, more[|more| - 1], c, plan, before);
    }
  }

  lemma GrowsTwice(a: seq<HoldRow>, b: seq<HoldRow>, c: seq<HoldRow>)
    requires TableGrows(a, b) && TableGrows(b, c)
    ensures TableGrows(a, c)
  {
    forall i | 0 <= i < |a| ensures RowGrows(a[i], c[i]) {
      assert RowGrows(a[i], b[i]) && RowGrows(b[i], c[i]);
    }
  }

  // ---- the idempotency promise, with its condition at the look-up ----

  // If the active hold of the request is strictly newest when the call looks it up, every
  // answer of the look-up and every continuation of the run has the call return that hold.
  lemma RepeatReturnsPriorInAnyRun(s: State, c: CallerId, k: nat, at: Option<nat>, more: seq<Event>)
    requires Inv(s) && Enabled(s, Lookup(c, at))
    requires k < |s.rows| && Active(s.rows[k]) && s.rows[k].requestId == s.callers[c].plan.requestId
    requires StrictlyNewest(s.rows, k)
    ensures var t := RunFrom(Step(s, Lookup(c, at)), more);
      c in t.callers && OnPrior(t.callers[c], s.callers[c].plan.accountId, s.rows[k])
  {
    LookupFindsActive(s.rows, k);
    assert at == Some(k);
    LookupDecides(s, c, at);
    StepKeepsInv(s, Lookup(c, at));
    PriorHoldIsTheAnswer(Step(s, Lookup(c, at)), more, c, s.callers[c].plan.accountId, s.rows[k]);
  }

  // If it is not, the look-up may answer with an inactive row, and then no continuation of
  // the run has the call return that hold.
  lemma RepeatMissesPriorInEveryRun(s: State, c: CallerId, k: nat) returns (at: Option<nat>)
    requires Inv(s) && c in s.callers && s.callers[c].Looking?
    requires k < |s.rows| && Active(s.rows[k]) && s.rows[k].requestId == s.callers[c].plan.requestId
    requires !StrictlyNewest(s.rows, k)
    ensures Enabled(s, Lookup(c, at))
    ensures forall more: seq<Event> ::
      var t := RunFrom(Step(s, Lookup(c, at)), more);
      c in t.callers && OnNewHold(t.callers[c], s.callers[c].plan, s.rows)
  {
    LookupFindsActive(s.rows, k);
    var i: nat :| Newest(s.rows, s.callers[c].plan.requestId, i) && i != k;
    at := Some(i);
    OtherRowsInactive(s.rows, i, k);
    LookupDecides(s, c, at);
    StepKeepsInv(s, Lookup(c, at));
    var s' := Step(s, Lookup(c, at));
    forall more: seq<Event>
      ensures var t := RunFrom(s', more); c in t.callers && OnNewHold(t.callers[c], s.callers[c].plan, s.rows)
    {
      NewHoldIsTheAnswer(s', more, c, s.callers[c].plan, s.rows);
    }
  }

  // Releases and finalizations are served in any state, and so is a storage failure of a call
  // that has not ended.
  lemma OthersAreServed(s: State, id: HoldId, ms: nat, tx: TxId, c: CallerId)
    ensures Step(s, ReleaseRow(id, ms)) == s.(rows := ReleaseHold(s.rows, id, ms).0)
    ensures Step(s, FinalizeRow(id, tx)) == s.(rows := FinalizeHold(s.rows, id, tx).0)
    ensures c in s.callers && !s.callers[c].Done? ==>
      Step(s, StorageFails(c)) == SetPc(s, c, Done(Err(Storage(SqliteFailed))))
  {
  }
}
