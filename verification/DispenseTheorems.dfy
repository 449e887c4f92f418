// What dispense holds guarantee in every run, and where the reservation contract ends.
module DispenseTheorems {
  import opened Prelude
  import opened LockedNotes
  import opened NoteSelection
  import opened HoldStore
  import opened DispenseProtocol

  // However stale the callers' pre-checks, an account's active holds never exceed the
  // gross spendable figure of its latest successful insert.
  lemma NoOverReservation(events: seq<Event>, a: AccountId)
    ensures ActiveSum(Run(events).rows, a) <= GrossOf(Run(events), a)
    ensures CheckedActiveSum(Run(events).rows, a).Ok?
  {
    RunInv(events);
  }

  // Hence two holds that are active together fit under that figure together.
  lemma ActiveHoldsFitTogether(events: seq<Event>, i: nat, j: nat)
    requires i < j < |Run(events).rows|
    requires var rows := Run(events).rows;
      Active(rows[i]) && Active(rows[j]) && rows[i].accountId == rows[j].accountId
    ensures var s := Run(events);
      s.rows[i].amountZat + s.rows[j].amountZat <= GrossOf(s, s.rows[i].accountId)
  {
    RunInv(events);
    ActivePairBound(Run(events).rows, Run(events).rows[i].accountId, i, j);
  }

  lemma OneActiveRowPerRequest(events: seq<Event>, i: nat, j: nat)
    requires i < j < |Run(events).rows|
    requires Run(events).rows[i].requestId == Run(events).rows[j].requestId
    ensures !Active(Run(events).rows[i])
  {
    RunInv(events);
  }

  // Rows are never removed, a stamp is written at most once, and an inactive row stays
  // inactive, whatever happens next.
  lemma StampsWrittenOnce(events: seq<Event>, more: seq<Event>)
    ensures TableGrows(Run(events).rows, RunFrom(Run(events), more).rows)
  {
    RunInv(events);
    RunFromInv(Run(events), more);
  }

  // Every hold a caller was granted is a row with its id, keys and amount.
  lemma GrantedHoldIsStored(events: seq<Event>, c: CallerId, h: Hold)
    requires c in Run(events).callers && Run(events).callers[c] == Done(Ok(h))
    ensures Backed(Run(events).rows, h)
  {
    RunInv(events);
  }

  // ---- idempotent reservation ----

  // The newest-row lookup is sure to answer with row k.
  ghost predicate LookupMustReturn(rows: seq<HoldRow>, k: nat)
    requires k < |rows|
  {
    forall i :: Newest(rows, rows[k].requestId, i) ==> i == k
  }

  ghost predicate StrictlyNewest(rows: seq<HoldRow>, k: nat)
    requires k < |rows|
  {
    forall j :: 0 <= j < |rows| && j != k && rows[j].requestId == rows[k].requestId ==>
      rows[j].reservedAtMs < rows[k].reservedAtMs
  }

  lemma {:induction false} SomeNewest(rows: seq<HoldRow>, n: nat, k: nat) returns (i: nat)
    requires k < n <= |rows|
    ensures i < n && rows[i].requestId == rows[k].requestId && rows[k].reservedAtMs <= rows[i].reservedAtMs
    ensures forall j :: 0 <= j < n && rows[j].requestId == rows[k].requestId ==>
      rows[j].reservedAtMs <= rows[i].reservedAtMs
  {
    if n - 1 == k {
      if j :| 0 <= j < k && rows[j].requestId == rows[k].requestId {
        i := SomeNewest(rows, k, j);
        if rows[i].reservedAtMs <= rows[k].reservedAtMs {
          i := k;
        }
      } else {
        i := k;
      }
    } else {
      i := SomeNewest(rows, n - 1, k);
      if rows[n - 1].requestId == rows[k].requestId && rows[i].reservedAtMs < rows[n - 1].reservedAtMs {
        i := n - 1;
      }
    }
  }

  // The lookup is sure to find an active hold exactly when its timestamp exceeds that of
  // every other row of the request.
  lemma LookupFindsActive(rows: seq<HoldRow>, k: nat)
    requires k < |rows| && Active(rows[k])
    ensures LookupMustReturn(rows, k) <==> StrictlyNewest(rows, k)
  {
    if LookupMustReturn(rows, k) && !StrictlyNewest(rows, k) {
      var i := SomeNewest(rows, |rows|, k);
      assert Newest(rows, rows[k].requestId, i);
      var j :| 0 <= j < |rows| && j != k && rows[j].requestId == rows[k].requestId
        && rows[k].reservedAtMs <= rows[j].reservedAtMs;
      assert Newest(rows, rows[k].requestId, j);
    }
  }

  // Timestamps that increase from one row of the request to the next put the active row,
  // which is the last one, strictly newest.
  lemma IncreasingTimestampsSuffice(events: seq<Event>, k: nat)
    requires k < |Run(events).rows| && Active(Run(events).rows[k])
    requires var rows := Run(events).rows;
      forall i, j :: 0 <= i < j < |rows| && rows[i].requestId == rows[j].requestId == rows[k].requestId ==>
        rows[i].reservedAtMs < rows[j].reservedAtMs
    ensures StrictlyNewest(Run(events).rows, k)
  {
    RunInv(events);
  }

  // The first four steps of a call, with nothing in between: everything but the insert.
  function Prepared(s: State, c: CallerId, plan: Plan, at: Option<nat>, notes: seq<HeldNote>, holdId: HoldId,
                    nowMs: nat): State {
    Step(Step(Step(Step(s, Reserve(c, plan)), Lookup(c, at)), ListNotes(c, notes)), ReadReserved(c, holdId, nowMs))
  }

  // One reserve_for_dispense call run from start to end.
  function Undisturbed(s: State, c: CallerId, plan: Plan, at: Option<nat>, notes: seq<HeldNote>,
                       holdId: HoldId, nowMs: nat): State {
    Step(Prepared(s, c, plan, at, notes, holdId, nowMs), Insert(c))
  }

  ghost predicate MayCall(s: State, c: CallerId, plan: Plan, at: Option<nat>, notes: seq<HeldNote>) {
    && Inv(s) && c !in s.callers && plan.amountZat > 0
    && LookupAnswer(s.rows, plan.requestId, at) && |notes| <= U32_MAX
  }

  lemma SetPcTwice(s: State, c: CallerId, pc: CallerPc, pc': CallerPc)
    ensures SetPc(SetPc(s, c, pc), c, pc') == SetPc(s, c, pc')
  {
    assert s.callers[c := pc][c := pc'] == s.callers[c := pc'];
  }

  // Starting a call and looking its request up.
  lemma LookedUp(s: State, c: CallerId, plan: Plan, at: Option<nat>)
    requires MayCall(s, c, plan, at, [])
    ensures Step(Step(s, Reserve(c, plan)), Lookup(c, at))
         == SetPc(s, c, if at.Some? && Active(s.rows[at.value]) then ListingPrior(plan.accountId, s.rows[at.value])
                        else Listing(plan))
  {
    var s1 := SetPc(s, c, Looking(plan));
    assert Step(s, Reserve(c, plan)) == s1;
    assert Step(s1, Lookup(c, at)) == DoLookup(s1, c, plan, at);
    SetPcTwice(s, c, Looking(plan), DoLookup(s1, c, plan, at).callers[c]);
  }

  lemma PreparedOnActive(s: State, c: CallerId, plan: Plan, k: nat, notes: seq<HeldNote>, holdId: HoldId, nowMs: nat)
    requires MayCall(s, c, plan, Some(k), notes) && Active(s.rows[k])
    ensures Prepared(s, c, plan, Some(k), notes, holdId, nowMs)
         == DoReadReservedPrior(s, c, plan.accountId, s.rows[k], notes)
  {
    LookedUp(s, c, plan, Some(k));
    var listing := ListingPrior(plan.accountId, s.rows[k]);
    var summing := SummingPrior(plan.accountId, s.rows[k], notes);
    assert Step(SetPc(s, c, listing), ListNotes(c, notes)) == SetPc(SetPc(s, c, listing), c, summing);
    SetPcTwice(s, c, listing, summing);
    SetPcTwice(s, c, summing, DoReadReservedPrior(s, c, plan.accountId, s.rows[k], notes).callers[c]);
  }

  lemma PreparedWithoutActive(s: State, c: CallerId, plan: Plan, at: Option<nat>, notes: seq<HeldNote>,
                              holdId: HoldId, nowMs: nat)
    requires MayCall(s, c, plan, at, notes) && (at.Some? ==> !Active(s.rows[at.value]))
    ensures Prepared(s, c, plan, at, notes, holdId, nowMs) == DoReadReserved(s, c, plan, notes, holdId, nowMs)
  {
    LookedUp(s, c, plan, at);
    var listing, summing := Listing(plan), Summing(plan, notes);
    assert Step(SetPc(s, c, listing), ListNotes(c, notes)) == SetPc(SetPc(s, c, listing), c, summing);
    SetPcTwice(s, c, listing, summing);
    SetPcTwice(s, c, summing, DoReadReserved(s, c, plan, notes, holdId, nowMs).callers[c]);
  }

  // When the lookup answers with an active hold, the call returns that hold and writes
  // nothing.
  lemma CallOnActiveHold(s: State, c: CallerId, plan: Plan, k: nat, notes: seq<HeldNote>, holdId: HoldId, nowMs: nat)
    requires MayCall(s, c, plan, Some(k), notes) && Active(s.rows[k])
    ensures var prior := s.rows[k];
      Undisturbed(s, c, plan, Some(k), notes, holdId, nowMs)
      == SetPc(s, c, Done(Ok(HoldOf(prior.holdId, prior.requestId, prior.idempotencyKey, prior.amountZat,
           Decoded(prior.lockedNotes).value,
           ComputeAvailableAfterRelease(notes, ActiveSum(s.rows, plan.accountId), prior.amountZat)))))
  {
    PreparedOnActive(s, c, plan, k, notes, holdId, nowMs);
    assert ActiveSum(s.rows, plan.accountId) <= GrossOf(s, plan.accountId);
  }

  function RecordFor(plan: Plan, notes: seq<HeldNote>, holdId: HoldId, nowMs: nat): HoldRecord {
    HoldRecord(holdId, plan.requestId, plan.idempotencyKey, plan.accountId, plan.amountZat,
               ZatoshisOrZero(SaturatingSum(notes)), Selection(notes, plan.amountZat), nowMs)
  }

  // When it answers with nothing active, the call goes on to insert if and only if the
  // amount is within the spendable view.
  lemma CallWithoutHold(s: State, c: CallerId, plan: Plan, at: Option<nat>, notes: seq<HeldNote>,
                        holdId: HoldId, nowMs: nat)
    requires MayCall(s, c, plan, at, notes) && (at.Some? ==> !Active(s.rows[at.value]))
    ensures ActiveSum(s.rows, plan.accountId) <= MAX_MONEY
    ensures var spendable := SpendableForNextDispense(notes, ActiveSum(s.rows, plan.accountId));
      Undisturbed(s, c, plan, at, notes, holdId, nowMs)
      == if plan.amountZat > spendable then SetPc(s, c, Done(Err(InsufficientBalance(plan.amountZat, spendable))))
         else DoInsert(s, c, RecordFor(plan, notes, holdId, nowMs), spendable)
  {
    PreparedWithoutActive(s, c, plan, at, notes, holdId, nowMs);
    assert ActiveSum(s.rows, plan.accountId) <= GrossOf(s, plan.accountId);
    ReadThenInsert(s, c, plan, notes, holdId, nowMs);
  }

  lemma ReadThenInsert(s: State, c: CallerId, plan: Plan, notes: seq<HeldNote>, holdId: HoldId, nowMs: nat)
    requires ActiveSum(s.rows, plan.accountId) <= MAX_MONEY
    ensures var spendable := SpendableForNextDispense(notes, ActiveSum(s.rows, plan.accountId));
      Step(DoReadReserved(s, c, plan, notes, holdId, nowMs), Insert(c))
      == if plan.amountZat > spendable then SetPc(s, c, Done(Err(InsufficientBalance(plan.amountZat, spendable))))
         else DoInsert(s, c, RecordFor(plan, notes, holdId, nowMs), spendable)
  {
    var spendable := SpendableForNextDispense(notes, ActiveSum(s.rows, plan.accountId));
    if plan.amountZat <= spendable {
      var record := RecordFor(plan, notes, holdId, nowMs);
      InsertOverwritesPc(s, c, Inserting(record, spendable), record, spendable);
    }
  }

  lemma InsertOverwritesPc(s: State, c: CallerId, pc: CallerPc, record: HoldRecord, spendable: Zatoshis)
    ensures DoInsert(SetPc(s, c, pc), c, record, spendable) == DoInsert(s, c, record, spendable)
  {
    SetPcTwice(s, c, pc, DoInsert(s, c, record, spendable).callers[c]);
  }

  // The reservation contract for undisturbed calls: with no hold active for the request
  // and a fresh hold id, an amount within the spendable view is granted if and only if the
  // notes sum to at most MAX_MONEY. The caller is told the view it reserved from.
  lemma UndisturbedReservation(s: State, c: CallerId, plan: Plan, at: Option<nat>, notes: seq<HeldNote>,
                               holdId: HoldId, nowMs: nat)
    requires MayCall(s, c, plan, at, notes)
    requires !HasActiveRequest(s.rows, plan.requestId) && !HasId(s.rows, holdId)
    requires ActiveSum(s.rows, plan.accountId) <= MAX_MONEY
    requires plan.amountZat <= SpendableForNextDispense(notes, ActiveSum(s.rows, plan.accountId))
    ensures var s' := Undisturbed(s, c, plan, at, notes, holdId, nowMs);
      && s'.callers.Keys == s.callers.Keys + {c} && s'.callers[c].Done?
      && (s'.callers[c].result.Ok? <==> SaturatingSum(notes) <= MAX_MONEY)
      && (s'.callers[c].result.Ok? ==>
            && s'.rows == s.rows + [NewRow(RecordFor(plan, notes, holdId, nowMs))]
            && s'.callers[c].result.value.availableAfterReleaseZat
                 == SpendableForNextDispense(notes, ActiveSum(s.rows, plan.accountId)))
      && (s'.callers[c].result.Err? ==> s'.rows == s.rows)
  {
    CallWithoutHold(s, c, plan, at, notes, holdId, nowMs);
    InsertGrants(s, c, RecordFor(plan, notes, holdId, nowMs),
                 SpendableForNextDispense(notes, ActiveSum(s.rows, plan.accountId)));
  }

  lemma InsertGrants(s: State, c: CallerId, record: HoldRecord, spendable: Zatoshis)
    requires ActiveSum(s.rows, record.accountId) <= MAX_MONEY
    requires !HasActiveRequest(s.rows, record.requestId) && !HasId(s.rows, record.holdId)
    ensures var s' := DoInsert(s, c, record, spendable);
      && s'.callers.Keys == s.callers.Keys + {c} && s'.callers[c].Done?
      && (s'.callers[c].result.Ok? <==>
            ActiveSum(s.rows, record.accountId) + record.amountZat <= record.spendableForCheckZat)
      && (s'.callers[c].result.Ok? ==>
            s'.rows == s.rows + [NewRow(record)] && s'.callers[c].result.value.availableAfterReleaseZat == spendable)
      && (s'.callers[c].result.Err? ==> s'.rows == s.rows)
  {
    CreateDecision(s.rows, record);
  }

  // What decides an insert, in the order it is decided.
  lemma CreateDecision(rows: seq<HoldRow>, record: HoldRecord)
    requires ActiveSum(rows, record.accountId) <= MAX_MONEY
    ensures var r := CreateHold(rows, record).1;
      var fits := ActiveSum(rows, record.accountId) + record.amountZat <= record.spendableForCheckZat;
      && (r == Err(HoldRequestConflict) <==> HasActiveRequest(rows, record.requestId))
      && (r.Err? && r.error.InsufficientFunds? <==> !HasActiveRequest(rows, record.requestId) && !fits)
      && (r.Ok? <==> !HasActiveRequest(rows, record.requestId) && fits && !HasId(rows, record.holdId))
  {
  }

  lemma ReleasingNewHoldRestores(rows: seq<HoldRow>, record: HoldRecord, ms: nat)
    requires UniqueIds(rows) && CreateHold(rows, record).1.Ok?
    ensures ActiveSum(ReleaseHold(CreateHold(rows, record).0, record.holdId, ms).0, record.accountId)
         == ActiveSum(rows, record.accountId)
  {
    var rows', k := CreateHold(rows, record).0, |rows|;
    ActiveSumSnoc(rows, rows'[k], record.accountId);
    assert rows'[k] == NewRow(record) && UniqueIds(rows');
    ReleaseFreesAmount(rows', k, record.accountId, ms);
  }

  // A repeated call is answered with the active hold whenever that hold is strictly
  // newest ...
  lemma RepeatReturnsPriorHold(s: State, c: CallerId, plan: Plan, k: nat, at: Option<nat>,
                               notes: seq<HeldNote>, holdId: HoldId, nowMs: nat)
    requires MayCall(s, c, plan, at, notes)
    requires k < |s.rows| && Active(s.rows[k]) && plan.requestId == s.rows[k].requestId
    requires StrictlyNewest(s.rows, k)
    ensures var s' := Undisturbed(s, c, plan, at, notes, holdId, nowMs);
      && s'.rows == s.rows
      && c in s'.callers && s'.callers[c].Done? && s'.callers[c].result.Ok?
      && s'.callers[c].result.value.holdId == s.rows[k].holdId
  {
    LookupFindsActive(s.rows, k);
    assert at == Some(k);
    CallOnActiveHold(s, c, plan, k, notes, holdId, nowMs);
  }

  // ... and otherwise some lookup answer makes the same call fail, although its prior
  // reservation is active and the documentation promises to return it.
  lemma RepeatFailsOtherwise(s: State, c: CallerId, plan: Plan, k: nat, notes: seq<HeldNote>, holdId: HoldId,
                             nowMs: nat)
    returns (at: Option<nat>)
    requires Inv(s) && c !in s.callers && plan.amountZat > 0 && |notes| <= U32_MAX
    requires k < |s.rows| && Active(s.rows[k]) && plan.requestId == s.rows[k].requestId
    requires !StrictlyNewest(s.rows, k)
    ensures LookupAnswer(s.rows, plan.requestId, at)
    ensures var s' := Undisturbed(s, c, plan, at, notes, holdId, nowMs);
      s'.rows == s.rows && c in s'.callers && s'.callers[c].Done? && s'.callers[c].result.Err?
  {
    LookupFindsActive(s.rows, k);
    var i: nat :| Newest(s.rows, plan.requestId, i) && i != k;
    at := Some(i);
    OtherRowsInactive(s.rows, i, k);
    CallWithoutHold(s, c, plan, at, notes, holdId, nowMs);
    assert HasActiveRequest(s.rows, plan.requestId);
  }

  lemma OtherRowsInactive(rows: seq<HoldRow>, i: nat, k: nat)
    requires SupersededInactive(rows) && i < |rows| && k < |rows| && i != k
    requires rows[i].requestId == rows[k].requestId && Active(rows[k])
    ensures !Active(rows[i])
  {
  }

  lemma PreparedInv(s: State, c: CallerId, plan: Plan, at: Option<nat>, notes: seq<HeldNote>, holdId: HoldId,
                    nowMs: nat)
    requires Inv(s)
    ensures Inv(Prepared(s, c, plan, at, notes, holdId, nowMs))
  {
    StepKeepsInv(s, Reserve(c, plan));
    var s1 := Step(s, Reserve(c, plan));
    StepKeepsInv(s1, Lookup(c, at));
    var s2 := Step(s1, Lookup(c, at));
    StepKeepsInv(s2, ListNotes(c, notes));
    StepKeepsInv(Step(s2, ListNotes(c, notes)), ReadReserved(c, holdId, nowMs));
  }

  lemma UndisturbedInv(s: State, c: CallerId, plan: Plan, at: Option<nat>, notes: seq<HeldNote>,
                       holdId: HoldId, nowMs: nat)
    requires Inv(s)
    ensures Inv(Undisturbed(s, c, plan, at, notes, holdId, nowMs))
  {
    PreparedInv(s, c, plan, at, notes, holdId, nowMs);
    StepKeepsInv(Prepared(s, c, plan, at, notes, holdId, nowMs), Insert(c));
  }

  // ---- the figure reported for an existing hold ----

  // For a repeat that names account a, the reported available_after_release_zat equals
  // a's spendable view right after releasing the hold exactly when the hold is on a and
  // a's notes cover its active holds, exceeding them by at most MAX_MONEY.
  lemma AvailableAfterRelease(rows: seq<HoldRow>, k: nat, a: AccountId, notes: seq<HeldNote>, ms: nat)
    requires k < |rows| && Active(rows[k]) && rows[k].amountZat > 0 && UniqueIds(rows)
    requires ActiveSum(rows, a) <= MAX_MONEY
    ensures ActiveSum(ReleaseHold(rows, rows[k].holdId, ms).0, a) <= MAX_MONEY
    ensures var gross, reserved := SaturatingSum(notes), ActiveSum(rows, a);
      ComputeAvailableAfterRelease(notes, reserved, rows[k].amountZat)
        == SpendableForNextDispense(notes, ActiveSum(ReleaseHold(rows, rows[k].holdId, ms).0, a))
      <==> rows[k].accountId == a && reserved <= gross <= reserved + MAX_MONEY
  {
    ReleaseFreesAmount(rows, k, a, ms);
    if rows[k].accountId == a {
      ActiveMemberBound(rows, a, k);
    }
  }
}
