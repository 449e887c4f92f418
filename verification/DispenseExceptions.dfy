// Where the hold code departs from its documentation: the exact condition under which it
// does as documented, and a run that falls outside it.
module DispenseExceptions {
  import opened Prelude
  import opened LockedNotes
  import opened NoteSelection
  import opened HoldStore
  import opened DispenseProtocol
  import opened DispenseTheorems
  import opened DispenseInterleaving

  // ---- a repeat whose prior hold shares its millisecond with another row ----

  const REQUEST_ONE := Plan(0, 1, "request", "key")

  // Reserve one zatoshi of one note, then release the hold in the same millisecond.
  function ReservedAndReleased(note: HeldNote, nowMs: nat): State {
    Step(Undisturbed(Init(), 0, REQUEST_ONE, None, [note], 10, nowMs), ReleaseRow(10, nowMs))
  }

  lemma OneNoteCovers(note: HeldNote)
    requires note.valueZat > 0
    ensures SaturatingSum([note]) == note.valueZat && SpendableForNextDispense([note], 0) == note.valueZat
  {
    assert [note][..0] == [];
    assert Sum([note]) == note.valueZat;
    SaturatingSumIs([note]);
  }

  lemma AfterReserved(note: HeldNote, nowMs: nat)
    requires note.valueZat > 0
    ensures var s := Undisturbed(Init(), 0, REQUEST_ONE, None, [note], 10, nowMs);
      Inv(s) && s.callers.Keys == {0} && s.rows == [NewRow(RecordFor(REQUEST_ONE, [note], 10, nowMs))]
  {
    OneNoteCovers(note);
    assert Inv(Init());
    UndisturbedReservation(Init(), 0, REQUEST_ONE, None, [note], 10, nowMs);
    UndisturbedInv(Init(), 0, REQUEST_ONE, None, [note], 10, nowMs);
  }

  lemma SingleReleased(row: HoldRow, ms: nat)
    requires Active(row)
    ensures ReleaseHold([row], row.holdId, ms).0 == [row.(releasedAtMs := Some(ClampToI64(ms)))]
    ensures ActiveSum(ReleaseHold([row], row.holdId, ms).0, row.accountId) == 0
  {
    assert [row][0].holdId == row.holdId;
    var released := row.(releasedAtMs := Some(ClampToI64(ms)));
    ActiveSumSnoc([], released, row.accountId);
    assert [] + [released] == [released];
  }

  lemma ReleaseOnly(s: State, row: HoldRow, ms: nat)
    requires Inv(s) && s.rows == [row] && Active(row)
    ensures var s' := Step(s, ReleaseRow(row.holdId, ms));
      && Inv(s') && s'.callers == s.callers && ActiveSum(s'.rows, row.accountId) == 0
      && s'.rows == [row.(releasedAtMs := Some(ClampToI64(ms)))]
  {
    SingleReleased(row, ms);
    StepKeepsInv(s, ReleaseRow(row.holdId, ms));
  }

  lemma AfterReservedAndReleased(note: HeldNote, nowMs: nat)
    requires note.valueZat > 0
    ensures var s := ReservedAndReleased(note, nowMs);
      && Inv(s) && s.callers.Keys == {0} && ActiveSum(s.rows, 0) == 0
      && s.rows == [NewRow(RecordFor(REQUEST_ONE, [note], 10, nowMs)).(releasedAtMs := Some(ClampToI64(nowMs)))]
  {
    AfterReserved(note, nowMs);
    ReleaseOnly(Undisturbed(Init(), 0, REQUEST_ONE, None, [note], 10, nowMs),
                NewRow(RecordFor(REQUEST_ONE, [note], 10, nowMs)), nowMs);
  }

  // Reserving again within that millisecond reaches a state in which the active hold is
  // not strictly newest.
  lemma SameMillisecondReached(note: HeldNote, nowMs: nat)
    requires note.valueZat > 0
    ensures var s := Undisturbed(ReservedAndReleased(note, nowMs), 1, REQUEST_ONE, Some(0), [note], 11, nowMs);
      Inv(s) && |s.rows| == 2 && Active(s.rows[1]) && !StrictlyNewest(s.rows, 1)
  {
    AfterReservedAndReleased(note, nowMs);
    ReserveBehindInactive(ReservedAndReleased(note, nowMs), note, nowMs);
  }

  // A second reservation in the millisecond of an inactive row of its request.
  lemma ReserveBehindInactive(s: State, note: HeldNote, nowMs: nat)
    requires Inv(s) && 1 !in s.callers && note.valueZat > 0 && ActiveSum(s.rows, 0) == 0
    requires |s.rows| == 1 && !Active(s.rows[0]) && s.rows[0].holdId != 11
    requires s.rows[0].requestId == REQUEST_ONE.requestId && s.rows[0].reservedAtMs == ClampToI64(nowMs)
    ensures var s' := Undisturbed(s, 1, REQUEST_ONE, Some(0), [note], 11, nowMs);
      Inv(s') && |s'.rows| == 2 && Active(s'.rows[1]) && !StrictlyNewest(s'.rows, 1)
  {
    OneNoteCovers(note);
    UndisturbedReservation(s, 1, REQUEST_ONE, Some(0), [note], 11, nowMs);
    UndisturbedInv(s, 1, REQUEST_ONE, Some(0), [note], 11, nowMs);
    var rows := Undisturbed(s, 1, REQUEST_ONE, Some(0), [note], 11, nowMs).rows;
    assert rows[0] == s.rows[0] && rows[1] == NewRow(RecordFor(REQUEST_ONE, [note], 11, nowMs));
  }

  // ---- a repeat that overlaps the first call ----

  // Two calls with one request, both past their look-up before either inserts.
  function Overlapping(note: HeldNote, nowMs: nat): State {
    Prepared(Prepared(Init(), 0, REQUEST_ONE, None, [note], 10, nowMs), 1, REQUEST_ONE, None, [note], 11, nowMs)
  }

  lemma OneNotePrepared(s: State, c: CallerId, note: HeldNote, holdId: HoldId, nowMs: nat)
    requires Inv(s) && s.rows == [] && c !in s.callers && note.valueZat > 0
    ensures var s' := Prepared(s, c, REQUEST_ONE, None, [note], holdId, nowMs);
      && Inv(s')
      && s' == SetPc(s, c, Inserting(RecordFor(REQUEST_ONE, [note], holdId, nowMs), note.valueZat))
  {
    OneNoteCovers(note);
    PreparedInv(s, c, REQUEST_ONE, None, [note], holdId, nowMs);
    PreparedWithoutActive(s, c, REQUEST_ONE, None, [note], holdId, nowMs);
  }

  lemma OverlappingReached(note: HeldNote, nowMs: nat)
    requires note.valueZat > 0
    ensures var s := Overlapping(note, nowMs);
      && Inv(s) && s.rows == [] && s.callers.Keys == {0, 1}
      && s.callers[0] == Inserting(RecordFor(REQUEST_ONE, [note], 10, nowMs), note.valueZat)
      && s.callers[1] == Inserting(RecordFor(REQUEST_ONE, [note], 11, nowMs), note.valueZat)
  {
    assert Inv(Init());
    OneNotePrepared(Init(), 0, note, 10, nowMs);
    OneNotePrepared(Prepared(Init(), 0, REQUEST_ONE, None, [note], 10, nowMs), 1, note, 11, nowMs);
  }

  // Two inserts for one request into an empty table: the first is granted, the second meets
  // its row.
  lemma SecondInsertConflicts(s: State, first: HoldRecord, x: Zatoshis, second: HoldRecord, y: Zatoshis)
    requires s.rows == [] && s.callers.Keys == {0, 1}
    requires s.callers[0] == Inserting(first, x) && s.callers[1] == Inserting(second, y)
    requires first.requestId == second.requestId && first.amountZat <= first.spendableForCheckZat
    ensures var s' := Step(Step(s, Insert(0)), Insert(1));
      && s'.rows == [NewRow(first)]
      && 1 in s'.callers && s'.callers[1] == Done(Err(Storage(HoldRequestConflict)))
  {
    FirstInsertGranted(first);
    ConflictWith(NewRow(first), second);
    var s1 := DoInsert(s, 0, first, x);
    assert Step(s, Insert(0)) == s1;
    assert Step(s1, Insert(1)) == DoInsert(s1, 1, second, y);
  }

  lemma FirstInsertGranted(record: HoldRecord)
    requires record.amountZat <= record.spendableForCheckZat
    ensures CreateHold([], record) == ([NewRow(record)], Ok(()))
  {
    CreateDecision([], record);
    assert [] + [NewRow(record)] == [NewRow(record)];
  }

  lemma ConflictWith(row: HoldRow, record: HoldRecord)
    requires Active(row) && row.requestId == record.requestId
    ensures CreateHold([row], record) == ([row], Err(HoldRequestConflict))
  {
    assert [row][0] == row;
  }

  // The second of them is answered with the conflict itself, although the first one's hold
  // is active and strictly newest by then.
  lemma OverlapEndsInConflict(note: HeldNote, nowMs: nat)
    requires note.valueZat > 0
    ensures var s := Step(Step(Overlapping(note, nowMs), Insert(0)), Insert(1));
      && |s.rows| == 1 && Active(s.rows[0]) && StrictlyNewest(s.rows, 0)
      && s.rows[0].requestId == REQUEST_ONE.requestId
      && 1 in s.callers && s.callers[1] == Done(Err(Storage(HoldRequestConflict)))
  {
    OverlappingReached(note, nowMs);
    OneNoteCovers(note);
    SecondInsertConflicts(Overlapping(note, nowMs),
                          RecordFor(REQUEST_ONE, [note], 10, nowMs), note.valueZat,
                          RecordFor(REQUEST_ONE, [note], 11, nowMs), note.valueZat);
  }

  // ---- releasing an inactive hold ----

  // Documented to leave an inactive row alone. It does if and only if the row was released
  // before: a finalized row is stamped.
  lemma ReleaseOfInactive(rows: seq<HoldRow>, k: nat, ms: nat)
    requires k < |rows| && UniqueIds(rows) && !Active(rows[k])
    ensures ReleaseHold(rows, rows[k].holdId, ms).0 == rows <==> rows[k].releasedAtMs.Some?
  {
    var after := ReleaseHold(rows, rows[k].holdId, ms).0;
    assert after[k] == ReleasedRow(rows[k], rows[k].holdId, ms);
  }

  lemma FinalizeThenRelease(s: State, row: HoldRow, tx: TxId, ms: nat)
    requires s.rows == [row] && Active(row)
    ensures var finalized := row.(finalizedTxId := Some(tx));
      var s' := Step(s, FinalizeRow(row.holdId, tx));
      && s'.rows == [finalized]
      && Step(s', ReleaseRow(row.holdId, ms)).rows == [finalized.(releasedAtMs := Some(ClampToI64(ms)))]
  {
    var finalized := row.(finalizedTxId := Some(tx));
    assert [row][0].holdId == row.holdId && [finalized][0].holdId == row.holdId;
  }

  // Reserve, finalize, release: the finalized row ends with a release time.
  lemma FinalizedRowIsStamped(note: HeldNote, nowMs: nat, tx: TxId, ms: nat)
    requires note.valueZat > 0
    ensures var s := Step(Undisturbed(Init(), 0, REQUEST_ONE, None, [note], 10, nowMs), FinalizeRow(10, tx));
      var s' := Step(s, ReleaseRow(10, ms));
      && |s.rows| == |s'.rows| == 1 && !Active(s.rows[0])
      && s.rows[0].finalizedTxId == s'.rows[0].finalizedTxId == Some(tx)
      && s.rows[0].releasedAtMs == None && s'.rows[0].releasedAtMs == Some(ClampToI64(ms))
  {
    AfterReserved(note, nowMs);
    FinalizeThenRelease(Undisturbed(Init(), 0, REQUEST_ONE, None, [note], 10, nowMs),
                        NewRow(RecordFor(REQUEST_ONE, [note], 10, nowMs)), tx, ms);
  }

  // ---- the spendable figure of a record ----

  // Documented to be net of the account's active holds. The figure a call brings to its
  // insert is that if and only if there were none when it was read.
  lemma RecordedFigureIsNet(s: State, c: CallerId, holdId: HoldId, nowMs: nat)
    requires Inv(s) && c in s.callers && s.callers[c].Summing?
    requires Step(s, ReadReserved(c, holdId, nowMs)).callers[c].Inserting?
    ensures var gross, reserved := SaturatingSum(s.callers[c].notes), ActiveSum(s.rows, s.callers[c].plan.accountId);
      var record := Step(s, ReadReserved(c, holdId, nowMs)).callers[c].record;
      reserved <= U64_MAX && (record.spendableForCheckZat == SaturatingSub(gross, reserved) <==> reserved == 0)
  {
    ReadDecides(s, c, holdId, nowMs);
  }

  const REQUEST_TWO := Plan(0, 1, "another", "key")

  // Two reservations of one zatoshi from one note: the second brings the whole note.
  lemma GrossFigureReached(note: HeldNote, nowMs: nat)
    requires note.valueZat > 1
    ensures var first := Undisturbed(Init(), 0, REQUEST_ONE, None, [note], 10, nowMs);
      var s := Prepared(first, 1, REQUEST_TWO, None, [note], 11, nowMs);
      && ActiveSum(s.rows, 0) == 1
      && 1 in s.callers && s.callers[1].Inserting?
      && s.callers[1].record.spendableForCheckZat == note.valueZat
      && s.callers[1].spendable == note.valueZat - 1
  {
    var first := Undisturbed(Init(), 0, REQUEST_ONE, None, [note], 10, nowMs);
    AfterReserved(note, nowMs);
    OneNoteCovers(note);
    ActiveSumSnoc([], first.rows[0], 0);
    assert [] + [first.rows[0]] == first.rows;
    PreparedBesideOne(first, note, nowMs);
  }

  lemma PreparedBesideOne(s: State, note: HeldNote, nowMs: nat)
    requires Inv(s) && 1 !in s.callers && ActiveSum(s.rows, 0) == 1 && note.valueZat > 1
    requires LookupAnswer(s.rows, REQUEST_TWO.requestId, None)
    ensures Prepared(s, 1, REQUEST_TWO, None, [note], 11, nowMs)
         == SetPc(s, 1, Inserting(RecordFor(REQUEST_TWO, [note], 11, nowMs), note.valueZat - 1))
  {
    OneNoteCovers(note);
    PreparedWithoutActive(s, 1, REQUEST_TWO, None, [note], 11, nowMs);
  }

  // ---- notes of more than MAX_MONEY ----

  lemma TwoNotesSum(a: HeldNote, b: HeldNote)
    ensures SaturatingSum([a, b]) == a.valueZat + b.valueZat
  {
    SaturatingSumIs([a, b]);
    assert [a, b][..1] == [a] && [a][..0] == [];
    assert Sum([a, b]) == Sum([a]) + b.valueZat && Sum([a]) == Sum([]) + a.valueZat;
  }

  // With one zatoshi reserved and notes of one zatoshi more than MAX_MONEY, the view is
  // MAX_MONEY, and a reservation of one zatoshi is refused.
  lemma RefusedWithinView(note: HeldNote, nowMs: nat)
    requires note.valueZat == 1
    ensures var first := Undisturbed(Init(), 0, REQUEST_ONE, None, [note], 10, nowMs);
      var notes := [note.(valueZat := MAX_MONEY), note];
      var s := Undisturbed(first, 1, REQUEST_TWO, None, notes, 11, nowMs);
      && ActiveSum(first.rows, 0) == 1 && SpendableForNextDispense(notes, 1) == MAX_MONEY
      && 1 in s.callers && s.callers[1].Done? && s.callers[1].result.Err? && s.rows == first.rows
  {
    var first := Undisturbed(Init(), 0, REQUEST_ONE, None, [note], 10, nowMs);
    var notes := [note.(valueZat := MAX_MONEY), note];
    AfterReserved(note, nowMs);
    TwoNotesSum(notes[0], notes[1]);
    ActiveSumSnoc([], first.rows[0], 0);
    assert [] + [first.rows[0]] == first.rows;
    assert LookupAnswer(first.rows, "another", None);
    UndisturbedReservation(first, 1, REQUEST_TWO, None, notes, 11, nowMs);
  }

  // ---- the figure reported for another account's hold ----

  const OTHER_ACCOUNT := Plan(1, 1, "request", "key")

  // Reserve on account 0, then repeat the request naming account 1: the figure reported is
  // not account 1's view after the hold is released, whatever notes it has.
  lemma OtherAccountReached(note: HeldNote, others: seq<HeldNote>, nowMs: nat, ms: nat)
    requires note.valueZat > 0 && |others| <= U32_MAX
    ensures var first := Undisturbed(Init(), 0, REQUEST_ONE, None, [note], 10, nowMs);
      var s := Undisturbed(first, 1, OTHER_ACCOUNT, Some(0), others, 11, nowMs);
      && 1 in s.callers && s.callers[1].Done? && s.callers[1].result.Ok?
      && s.callers[1].result.value.holdId == 10
      && ActiveSum(ReleaseHold(s.rows, 10, ms).0, 1) <= MAX_MONEY
      && s.callers[1].result.value.availableAfterReleaseZat
           != SpendableForNextDispense(others, ActiveSum(ReleaseHold(s.rows, 10, ms).0, 1))
  {
    var first := Undisturbed(Init(), 0, REQUEST_ONE, None, [note], 10, nowMs);
    AfterReserved(note, nowMs);
    assert LookupAnswer(first.rows, "request", Some(0));
    CallOnActiveHold(first, 1, OTHER_ACCOUNT, 0, others, 11, nowMs);
    assert ActiveSum(first.rows, 1) <= GrossOf(first, 1);
    AvailableAfterRelease(first.rows, 0, 1, others, ms);
  }
}
