// The ext_zally_holds table: its atomic operations as functions on the rows, kept in
// insertion order.
module HoldStore {
  import opened Prelude
  import LockedNotes

  type HoldId = nat
  type AccountId = nat

  datatype HoldRow = HoldRow(
    holdId: HoldId,
    requestId: string,
    idempotencyKey: string,
    accountId: AccountId,
    amountZat: Zatoshis,
    lockedNotes: seq<Byte>,
    reservedAtMs: nat,
    finalizedTxId: Option<TxId>,
    releasedAtMs: Option<nat>)

  datatype HoldRecord = HoldRecord(
    holdId: HoldId,
    requestId: string,
    idempotencyKey: string,
    accountId: AccountId,
    amountZat: Zatoshis,
    spendableForCheckZat: Zatoshis,
    lockedNotes: seq<LockedNotes.HeldNote>,
    reservedAtMs: nat)

  datatype HoldError =
    | HoldRequestConflict
    | InsufficientFunds(requiredZat: Zatoshis, availableZat: Zatoshis)
    | HoldNotFound
    | RowValueOutOfRange
    | SqliteFailed

  predicate Active(r: HoldRow) { r.finalizedTxId.None? && r.releasedAtMs.None? }

  function ClampToI64(v: nat): nat { Min(v, I64_MAX) }

  // SUM(amount_zat) over the account's active rows.
  function ActiveSum(rows: seq<HoldRow>, a: AccountId): nat {
    if rows == [] then 0
    else
      var last := rows[|rows| - 1];
      ActiveSum(rows[..|rows| - 1], a) + if last.accountId == a && Active(last) then last.amountZat else 0
  }

  predicate HasActiveRequest(rows: seq<HoldRow>, requestId: string) {
    exists i :: 0 <= i < |rows| && rows[i].requestId == requestId && Active(rows[i])
  }

  predicate HasId(rows: seq<HoldRow>, id: HoldId) {
    exists i :: 0 <= i < |rows| && rows[i].holdId == id
  }

  function NewRow(rec: HoldRecord): HoldRow {
    HoldRow(rec.holdId, rec.requestId, rec.idempotencyKey, rec.accountId, rec.amountZat,
            LockedNotes.Blob(rec.lockedNotes), ClampToI64(rec.reservedAtMs), None, None)
  }

  // sum_active_reservations: SQLite reports an error when the sum leaves i64.
  function CheckedActiveSum(rows: seq<HoldRow>, a: AccountId): Result<U64, HoldError> {
    var sum := ActiveSum(rows, a);
    if sum > I64_MAX then Err(SqliteFailed) else Ok(sum)
  }

  // One SQLite transaction: re-check, then insert.
  function CreateHold(rows: seq<HoldRow>, rec: HoldRecord): (seq<HoldRow>, Result<(), HoldError>) {
    if HasActiveRequest(rows, rec.requestId) then (rows, Err(HoldRequestConflict))
    else
      match CheckedActiveSum(rows, rec.accountId)
      case Err(e) => (rows, Err(e))
      case Ok(sum) =>
        if SaturatingAdd(sum, rec.amountZat) > rec.spendableForCheckZat then
          (rows, Err(InsufficientFunds(rec.amountZat, ZatoshisOrZero(SaturatingSub(rec.spendableForCheckZat, sum)))))
        else if HasId(rows, rec.holdId) then (rows, Err(SqliteFailed))
        else (rows + [NewRow(rec)], Ok(()))
  }

  function ReleasedRow(r: HoldRow, id: HoldId, ms: nat): HoldRow {
    if r.holdId == id && r.releasedAtMs.None? then r.(releasedAtMs := Some(ClampToI64(ms))) else r
  }

  function FinalizedRow(r: HoldRow, id: HoldId, tx: TxId): HoldRow {
    if r.holdId == id && r.finalizedTxId.None? then r.(finalizedTxId := Some(tx)) else r
  }

  // A second release is a no-op; a finalized row is stamped released all the same.
  function ReleaseHold(rows: seq<HoldRow>, id: HoldId, ms: nat): (seq<HoldRow>, Result<(), HoldError>) {
    if !HasId(rows, id) then (rows, Err(HoldNotFound))
    else (seq(|rows|, i requires 0 <= i < |rows| => ReleasedRow(rows[i], id, ms)), Ok(()))
  }

  function FinalizeHold(rows: seq<HoldRow>, id: HoldId, tx: TxId): (seq<HoldRow>, Result<(), HoldError>) {
    if !HasId(rows, id) then (rows, Err(HoldNotFound))
    else (seq(|rows|, i requires 0 <= i < |rows| => FinalizedRow(rows[i], id, tx)), Ok(()))
  }

  // Row i is one that ORDER BY reserved_at_ms DESC LIMIT 1 may return for the request;
  // SQLite leaves the choice among equal timestamps open.
  predicate Newest(rows: seq<HoldRow>, requestId: string, i: nat) {
    && i < |rows| && rows[i].requestId == requestId
    && forall j :: 0 <= j < |rows| && rows[j].requestId == requestId ==> rows[j].reservedAtMs <= rows[i].reservedAtMs
  }

  // The primary key.
  predicate UniqueIds(rows: seq<HoldRow>) {
    forall i, j :: 0 <= i < j < |rows| ==> rows[i].holdId != rows[j].holdId
  }

  // ---- what the operations do to the table ----

  // A row keeps its identity; each stamp, once written, stays; inactivity is absorbing.
  ghost predicate RowGrows(r: HoldRow, r': HoldRow) {
    && r'.(finalizedTxId := None, releasedAtMs := None) == r.(finalizedTxId := None, releasedAtMs := None)
    && (r.finalizedTxId.Some? ==> r'.finalizedTxId == r.finalizedTxId)
    && (r.releasedAtMs.Some? ==> r'.releasedAtMs == r.releasedAtMs)
  }

  // No row is ever removed or reordered.
  ghost predicate TableGrows(rows: seq<HoldRow>, rows': seq<HoldRow>) {
    |rows| <= |rows'| && forall i :: 0 <= i < |rows| ==> RowGrows(rows[i], rows'[i])
  }

  lemma {:induction false} ActiveSumShrinks(rows: seq<HoldRow>, rows': seq<HoldRow>, a: AccountId)
    requires |rows| == |rows'| && TableGrows(rows, rows')
    ensures ActiveSum(rows', a) <= ActiveSum(rows, a)
  {
    if rows != [] {
      var n := |rows| - 1;
      assert RowGrows(rows[n], rows'[n]);
      ActiveSumShrinks(rows[..n], rows'[..n], a);
    }
  }

  lemma ActiveSumSnoc(rows: seq<HoldRow>, r: HoldRow, a: AccountId)
    ensures ActiveSum(rows + [r], a) == ActiveSum(rows, a) + if r.accountId == a && Active(r) then r.amountZat else 0
  {
    assert (rows + [r])[..|rows|] == rows;
  }

  // Two distinct active rows of an account weigh no more than its active sum.
  lemma {:induction false} ActivePairBound(rows: seq<HoldRow>, a: AccountId, i: nat, j: nat)
    requires i < j < |rows|
    requires Active(rows[i]) && Active(rows[j]) && rows[i].accountId == rows[j].accountId == a
    ensures rows[i].amountZat + rows[j].amountZat <= ActiveSum(rows, a)
  {
    var front := rows[..|rows| - 1];
    if j < |rows| - 1 {
      ActivePairBound(front, a, i, j);
    } else {
      ActiveMemberBound(front, a, i);
    }
  }

  lemma {:induction false} ActiveMemberBound(rows: seq<HoldRow>, a: AccountId, i: nat)
    requires i < |rows| && Active(rows[i]) && rows[i].accountId == a
    ensures rows[i].amountZat <= ActiveSum(rows, a)
  {
    if i < |rows| - 1 {
      ActiveMemberBound(rows[..|rows| - 1], a, i);
    }
  }

  // Releasing an active hold returns exactly its amount to its account, and nothing to
  // any other.
  lemma {:induction false} ReleaseFreesAmount(rows: seq<HoldRow>, k: nat, a: AccountId, ms: nat)
    requires k < |rows| && Active(rows[k]) && UniqueIds(rows)
    ensures ActiveSum(ReleaseHold(rows, rows[k].holdId, ms).0, a)
         == ActiveSum(rows, a) - if rows[k].accountId == a then rows[k].amountZat else 0
  {
    var id, n := rows[k].holdId, |rows| - 1;
    var after := ReleaseHold(rows, id, ms).0;
    if k < n {
      var front := rows[..n];
      ReleaseFreesAmount(front, k, a, ms);
      assert after[..n] == ReleaseHold(front, id, ms).0;
    } else {
      assert after[..n] == rows[..n];
    }
  }

  // A conflict is answered exactly when a row of the request is neither finalized nor
  // released.
  lemma ConflictExactly(rows: seq<HoldRow>, rec: HoldRecord)
    ensures CreateHold(rows, rec).1 == Err(HoldRequestConflict) <==>
      exists i :: 0 <= i < |rows| && rows[i].requestId == rec.requestId
        && rows[i].finalizedTxId == None && rows[i].releasedAtMs == None
  {
  }

  // A refused amount comes with the figure that would have fitted: any other amount for
  // the same record is refused for want of funds exactly when it exceeds that figure.
  lemma RefusalTellsWhatFits(rows: seq<HoldRow>, rec: HoldRecord, other: Zatoshis)
    requires other > 0
    requires CreateHold(rows, rec).1.Err? && CreateHold(rows, rec).1.error.InsufficientFunds?
    ensures CreateHold(rows, rec).1.error.requiredZat == rec.amountZat
    ensures var r := CreateHold(rows, rec.(amountZat := other)).1;
      r.Err? && r.error.InsufficientFunds? <==> other > CreateHold(rows, rec).1.error.availableZat
  {
    assert CheckedActiveSum(rows, rec.accountId).Ok?;
  }

  // An insert adds its amount to its own account's active sum and to no other; a refusal
  // leaves the table alone.
  lemma CreateHoldAddsAmount(rows: seq<HoldRow>, rec: HoldRecord, a: AccountId)
    ensures var (rows', r) := CreateHold(rows, rec);
      && (r.Err? ==> rows' == rows)
      && (r.Ok? ==> ActiveSum(rows', a) == ActiveSum(rows, a) + if a == rec.accountId then rec.amountZat else 0)
  {
    var (rows', r) := CreateHold(rows, rec);
    if r.Ok? {
      var row := NewRow(rec);
      assert rows' == rows + [row] && Active(row) && row.accountId == rec.accountId && row.amountZat == rec.amountZat;
      ActiveSumSnoc(rows, row, a);
    }
  }

  // Finalizing touches the row of the id and no other: that row keeps an earlier
  // transaction id or takes this one.
  lemma FinalizeTouchesOneRow(rows: seq<HoldRow>, k: nat, tx: TxId)
    requires k < |rows| && UniqueIds(rows)
    ensures var (rows', r) := FinalizeHold(rows, rows[k].holdId, tx);
      && r == Ok(()) && |rows'| == |rows|
      && (forall i :: 0 <= i < |rows| && i != k ==> rows'[i] == rows[i])
      && rows'[k] == rows[k].(finalizedTxId :=
           if rows[k].finalizedTxId.Some? then rows[k].finalizedTxId else Some(tx))
  {
    assert HasId(rows, rows[k].holdId);
  }

  // Finalizing a hold takes its amount out of its own account's active sum if it was
  // active, and changes no other account's.
  lemma {:induction false} FinalizeFreesAmount(rows: seq<HoldRow>, k: nat, tx: TxId, a: AccountId)
    requires k < |rows| && UniqueIds(rows)
    ensures var wasActive := rows[k].finalizedTxId.None? && rows[k].releasedAtMs.None?;
      ActiveSum(FinalizeHold(rows, rows[k].holdId, tx).0, a)
        == ActiveSum(rows, a) - if wasActive && rows[k].accountId == a then rows[k].amountZat else 0
  {
    var id, n := rows[k].holdId, |rows| - 1;
    var after := FinalizeHold(rows, id, tx).0;
    if k < n {
      var front := rows[..n];
      FinalizeFreesAmount(front, k, tx, a);
      assert after[..n] == FinalizeHold(front, id, tx).0;
    } else {
      assert after[..n] == rows[..n];
    }
  }

  // The same for a release, whose stamp is clamped to the largest i64.
  lemma ReleaseTouchesOneRow(rows: seq<HoldRow>, k: nat, ms: nat)
    requires k < |rows| && UniqueIds(rows)
    ensures var (rows', r) := ReleaseHold(rows, rows[k].holdId, ms);
      && r == Ok(()) && |rows'| == |rows|
      && (forall i :: 0 <= i < |rows| && i != k ==> rows'[i] == rows[i])
      && rows'[k] == rows[k].(releasedAtMs :=
           if rows[k].releasedAtMs.Some? then rows[k].releasedAtMs else Some(Min(ms, 0x7FFF_FFFF_FFFF_FFFF)))
  {
    assert HasId(rows, rows[k].holdId);
  }

  lemma UnknownHold(rows: seq<HoldRow>, id: HoldId, ms: nat, tx: TxId)
    requires forall i :: 0 <= i < |rows| ==> rows[i].holdId != id
    ensures ReleaseHold(rows, id, ms) == (rows, Err(HoldNotFound))
    ensures FinalizeHold(rows, id, tx) == (rows, Err(HoldNotFound))
  {
  }

  // An insert appends one active row that carries the record, its time clamped to the
  // largest i64 and its notes in a blob that reads back as they were.
  lemma InsertedRow(rows: seq<HoldRow>, rec: HoldRecord)
    requires CreateHold(rows, rec).1.Ok? && |rec.lockedNotes| <= U32_MAX
    ensures var rows' := CreateHold(rows, rec).0;
      && |rows'| == |rows| + 1 && rows'[..|rows|] == rows
      && var row := rows'[|rows|];
         && row.holdId == rec.holdId && row.requestId == rec.requestId && row.idempotencyKey == rec.idempotencyKey
         && row.accountId == rec.accountId && row.amountZat == rec.amountZat
         && row.reservedAtMs == Min(rec.reservedAtMs, 0x7FFF_FFFF_FFFF_FFFF)
         && row.finalizedTxId == None && row.releasedAtMs == None
         && LockedNotes.Decoded(row.lockedNotes) == Ok(rec.lockedNotes)
  {
    LockedNotes.NotesRoundTrip(rec.lockedNotes);
  }

  lemma CreateHoldGrows(rows: seq<HoldRow>, rec: HoldRecord)
    ensures TableGrows(rows, CreateHold(rows, rec).0)
  {
  }

  lemma ReleaseHoldGrows(rows: seq<HoldRow>, id: HoldId, ms: nat)
    ensures TableGrows(rows, ReleaseHold(rows, id, ms).0) && |ReleaseHold(rows, id, ms).0| == |rows|
  {
  }

  lemma FinalizeHoldGrows(rows: seq<HoldRow>, id: HoldId, tx: TxId)
    ensures TableGrows(rows, FinalizeHold(rows, id, tx).0) && |FinalizeHold(rows, id, tx).0| == |rows|
  {
  }
}
