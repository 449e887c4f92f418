// The hold table updated in place. Each method is one actor work item and leaves the rows
// its counterpart in HoldStore describes.
module HoldLedger {
  import opened Prelude
  import opened HoldStore
  import LockedNotes

  class Ledger {
    var rows: seq<HoldRow>

    // The primary key on hold_id.
    ghost predicate Valid()
      reads this
    {
      UniqueIds(rows)
    }

    constructor ()
      ensures Valid() && rows == []
    {
      rows := [];
    }

    // Index of the row with this primary key.
    method FindById(id: HoldId) returns (at: Option<nat>)
      ensures at.Some? <==> HasId(rows, id)
      ensures at.Some? ==> at.value < |rows| && rows[at.value].holdId == id
    {
      var i := 0;
      while i < |rows|
        invariant i <= |rows| && forall j :: 0 <= j < i ==> rows[j].holdId != id
      {
        if rows[i].holdId == id {
          return Some(i);
        }
        i := i + 1;
      }
      return None;
    }

    method CreateHold(rec: HoldRecord) returns (r: Result<(), HoldError>)
      requires Valid()
      modifies this
      ensures Valid()
      ensures (rows, r) == HoldStore.CreateHold(old(rows), rec)
    {
      if HasActiveRequest(rows, rec.requestId) {
        return Err(HoldRequestConflict);
      }
      var activeSum := CheckedActiveSum(rows, rec.accountId);
      if activeSum.Err? {
        return Err(activeSum.error);
      }
      var projected := SaturatingAdd(activeSum.value, rec.amountZat);
      if projected > rec.spendableForCheckZat {
        var available := SaturatingSub(rec.spendableForCheckZat, activeSum.value);
        return Err(InsufficientFunds(rec.amountZat, ZatoshisOrZero(available)));
      }
      var taken := FindById(rec.holdId);
      if taken.Some? {
        return Err(SqliteFailed);
      }
      var blob := LockedNotes.EncodeLockedNotes(rec.lockedNotes);
      rows := rows + [HoldRow(rec.holdId, rec.requestId, rec.idempotencyKey, rec.accountId, rec.amountZat,
                              blob, ClampToI64(rec.reservedAtMs), None, None)];
      return Ok(());
    }

    method ReleaseHold(id: HoldId, ms: nat) returns (r: Result<(), HoldError>)
      requires Valid()
      modifies this
      ensures Valid()
      ensures (rows, r) == HoldStore.ReleaseHold(old(rows), id, ms)
    {
      var at := FindById(id);
      if at.None? {
        return Err(HoldNotFound);
      }
      var i := at.value;
      if rows[i].releasedAtMs.None? {
        rows := rows[i := rows[i].(releasedAtMs := Some(ClampToI64(ms)))];
      }
      assert rows == HoldStore.ReleaseHold(old(rows), id, ms).0;
      return Ok(());
    }

    method FinalizeHold(id: HoldId, tx: TxId) returns (r: Result<(), HoldError>)
      requires Valid()
      modifies this
      ensures Valid()
      ensures (rows, r) == HoldStore.FinalizeHold(old(rows), id, tx)
    {
      var at := FindById(id);
      if at.None? {
        return Err(HoldNotFound);
      }
      var i := at.value;
      if rows[i].finalizedTxId.None? {
        rows := rows[i := rows[i].(finalizedTxId := Some(tx))];
      }
      assert rows == HoldStore.FinalizeHold(old(rows), id, tx).0;
      return Ok(());
    }
  }
}
