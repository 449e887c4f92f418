// The actor-owned database handle. Each method is one work item, or a part of one, and
// ends in exactly the state its counterpart in PcztStore describes.
module WalletDb {
  import opened Prelude
  import opened PcztStore

  class Database {
    var locks: map<OutputRef, Lock>
    var pending: seq<PendingRow>
    var spent: set<OutputRef>
    var finalized: map<TxId, Pczt>
    var height: nat

    constructor ()
      ensures Contents() == Store(map[], [], {}, map[], 0)
    {
      locks, pending, spent, finalized, height := map[], [], {}, map[], 0;
    }

    function Contents(): Store
      reads this
    {
      Store(locks, pending, spent, finalized, height)
    }

    // unlock_output: a no-op unless `owner` holds the lock.
    method UnlockOutput(x: OutputRef, owner: LockOwner, fails: bool) returns (r: Result<(), StorageError>)
      modifies this`locks
      ensures locks == if fails then old(locks) else PcztStore.UnlockOutput(old(locks), x, owner)
      ensures r.Err? <==> fails
    {
      if fails {
        return Err(SqliteFailed);
      }
      if x in locks && locks[x].owner == owner {
        locks := locks - {x};
      }
      return Ok(());
    }

    // Unlocks in order until the list ends or the unlock at `failAt` fails.
    method UnlockOutputs(xs: seq<OutputRef>, owner: LockOwner, failAt: Option<nat>)
      returns (r: Result<(), StorageError>)
      modifies this`locks
      ensures r.Err? <==> failAt.Some? && failAt.value < |xs|
      ensures locks == UnlockAll(old(locks), if r.Err? then xs[..failAt.value] else xs, owner)
    {
      var done := 0;
      while done < |xs|
        invariant done <= |xs|
        invariant failAt.Some? ==> done <= failAt.value || |xs| <= failAt.value
        invariant locks == UnlockAll(old(locks), xs[..done], owner)
      {
        var outcome := UnlockOutput(xs[done], owner, failAt == Some(done));
        if outcome.Err? {
          return Err(SqliteFailed);
        }
        assert xs[..done + 1][..done] == xs[..done];
        done := done + 1;
      }
      assert xs[..done] == xs;
      return Ok(());
    }

    method ReleasePendingPcztInputs(owner: LockOwner, fault: ReleaseFault) returns (r: Result<(), StorageError>)
      modifies this`locks, this`pending
      ensures (Contents(), r) == Release(old(Contents()), owner, fault)
    {
      var inputs := FindPending(pending, owner);
      r := UnlockOutputs(inputs, owner, if fault.UnlockFails? then Some(fault.at) else None);
      if r.Err? {
        return Err(SqliteFailed);
      }
      if fault.DeleteFails? {
        return Err(SqliteFailed);
      }
      pending := DeletePending(pending, owner);
      return Ok(());
    }

    // One transaction: a duplicate primary key rolls every insert back.
    method RecordPendingPcztInputs(owner: LockOwner, inputs: seq<OutputRef>) returns (r: Result<(), StorageError>)
      modifies this`pending
      ensures r.Ok? <==> Insertable(old(pending), owner, inputs)
      ensures pending == if r.Ok? then old(pending) + RowsFor(owner, inputs) else old(pending)
      ensures r.Err? ==> r.error == SqliteFailed
    {
      var transaction := pending;
      var i := 0;
      while i < |inputs|
        invariant i <= |inputs|
        invariant pending == old(pending)
        invariant transaction == pending + RowsFor(owner, inputs[..i])
        invariant Insertable(pending, owner, inputs[..i])
      {
        var row := PendingRow(owner, inputs[i]);
        if row in transaction {
          DuplicateRefused(pending, owner, inputs, i);
          return Err(SqliteFailed);
        }
        OneMoreInsertable(pending, owner, inputs, i);
        transaction := transaction + [row];
        i := i + 1;
      }
      assert inputs[..i] == inputs;
      pending := transaction;
      return Ok(());
    }

    // release_proposal_inputs_after_failure on a failed build.
    method ReleaseProposalInputs(cr: Creation, inputs: seq<OutputRef>, error: StorageError)
      returns (r: Result<Pczt, StorageError>)
      modifies this`locks
      ensures (Contents(), r) == FailCreation(old(Contents()), cr, inputs, error)
    {
      var unlocked := UnlockOutputs(inputs, cr.owner, cr.unlockFault);
      if unlocked.Err? {
        return Err(SqliteFailed);
      }
      return Err(error);
    }

    method CreatePczt(cr: Creation) returns (r: Result<Pczt, StorageError>)
      modifies this`locks, this`pending
      ensures (Contents(), r) == PcztStore.CreatePczt(old(Contents()), cr)
    {
      if cr.proposal.Err? {
        return Err(cr.proposal.error);
      }
      var draft := cr.proposal.value;
      locks := locks + map x | x in draft.inputs :: Lock(cr.owner, height + LOCK_BLOCKS);
      if cr.buildError.Some? {
        r := ReleaseProposalInputs(cr, draft.inputs, cr.buildError.value);
        return;
      }
      var recorded := RecordPendingPcztInputs(cr.owner, draft.inputs);
      if recorded.Err? {
        r := ReleaseProposalInputs(cr, draft.inputs, recorded.error);
        return;
      }
      return Ok(draft.(token := Owner(cr.owner)));
    }

    // INSERT ... ON CONFLICT DO NOTHING, then compare with what is stored.
    method RecordFinalizedPczt(p: Pczt) returns (r: Result<(), StorageError>)
      modifies this`finalized
      ensures p.txId in finalized
      ensures r.Ok? <==> finalized[p.txId] == p
      ensures finalized == if p.txId in old(finalized) then old(finalized) else old(finalized)[p.txId := p]
      ensures r.Err? ==> r.error == FinalizedPcztConflict(p.txId)
    {
      if p.txId !in finalized {
        finalized := finalized[p.txId := p];
      }
      if finalized[p.txId] == p {
        return Ok(());
      }
      return Err(FinalizedPcztConflict(p.txId));
    }

    method ExtractAndStorePczt(p: Pczt, fault: ExtractFault) returns (r: Result<TxId, StorageError>)
      modifies this
      ensures (Contents(), r) == ExtractPczt(old(Contents()), p, fault)
    {
      if p.token.Malformed? {
        return Err(PcztLockOwnerMalformed(p.token.byteCount));
      }
      if fault.ExtractFails? {
        return Err(SqliteFailed);
      }
      spent := spent + (set x | x in p.inputs);
      locks := locks - (set x | x in p.inputs);
      if fault.ReadBackFails? {
        return Err(SqliteFailed);
      }
      var recorded := RecordFinalizedPczt(p);
      if recorded.Err? {
        return Err(recorded.error);
      }
      assert finalized == old(finalized)[p.txId := p];
      if p.token.Owner? {
        if fault.DeleteRowsFails? {
          return Err(SqliteFailed);
        }
        pending := DeletePending(pending, p.token.owner);
      }
      return Ok(p.txId);
    }

    method AbandonPczt(p: Pczt, fault: ReleaseFault) returns (r: Result<(), StorageError>)
      modifies this`locks, this`pending
      ensures (Contents(), r) == PcztStore.AbandonPczt(old(Contents()), p, fault)
    {
      if p.token.Absent? {
        return Err(PcztLockOwnerMissing);
      }
      if p.token.Malformed? {
        return Err(PcztLockOwnerMalformed(p.token.byteCount));
      }
      r := ReleasePendingPcztInputs(p.token.owner, fault);
    }
  }

  lemma DuplicateRefused(rows: seq<PendingRow>, owner: LockOwner, inputs: seq<OutputRef>, i: nat)
    requires i < |inputs| && PendingRow(owner, inputs[i]) in rows + RowsFor(owner, inputs[..i])
    ensures !Insertable(rows, owner, inputs)
  {
    RowsForEffect(owner, inputs[..i]);
    if PendingRow(owner, inputs[i]) !in rows {
      var k :| 0 <= k < i && inputs[..i][k] == inputs[i];
      assert inputs[k] == inputs[i];
    }
  }

  lemma OneMoreInsertable(rows: seq<PendingRow>, owner: LockOwner, inputs: seq<OutputRef>, i: nat)
    requires i < |inputs| && Insertable(rows, owner, inputs[..i])
    requires PendingRow(owner, inputs[i]) !in rows + RowsFor(owner, inputs[..i])
    ensures Insertable(rows, owner, inputs[..i + 1])
    ensures RowsFor(owner, inputs[..i + 1]) == RowsFor(owner, inputs[..i]) + [PendingRow(owner, inputs[i])]
  {
    RowsForEffect(owner, inputs[..i]);
    assert inputs[..i + 1] == inputs[..i] + [inputs[i]];
    forall k | 0 <= k < i ensures inputs[..i][k] != inputs[i] {
      assert inputs[..i][k] in inputs[..i];
    }
  }
}
