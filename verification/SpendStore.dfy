// The two ledgers of the spend path: pending-broadcast rows, keyed by broadcast and
// outpoint, and the write-once idempotency table.
module SpendStore {
  import opened Prelude

  type AccountId = nat

  datatype OutPoint = OutPoint(txId: TxId, outputIndex: U32)

  datatype PendingKey = PendingKey(broadcast: TxId, outpoint: OutPoint)

  datatype PendingRow = PendingRow(valueZat: Zatoshis, accountId: AccountId, atMs: nat, atHeight: Option<U32>)

  type PendingTable = map<PendingKey, PendingRow>

  datatype Input = Input(outpoint: OutPoint, valueZat: Zatoshis)

  datatype PreparedTransaction = PreparedTransaction(txId: TxId, inputs: seq<Input>, expiryHeight: U32)

  // The fields every row of one broadcast shares.
  datatype Stamp = Stamp(accountId: AccountId, atMs: nat, atHeight: Option<U32>)

  datatype SpendError =
    | SqliteFailed
    | IdempotencyKeyConflict
    | ProposalRejected
    | SubmissionFailed
    | SubmissionRejected
    | TransactionIdMismatch(expected: TxId, returned: TxId)

  datatype SubmitOutcome =
    | Accepted(txId: TxId)
    | Duplicate(txId: TxId)
    | Queued(txId: TxId)
    | Rejected
    | Unrecognised
    | CallFailed

  // The breaker-and-retry error, or resolve_send_outcome.
  function ResolveSendOutcome(outcome: SubmitOutcome, expected: TxId): Result<TxId, SpendError> {
    match outcome
    case Accepted(t) => if t != expected then Err(TransactionIdMismatch(expected, t)) else Ok(t)
    case Duplicate(t) => if t != expected then Err(TransactionIdMismatch(expected, t)) else Ok(t)
    case Queued(t) => if t != expected then Err(TransactionIdMismatch(expected, t)) else Ok(t)
    case Rejected => Err(SubmissionRejected)
    case Unrecognised => Err(SubmissionRejected)
    case CallFailed => Err(SubmissionFailed)
  }

  function RowFor(stamp: Stamp, value: Zatoshis): PendingRow {
    PendingRow(value, stamp.accountId, stamp.atMs, stamp.atHeight)
  }

  // The submitter took the transaction under the id it was built with.
  predicate Takes(outcome: SubmitOutcome, txId: TxId) {
    outcome == Accepted(txId) || outcome == Duplicate(txId) || outcome == Queued(txId)
  }

  // An outcome resolves to success exactly when it takes the transaction. One that names
  // another id is a mismatch, a refusal or an unknown outcome is a rejection, and a failed
  // call stays one.
  lemma ResolvesExactly(outcome: SubmitOutcome, expected: TxId)
    ensures var r := ResolveSendOutcome(outcome, expected);
      && (r.Ok? <==> outcome == Accepted(expected) || outcome == Duplicate(expected) || outcome == Queued(expected))
      && (r.Ok? ==> r.value == expected)
      && (outcome == Rejected || outcome == Unrecognised ==> r == Err(SubmissionRejected))
      && (outcome == CallFailed ==> r == Err(SubmissionFailed))
      && (forall other :: other != expected && Takes(outcome, other) ==>
            r == Err(TransactionIdMismatch(expected, other)))
  {
  }

  // Upserts in order: a repeated outpoint keeps its last value.
  function RecordInputs(table: PendingTable, txId: TxId, inputs: seq<Input>, stamp: Stamp): PendingTable {
    if inputs == [] then table
    else
      var last := inputs[|inputs| - 1];
      var front := RecordInputs(table, txId, inputs[..|inputs| - 1], stamp);
      front[PendingKey(txId, last.outpoint) := RowFor(stamp, last.valueZat)]
  }

  function ClearTransactions(table: PendingTable, txIds: set<TxId>): PendingTable {
    map k | k in table && k.broadcast !in txIds :: table[k]
  }

  // Clearing in two goes is clearing both sets at once.
  lemma ClearTwice(table: PendingTable, a: set<TxId>, b: set<TxId>)
    ensures ClearTransactions(ClearTransactions(table, a), b) == ClearTransactions(table, a + b)
  {
  }

  function ClearExpired(table: PendingTable, beforeMs: nat): PendingTable {
    map k | k in table && table[k].atMs >= beforeMs :: table[k]
  }

  function BindKey(table: map<string, TxId>, key: string, txId: TxId): (map<string, TxId>, Result<(), SpendError>) {
    if key in table then (table, if table[key] == txId then Ok(()) else Err(IdempotencyKeyConflict))
    else (table[key := txId], Ok(()))
  }

  // Input i is the last that spends this outpoint.
  ghost predicate LastFor(inputs: seq<Input>, outpoint: OutPoint, i: int) {
    && 0 <= i < |inputs| && inputs[i].outpoint == outpoint
    && forall j :: i < j < |inputs| ==> inputs[j].outpoint != outpoint
  }

  // The row carries the stamp and the value of the last input that spends its outpoint.
  ghost predicate Carries(row: PendingRow, inputs: seq<Input>, stamp: Stamp, outpoint: OutPoint) {
    exists i :: LastFor(inputs, outpoint, i)
      && row == PendingRow(inputs[i].valueZat, stamp.accountId, stamp.atMs, stamp.atHeight)
  }

  // Every input of the transaction is in the ledger with its value, under this stamp.
  ghost predicate Recorded(table: PendingTable, tx: PreparedTransaction, stamp: Stamp) {
    forall k :: 0 <= k < |tx.inputs| ==>
      var key := PendingKey(tx.txId, tx.inputs[k].outpoint);
      key in table && Carries(table[key], tx.inputs, stamp, tx.inputs[k].outpoint)
  }

  ghost predicate NoRows(table: PendingTable, txId: TxId) {
    forall key :: key in table ==> key.broadcast != txId
  }

  // The rows of every broadcast outside txIds are the same in both tables.
  ghost predicate SameElsewhere(t1: PendingTable, t2: PendingTable, txIds: set<TxId>) {
    forall key: PendingKey :: key.broadcast !in txIds ==>
      (key in t1 <==> key in t2) && (key in t1 ==> t1[key] == t2[key])
  }

  lemma CarriesSnoc(row: PendingRow, inputs: seq<Input>, last: Input, stamp: Stamp, outpoint: OutPoint)
    ensures outpoint == last.outpoint && row == PendingRow(last.valueZat, stamp.accountId, stamp.atMs, stamp.atHeight)
      ==> Carries(row, inputs + [last], stamp, outpoint)
    ensures outpoint != last.outpoint && Carries(row, inputs, stamp, outpoint)
      ==> Carries(row, inputs + [last], stamp, outpoint)
  {
    if outpoint == last.outpoint {
      assert LastFor(inputs + [last], outpoint, |inputs|);
    } else if Carries(row, inputs, stamp, outpoint) {
      var i :| LastFor(inputs, outpoint, i)
        && row == PendingRow(inputs[i].valueZat, stamp.accountId, stamp.atMs, stamp.atHeight);
      assert LastFor(inputs + [last], outpoint, i);
    }
  }

  lemma RecordedSnoc(table: PendingTable, tx: PreparedTransaction, last: Input, stamp: Stamp)
    requires Recorded(table, tx, stamp)
    ensures Recorded(table[PendingKey(tx.txId, last.outpoint) := RowFor(stamp, last.valueZat)],
                     tx.(inputs := tx.inputs + [last]), stamp)
  {
    var inputs := tx.inputs + [last];
    var table' := table[PendingKey(tx.txId, last.outpoint) := RowFor(stamp, last.valueZat)];
    forall k | 0 <= k < |inputs|
      ensures var key := PendingKey(tx.txId, inputs[k].outpoint);
        key in table' && Carries(table'[key], inputs, stamp, inputs[k].outpoint)
    {
      var key := PendingKey(tx.txId, inputs[k].outpoint);
      CarriesSnoc(table'[key], tx.inputs, last, stamp, inputs[k].outpoint);
    }
  }

  lemma {:induction false} RecordInputsEffect(table: PendingTable, tx: PreparedTransaction, n: nat, stamp: Stamp)
    requires n <= |tx.inputs|
    ensures var table' := RecordInputs(table, tx.txId, tx.inputs[..n], stamp);
      && Recorded(table', tx.(inputs := tx.inputs[..n]), stamp)
      && SameElsewhere(table, table', {tx.txId})
  {
    if n > 0 {
      RecordInputsEffect(table, tx, n - 1, stamp);
      var front := tx.inputs[..n - 1];
      assert tx.inputs[..n] == front + [tx.inputs[n - 1]] && tx.inputs[..n][..n - 1] == front;
      RecordedSnoc(RecordInputs(table, tx.txId, front, stamp), tx.(inputs := front), tx.inputs[n - 1], stamp);
    }
  }

  lemma RecordEffect(table: PendingTable, tx: PreparedTransaction, stamp: Stamp)
    ensures var table' := RecordInputs(table, tx.txId, tx.inputs, stamp);
      Recorded(table', tx, stamp) && SameElsewhere(table, table', {tx.txId})
  {
    RecordInputsEffect(table, tx, |tx.inputs|, stamp);
    assert tx.inputs[..|tx.inputs|] == tx.inputs;
  }

  // With distinct outpoints each input's row carries that input's own value.
  lemma {:induction false} RecordedExactly(table: PendingTable, txId: TxId, inputs: seq<Input>, stamp: Stamp)
    requires forall i, j :: 0 <= i < j < |inputs| ==> inputs[i].outpoint != inputs[j].outpoint
    ensures forall k :: 0 <= k < |inputs| ==>
      var key := PendingKey(txId, inputs[k].outpoint);
      key in RecordInputs(table, txId, inputs, stamp)
      && RecordInputs(table, txId, inputs, stamp)[key]
           == PendingRow(inputs[k].valueZat, stamp.accountId, stamp.atMs, stamp.atHeight)
    ensures forall key: PendingKey :: key in RecordInputs(table, txId, inputs, stamp) && key !in table ==>
      key.broadcast == txId && exists k :: 0 <= k < |inputs| && inputs[k].outpoint == key.outpoint
  {
    if inputs != [] {
      RecordedExactly(table, txId, inputs[..|inputs| - 1], stamp);
    }
  }

  // A key is bound once: binding succeeds if it is free or bound to the same transaction,
  // and a second transaction is a conflict that changes nothing.
  lemma BindDecides(table: map<string, TxId>, key: string, txId: TxId)
    ensures var (table', r) := BindKey(table, key, txId);
      && (r.Ok? <==> key in table ==> table[key] == txId)
      && (r.Err? ==> r.error == IdempotencyKeyConflict && table' == table)
      && (r.Ok? ==> key in table' && table'[key] == txId && table' - {key} == table - {key})
  {
  }

  // The expiry sweep removes exactly the rows recorded before the limit.
  lemma ExpiredEffect(table: PendingTable, beforeMs: nat, key: PendingKey)
    requires key in table
    ensures key in ClearExpired(table, beforeMs) <==> beforeMs <= table[key].atMs
    ensures ClearExpired(table, beforeMs).Keys <= table.Keys
    ensures key in ClearExpired(table, beforeMs) ==> ClearExpired(table, beforeMs)[key] == table[key]
  {
  }

  lemma ClearEffect(table: PendingTable, txIds: set<TxId>)
    ensures SameElsewhere(table, ClearTransactions(table, txIds), txIds)
    ensures forall t :: t in txIds ==> NoRows(ClearTransactions(table, txIds), t)
  {
  }

  // Rows of a broadcast are unaffected by changes to others.
  lemma RecordedElsewhere(t1: PendingTable, t2: PendingTable, txIds: set<TxId>, tx: PreparedTransaction, stamp: Stamp)
    requires SameElsewhere(t1, t2, txIds) && tx.txId !in txIds
    ensures Recorded(t1, tx, stamp) ==> Recorded(t2, tx, stamp)
    ensures NoRows(t1, tx.txId) ==> NoRows(t2, tx.txId)
  {
    if Recorded(t1, tx, stamp) {
      forall k | 0 <= k < |tx.inputs|
        ensures var key := PendingKey(tx.txId, tx.inputs[k].outpoint); key in t2 && t2[key] == t1[key]
      {
        assert PendingKey(tx.txId, tx.inputs[k].outpoint) in t1;
      }
    }
  }
}
