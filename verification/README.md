# Zally wallet: verified models of its ledgers, locks and codecs

The project models the parts of Zally whose correctness depends on steps interleaving over
shared storage, and the byte layouts that other parties must agree on.

- **PCZT input locks** (`PcztStore`, `WalletDb`, `PcztProtocol`, `PcztProtocolProof`,
  `PcztTheorems`). `Database` holds the lock table, pending-input rows, spends and finalized
  PCZTs and changes them in place, one actor work item a method. The protocol runs any number
  of creation calls against the serial actor, with the caller's future cancellable at each
  await, together with abandonment, extraction, the target-expiry send and tip movement
  (upward or back). A run is any sequence of events; one that is not enabled does nothing, so
  statements about every event sequence are statements about every interleaving.
- **Dispense holds** (`HoldStore`, `HoldLedger`, `NoteSelection`, `DispenseProtocol`,
  `DispenseTheorems`, `DispenseInterleaving`, `DispenseExceptions`). `Ledger` is the hold table; the protocol interleaves any number of
  reservations, whose look-up, listing, summing and insert are separate steps, with releases
  and finalizations.
- **Broadcast ledger** (`SpendStore`, `SpendLedger`, `SpendProtocol`, `SpendTheorems`).
  Recording, submitting, clearing and key binding, with a crash between any two steps and the
  sync loop's sweeps.
- **Retry and circuit breaker** (`Retry`, `BreakerSpec`, `CircuitBreaker`, `BreakerHistory`).
- **Transparent UTXO refresh** (`UtxoRefresh`). The walk against a store whose scan frontier
  another loop moves before each commit.
- **Codecs.** The held-note blob (`LockedNotes`, `BigEndian`), the PCZT updater over the
  postcard format (`PcztUpdater`, `Postcard`, `Utf8`), the intent-hash preimage and wire string
  (`IntentHash`, `Base64Url`), and RPC-order hex (`RpcHex`).

The methods that change state are proved against functions on values; the protocols and
theorems are about those functions.

## Assumptions

- The upstream lock table locks only outputs that are unspent and unlocked or expired, under
  32 random bytes never drawn before; it unlocks an output only for the owner that holds it; a
  proposal that fails locks nothing; storing a transaction marks its inputs spent and clears
  their locks.
- The PCZT roles keep the owner token and the inputs of the PCZT they work on.
- Newly built transactions have transaction ids no earlier one has.
- The wallet lists at most u32::MAX spendable notes. The clock of the breaker is monotonic.
- The actor stays alive with its database open. Where a theorem speaks of cleanup succeeding,
  the state carries a flag that is set when a cleanup fails.
- SHA-256 is a parameter: some function from byte strings to 32 bytes.

## Where code and documentation differ

The model follows the code.

- The hold record's spendable figure is documented as net of active reservations
  (crates/zally-storage/src/wallet.rs:387-389); the wallet passes the gross figure
  (crates/zally-wallet/src/wallet.rs:473). The two agree if and only if the account has no
  active reservation when it is read: `RecordedFigureIsNet`, and `GrossFigureReached` for a
  run in which they differ.
- Releasing a finalized hold stamps its release time (crates/zally-storage/src/sqlite.rs:2265-2268),
  contrary to crates/zally-storage/src/wallet.rs:1002-1004. An inactive row is left alone if and
  only if it was released before: `ReleaseOfInactive`, and `FinalizedRowIsStamped` for a run.
- A repeated reservation is documented to return the active prior one
  (crates/zally-wallet/src/wallet.rs:401-404). What counts is the moment the repeat looks its
  request up. The look-up takes the newest row by a millisecond timestamp, so it is sure to
  find the active row if and only if that row is strictly newest then (`LookupFindsActive`); if
  so, every continuation of the run has the repeat return it, and if not, some look-up answer
  keeps every continuation from it (`RepeatReturnsPriorInAnyRun`,
  `RepeatMissesPriorInEveryRun`, and `SameMillisecondReached` for a run).
- On a conflict at the insert the wallet is documented to look up and return the existing
  reservation (crates/zally-storage/src/wallet.rs:988-992); it passes the error on
  (crates/zally-wallet/src/wallet.rs:478-482). An insert meets the conflict if and only if a row
  of its request is active at that moment (`InsertDecides`); `OverlapEndsInConflict` is a run of
  two overlapping calls in which one does.
- A reservation is documented to fail for want of funds when its amount exceeds the spendable
  view (crates/zally-wallet/src/wallet.rs:406-407). With notes of more than MAX_MONEY in all it
  fails below the view too, because the insert is checked against a figure of zero: an amount
  within the view is granted if and only if the notes sum to at most MAX_MONEY
  (`UndisturbedReservation`; `RefusedWithinView` for a run).
- The figure reported for an existing hold is computed for the account the repeated call names,
  which need not be the hold's (crates/zally-wallet/src/wallet.rs:434-436);
  `AvailableAfterRelease` gives the exact condition under which it is what a release restores,
  and `OtherAccountReached` a run outside it.

## Model

| member | source | states |
|---|---|---|
| `WalletDb.Database.UnlockOutputs` | crates/zally-storage/src/sqlite.rs:2517-2527 | Unlocks in order, each output only for its own owner, and stops at the first failure with the earlier ones unlocked. |
| `WalletDb.Database.ReleasePendingPcztInputs` | crates/zally-storage/src/sqlite.rs:2517-2527 | Leaves exactly the locks and rows the release specification gives, with a failure possible at any unlock or at the delete. |
| `WalletDb.Database.RecordPendingPcztInputs` | crates/zally-storage/src/sqlite.rs:2433-2457 | Inserts every row or, on a repeated primary key, none. |
| `WalletDb.Database.ReleaseProposalInputs` | crates/zally-storage/src/sqlite.rs:3458-3480 | Failure cleanup: unlocks the proposal's inputs and returns the build error, or a storage error if an unlock fails. |
| `WalletDb.Database.CreatePczt` | crates/zally-storage/src/sqlite.rs:1178-1260 | Ends in the state and answer that `CreatePcztDecides` and `CreatePcztEffect` fix: proposal failure, build failure, repeated row, success. |
| `WalletDb.Database.RecordFinalizedPczt` | crates/zally-storage/src/sqlite.rs:2407-2431 | Stores the bytes once; succeeds exactly when what is stored equals the argument, never overwriting. |
| `WalletDb.Database.ExtractAndStorePczt` | crates/zally-storage/src/sqlite.rs:1262-1320 | Whole new state and result of an extraction, with a failure possible at each stage. |
| `WalletDb.Database.AbandonPczt` | crates/zally-storage/src/sqlite.rs:1322-1336 | Refuses a missing or malformed owner token; otherwise releases that owner. |
| `PcztStore.ReleaseEffect` | crates/zally-storage/src/sqlite.rs:2505-2527 | A release touches only its owner's entries, even where a listed output is now locked by someone else; success empties the rows and drops the listed locks, failure keeps every row. |
| `PcztStore.ReleaseIdempotent` | crates/zally-storage/src/sqlite.rs:2517-2527 | Repeating a successful release changes nothing and succeeds. |
| `PcztStore.ReleaseRetryCompletes` | crates/zally-storage/src/sqlite.rs:2517-2527 | A release that failed part way, then retried, ends in the state one undisturbed release reaches. |
| `PcztStore.ReleaseDecides` | crates/zally-storage/src/sqlite.rs:2517-2527 | A release succeeds exactly when no unlock of a listed input and not the delete fails; otherwise it is a storage error. |
| `PcztStore.ReleaseBreaksOff` | crates/zally-storage/src/sqlite.rs:2517-2527 | A release that breaks off at an unlock has unlocked exactly the inputs before it. |
| `PcztStore.AbandonDecides` | crates/zally-storage/src/sqlite.rs:1322-1336 | A PCZT without an owner token, or with one of another length, is refused and the store kept; any other is released for its owner. |
| `PcztStore.FindPendingEffect` | crates/zally-storage/src/sqlite.rs:2459-2503 | The inputs found for an owner are exactly those its rows list. |
| `PcztStore.DeletePendingEffect` | crates/zally-storage/src/sqlite.rs:2505-2515 | Removes exactly the owner's rows; a second delete is a no-op. |
| `PcztStore.FailCreationEffect` | crates/zally-storage/src/sqlite.rs:3458-3480 | After a failed build no other owner lost a live lock or row, and with the cleanup working the failed owner holds nothing. |
| `PcztStore.CleanupBreaksOff` | crates/zally-storage/src/sqlite.rs:3458-3480 | A failure cleanup that breaks off leaves locked exactly the inputs it did not reach. |
| `PcztStore.CreatePcztDecides` | crates/zally-storage/src/sqlite.rs:1178-1260 | A creation succeeds exactly when the proposal and the build do and no input occurs twice; otherwise the error is the proposal's, the build's, or a storage error for a repeated row or a cleanup that breaks off. |
| `PcztStore.CreatePcztEffect` | crates/zally-storage/src/sqlite.rs:1178-1260 | Under a fresh owner, success holds locks and rows on exactly the proposal's inputs for 100 blocks; only expired locks are displaced. |
| `PcztStore.ExtractPcztEffect` | crates/zally-storage/src/sqlite.rs:1262-1320 | Extraction drops only locks on outputs its transaction spends and only its own owner's rows; on error it keeps the rows. |
| `PcztStore.ExtractDecides` | crates/zally-storage/src/sqlite.rs:1262-1320 | An extraction succeeds, with the PCZT on record under its transaction, exactly when its token is well formed, no stage fails and no other PCZT is on record; each failure keeps what the stages before it did. |
| `PcztProtocolProof.StepKeepsInv` | crates/zally-storage/src/sqlite.rs:287-343 | Every step of caller, actor, cancellation, abandonment, extraction, send and tip movement keeps the lock invariant. |
| `PcztProtocolProof.RunInv` | crates/zally-storage/src/sqlite.rs:394-419 | The lock invariant holds after every sequence of events, whatever the interleaving. |
| `PcztTheorems.FinishedCreation` | crates/zally-storage/src/sqlite.rs:287-343 | When the actor finishes a creation, its inputs are locked and listed exactly if and only if the caller returned Ok; otherwise that owner holds no lock and no row (cleanup succeeding). |
| `PcztTheorems.UnreturnedHoldsNothing` | crates/zally-storage/src/sqlite.rs:296-325 | A creation whose caller did not get the bytes holds nothing in any later state. |
| `PcztTheorems.ReturnedKeepsInputs` | crates/zally-storage/src/sqlite.rs:287-343 | Until disposal a returned PCZT stays listed in full and, before its lock expiry, keeps every input locked or spent. |
| `PcztTheorems.NoSharedInput` | crates/zally-storage/src/sqlite.rs:3425-3425 | Two returned PCZTs within their lock lifetime share no unspent input. |
| `PcztTheorems.FinishedSend` | crates/zally-wallet/src/spend.rs:446-501 | On every return path of the target-expiry send no lock or row of it survives; where a transaction was stored its inputs are spent; Ok means the signed expiry is the target, a mismatch names both heights. |
| `PcztTheorems.AbandonCompletes` | crates/zally-wallet/src/pczt.rs:98-125 | However earlier cleanups failed, one undisturbed abandonment of a built PCZT leaves its owner with nothing. |
| `PcztTheorems.LiveLockStable` | crates/zally-storage/src/sqlite.rs:2505-2527 | An unexpired lock is ended by nothing but its own owner's release or the storing of a transaction that spends the output. |
| `PcztTheorems.AcknowledgementReceived` | crates/zally-storage/src/sqlite.rs:337-341 | A caller that holds the reply is the one the actor waits for, so its acknowledgement cannot fail. |
| `PcztTheorems.AcknowledgingReleasesActor` | crates/zally-storage/src/sqlite.rs:296-325 | A waiting actor becomes idle once its caller takes and acknowledges the reply. |
| `PcztTheorems.CancellingReleasesActor` | crates/zally-storage/src/sqlite.rs:296-325 | A waiting actor becomes idle once its caller is cancelled. |
| `PcztTheorems.UndisturbedHandshake` | crates/zally-storage/src/sqlite.rs:287-343 | A reply to a caller that stays is handed over in four steps without touching the store. |
| `PcztTheorems.UndisturbedCreation` | crates/zally-storage/src/sqlite.rs:287-343 | An undisturbed call returns what its creation answers, Ok exactly when `CreatePcztDecides` says so, and on Ok ends holding exactly its inputs. |
| `PcztTheorems.UndisturbedFailure` | crates/zally-storage/src/sqlite.rs:319-342 | A failed creation hands its error to its caller and leaves the actor idle. |
| `PcztTheorems.SendExtractDecides` | crates/zally-wallet/src/spend.rs:477-498 | Extraction ends a send well exactly when it works and the signed expiry is the target; a mismatch names both heights; any other failure goes to cleanup with its error. |
| `PcztTheorems.UndisturbedSend` | crates/zally-wallet/src/spend.rs:446-501 | An undisturbed send answers with its transaction exactly when the signed expiry is the target and no other PCZT is on record for it. |
| `PcztTheorems.RoleFailureCleansUp` | crates/zally-wallet/src/spend.rs:463-475 | A failed prove or sign goes to cleanup with the role's error. |
| `PcztTheorems.SendCleanupDecides` | crates/zally-wallet/src/pczt.rs:107-125 | After cleanup a send answers with the role's error, or with the storage error if the cleanup failed. |
| `PcztTheorems.IdleActorServes` | crates/zally-storage/src/sqlite.rs:394-419 | An idle actor serves abandonments and extractions as their work items say. |
| `HoldLedger.Ledger.FindById` | crates/zally-storage/src/sqlite.rs:2238-2260 | Finds the row with a primary key if and only if there is one. |
| `HoldLedger.Ledger.CreateHold` | crates/zally-storage/src/sqlite.rs:2166-2236 | Conflict, overflow, shortage and duplicate-id answers and the inserted row, in the order the transaction checks them; primary keys stay unique. |
| `HoldLedger.Ledger.ReleaseHold` | crates/zally-storage/src/sqlite.rs:2238-2278 | Ends as `ReleaseTouchesOneRow` says: the row of the id is stamped once, finalized or not; an unknown id is an error and changes nothing. |
| `HoldLedger.Ledger.FinalizeHold` | crates/zally-storage/src/sqlite.rs:2280-2315 | Ends as `FinalizeTouchesOneRow` says: the row of the id takes the transaction once, an unknown id is an error and changes nothing. |
| `HoldStore.CreateHoldAddsAmount` | crates/zally-storage/src/sqlite.rs:2186-2236 | An insert raises its own account's active sum by its amount and no other's; a refusal leaves the table alone. |
| `HoldStore.ConflictExactly` | crates/zally-storage/src/sqlite.rs:2194-2196 | An insert is a conflict exactly when some row of its request is neither finalized nor released. |
| `HoldStore.InsertedRow` | crates/zally-storage/src/sqlite.rs:2209-2228 | An insert appends one active row that carries the record, its time clamped to i64 and its notes in a blob that reads back. |
| `HoldStore.RefusalTellsWhatFits` | crates/zally-storage/src/sqlite.rs:2198-2208 | The available figure of a shortage is exact: another amount falls short exactly when it exceeds that figure. |
| `HoldStore.ReleaseFreesAmount` | crates/zally-storage/src/sqlite.rs:2238-2278 | Releasing an active hold returns its amount to its account and nothing to any other. |
| `HoldStore.ReleaseTouchesOneRow` | crates/zally-storage/src/sqlite.rs:2238-2278 | A release changes no row but the id's, which keeps an earlier stamp or takes this one, clamped to i64. |
| `HoldStore.FinalizeTouchesOneRow` | crates/zally-storage/src/sqlite.rs:2280-2315 | A finalization changes no row but the id's, which keeps an earlier transaction id or takes this one. |
| `HoldStore.FinalizeFreesAmount` | crates/zally-storage/src/sqlite.rs:2280-2315 | Finalizing an active hold takes its amount out of its own account's active sum; nothing else changes any. |
| `HoldStore.UnknownHold` | crates/zally-storage/src/sqlite.rs:2238-2315 | Releasing or finalizing an unknown id is an error and changes nothing. |
| `HoldStore.ActivePairBound` | crates/zally-storage/src/sqlite.rs:3995-4017 | Two active rows of one account weigh no more than the account's active sum. |
| `DispenseProtocol.StepKeepsInv` | crates/zally-wallet/src/wallet.rs:411-494 | Every step of any reserve, release or finalize caller keeps the hold invariant and only grows the table. |
| `DispenseProtocol.GrossFollowsInserts` | crates/zally-storage/src/sqlite.rs:2186-2233 | An account's recorded figure changes only at a granted insert, to the figure that insert was checked against. |
| `DispenseProtocol.HoldSummary` | crates/zally-wallet/src/wallet.rs:837-846 | A hold's summary is the number of its notes and their sum, or zero if that is no amount of money. |
| `DispenseTheorems.NoOverReservation` | crates/zally-storage/src/sqlite.rs:2186-2233 | In every run an account's active sum is at most the gross spendable figure of its latest successful insert. |
| `DispenseTheorems.ActiveHoldsFitTogether` | crates/zally-wallet/src/wallet.rs:397-399 | Two holds active together fit together under that figure. |
| `DispenseTheorems.OneActiveRowPerRequest` | crates/zally-storage/src/sqlite.rs:2194-2196 | At most one row of a request id is active, and it is the latest inserted. |
| `DispenseTheorems.StampsWrittenOnce` | crates/zally-storage/src/sqlite.rs:2238-2315 | Rows are never removed, each stamp is written at most once, and inactivity is final. |
| `DispenseTheorems.GrantedHoldIsStored` | crates/zally-wallet/src/wallet.rs:411-494 | Every hold returned to a caller is a stored row with its id, keys and amount, and its summary is the number and sum of the notes stored with it. |
| `DispenseTheorems.LookupFindsActive` | crates/zally-storage/src/sqlite.rs:2317-2350 | The newest-row lookup is sure to return an active hold if and only if its timestamp exceeds that of every other row of the request. |
| `DispenseTheorems.IncreasingTimestampsSuffice` | crates/zally-storage/src/sqlite.rs:2317-2350 | Strictly increasing timestamps of a request's rows make the active row the strictly newest. |
| `DispenseTheorems.CallOnActiveHold` | crates/zally-wallet/src/wallet.rs:427-446 | A call that nothing disturbs and whose look-up answers with an active hold returns that hold, its notes and the figure of the named account, and writes nothing. |
| `DispenseTheorems.CallWithoutHold` | crates/zally-wallet/src/wallet.rs:448-494 | A call that nothing disturbs and whose look-up answers with nothing active goes on to the insert if and only if the amount is within the spendable view. |
| `DispenseTheorems.UndisturbedReservation` | crates/zally-wallet/src/wallet.rs:411-494 | Undisturbed, an amount within the spendable view is granted, as one new row, if and only if the notes sum to at most MAX_MONEY; otherwise the table is unchanged. |
| `DispenseTheorems.ReleasingNewHoldRestores` | crates/zally-wallet/src/wallet.rs:511-524 | Releasing a new hold restores the active sum it was granted under. |
| `DispenseTheorems.RepeatReturnsPriorHold` | crates/zally-wallet/src/wallet.rs:401-404 | An undisturbed repeat returns the prior hold and leaves storage unchanged when that hold is strictly newest. |
| `DispenseTheorems.RepeatFailsOtherwise` | crates/zally-wallet/src/wallet.rs:401-404 | When it is not, some look-up answer makes the undisturbed repeat fail although its prior hold is active. |
| `DispenseInterleaving.LookupDecides` | crates/zally-wallet/src/wallet.rs:427-433 | In any state, the look-up sends the call on to the hold it found if and only if that hold is active. |
| `DispenseInterleaving.ReserveDecides` | crates/zally-wallet/src/wallet.rs:421-425 | A call for zero is rejected at once; any other goes on to its look-up. |
| `DispenseInterleaving.SpendableIs` | crates/zally-wallet/src/wallet.rs:376-390 | The spendable view is the notes' sum less the active reservations, and zero if that is negative or no amount of money. |
| `DispenseInterleaving.RecordBrought` | crates/zally-wallet/src/wallet.rs:464-477 | The record brought to an insert carries the plan, the gross figure, and notes of the listing that cover the amount, as few as possible. |
| `DispenseInterleaving.OthersAreServed` | crates/zally-wallet/src/wallet.rs:518-539 | Releases and finalizations take effect in any state. |
| `DispenseInterleaving.ReadDecides` | crates/zally-wallet/src/wallet.rs:448-462 | In any state, the pre-check passes if and only if the amount is within the spendable view of that moment. |
| `DispenseInterleaving.InsertDecides` | crates/zally-storage/src/sqlite.rs:2194-2236 | In any state, the insert is a conflict if and only if a row of the request is active at that moment, a shortage if and only if none is and the active sum leaves too little, and otherwise adds one row. |
| `DispenseInterleaving.PriorHoldIsTheAnswer` | crates/zally-wallet/src/wallet.rs:427-446 | A call whose look-up found an active hold answers with that hold, or a storage failure, whatever other calls, releases and finalizations follow. |
| `DispenseInterleaving.NewHoldIsTheAnswer` | crates/zally-wallet/src/wallet.rs:448-494 | A call whose look-up found nothing active never answers with a hold that was in the table then, whatever follows. |
| `DispenseInterleaving.RepeatReturnsPriorInAnyRun` | crates/zally-wallet/src/wallet.rs:401-404 | If the active hold is strictly newest at the look-up, every continuation of the run has the repeat return it. |
| `DispenseInterleaving.RepeatMissesPriorInEveryRun` | crates/zally-wallet/src/wallet.rs:401-404 | If it is not, some look-up answer keeps every continuation of the run from returning it. |
| `DispenseExceptions.SameMillisecondReached` | crates/zally-storage/src/sqlite.rs:2317-2350 | Reserve, release and reserve again within one millisecond reaches such a state. |
| `DispenseExceptions.OverlapEndsInConflict` | crates/zally-wallet/src/wallet.rs:478-482 | Two overlapping calls of one request: the second ends in the conflict error although the first one's hold is active and strictly newest by then. |
| `DispenseExceptions.ReleaseOfInactive` | crates/zally-storage/src/sqlite.rs:2262-2270 | Releasing an inactive row leaves the table alone if and only if the row was released before. |
| `DispenseExceptions.FinalizedRowIsStamped` | crates/zally-storage/src/sqlite.rs:2262-2270 | Reserve, finalize, release: the finalized row ends with a release time. |
| `DispenseExceptions.RecordedFigureIsNet` | crates/zally-wallet/src/wallet.rs:473-474 | The figure a call brings to its insert is net of active holds if and only if there were none when it was read. |
| `DispenseExceptions.GrossFigureReached` | crates/zally-wallet/src/wallet.rs:473-474 | A second reservation from one note brings the whole note's value, not what is left of it. |
| `DispenseTheorems.AvailableAfterRelease` | crates/zally-wallet/src/wallet.rs:541-551 | The figure reported for an existing hold equals the spendable view after releasing it exactly when the hold is on the named account and its notes cover the active holds, exceeding them by at most MAX_MONEY. |
| `DispenseExceptions.RefusedWithinView` | crates/zally-wallet/src/wallet.rs:473-474 | With notes of one zatoshi more than MAX_MONEY, an amount within the spendable view is refused. |
| `DispenseExceptions.OtherAccountReached` | crates/zally-wallet/src/wallet.rs:434-436 | Reserve on one account and repeat the request naming another: the reported figure is not the other account's view after the release, whatever notes it has. |
| `NoteSelection.SelectLockedNotes` | crates/zally-wallet/src/wallet.rs:859-880 | The loop over the sorted candidates takes exactly the selection the theorems below describe. |
| `NoteSelection.SortEffect` | crates/zally-wallet/src/wallet.rs:863-864 | The sorted list is a descending permutation of the candidates. |
| `NoteSelection.SelectionCovers` | crates/zally-wallet/src/wallet.rs:859-880 | The selection is drawn from the candidates; if they cover the amount it covers it and falls short without its last note, otherwise it is all of them. |
| `NoteSelection.SelectionMinimal` | crates/zally-wallet/src/wallet.rs:859-880 | No choice of fewer candidates covers the amount. |
| `NoteSelection.PrefixIsHeaviest` | crates/zally-wallet/src/wallet.rs:859-880 | No sub-multiset outweighs the same number of leading notes. |
| `NoteSelection.SaturatingSumIs` | crates/zally-wallet/src/wallet.rs:837-852 | The saturating fold is the true sum, capped at u64::MAX. |
| `LockedNotes.EncodeLockedNotes` | crates/zally-storage/src/sqlite.rs:3874-3892 | The pushing loop writes the specified blob. |
| `LockedNotes.DecodeLockedNotes` | crates/zally-storage/src/sqlite.rs:3895-3974 | The cursor loop returns the specified notes or the first error. |
| `LockedNotes.BlobLayout` | crates/zally-storage/src/sqlite.rs:3860-3892 | The blob is the count and, note by note, a tag byte, the value, the transaction id and the output index, numbers big-endian. |
| `LockedNotes.DecodesExactly` | crates/zally-storage/src/sqlite.rs:3895-3974 | A blob decodes exactly when its length is the one its header tells and every record has a known tag and an amount of money; the two length errors carry what was found. |
| `LockedNotes.RecordsDecode` | crates/zally-storage/src/sqlite.rs:3926-3972 | The first record that does not read decides the error, its tag before its value. |
| `BigEndian.DecodeFront` | crates/zally-storage/src/sqlite.rs:3909-3909 | The first byte is the most significant. |
| `LockedNotes.NotesRoundTrip` | crates/zally-storage/src/sqlite.rs:3874-3974 | A note list decodes back to itself if and only if it has at most u32::MAX entries; a longer one gives a blob that does not decode. |
| `LockedNotes.BlobCanonical` | crates/zally-storage/src/sqlite.rs:3895-3974 | Every blob that decodes re-encodes to the same bytes. |
| `SpendLedger.Ledger.RecordPendingBroadcastInputs` | crates/zally-storage/src/sqlite.rs:1628-1678 | Upserts one row an input in one transaction, or nothing. |
| `SpendLedger.Ledger.ClearForMined` | crates/zally-storage/src/sqlite.rs:1796-1834 | Deletes in chunks of 900 ids; a chunk that fails leaves exactly the ids of the chunks before it removed. |
| `SpendLedger.Ledger.RecordIdempotentSubmission` | crates/zally-storage/src/sqlite.rs:1389-1431 | Binds a key once; a second transaction id is a conflict and changes nothing. |
| `SpendLedger.Ledger.SubmitStep` | crates/zally-wallet/src/spend.rs:606-640 | One loop step: records, then submits with the inputs already in the ledger, then clears on failure; succeeds exactly when nothing fails to record and the submitter takes the transaction under its own id. |
| `SpendLedger.Ledger.SubmitAndRecordPending` | crates/zally-wallet/src/spend.rs:596-648 | Succeeds exactly when there are transactions, all are recorded and all taken under their own ids; one submit call a step, in order, with its inputs recorded; earlier steps stay recorded, the failed one is cleared, all else is untouched; the first result or the failing step's error is returned. |
| `SpendStore.ResolvesExactly` | crates/zally-wallet/src/spend.rs:723-747 | An outcome resolves to success exactly when it is accepted, duplicate or queued under the expected id; each other outcome has its own error. |
| `SpendStore.BindDecides` | crates/zally-storage/src/sqlite.rs:1389-1431 | Binding succeeds when the key is free or bound to the same transaction; a conflict changes nothing. |
| `SpendStore.ExpiredEffect` | crates/zally-storage/src/sqlite.rs:1836-1856 | The expiry sweep removes exactly the rows recorded before the limit. |
| `SpendStore.RecordedExactly` | crates/zally-storage/src/sqlite.rs:1628-1678 | With distinct outpoints each input's row carries its own value and the shared stamp, and no other row is added. |
| `SpendProtocol.StepKeepsInv` | crates/zally-wallet/src/spend.rs:596-677 | Every step of any send or shield, every crash and every sweep keeps the ledger invariant. |
| `SpendTheorems.SubmitSeesLedger` | crates/zally-wallet/src/spend.rs:589-622 | At every submit call the transaction's inputs are in the ledger, unless the sync loop swept that broadcast. |
| `SpendTheorems.LedgerMatchesProgress` | crates/zally-wallet/src/spend.rs:596-677 | Wherever a call stands, ends or crashes: rows for earlier steps, none for later ones, none for a failed step whose clear worked. |
| `SpendTheorems.OthersLeaveRows` | crates/zally-wallet/src/spend.rs:596-677 | Other calls and crashes leave a call's rows untouched. |
| `SpendTheorems.BindingIsForever` | crates/zally-storage/src/sqlite.rs:1389-1431 | Once bound, a key keeps its transaction id in every continuation of the run. |
| `SpendTheorems.OksAgree` | crates/zally-wallet/src/spend.rs:359-420 | All successful calls with one key, concurrent or not, name the bound transaction. |
| `SpendTheorems.LaterCallsReplay` | crates/zally-wallet/src/spend.rs:359-378 | A call that starts after its key is bound submits nothing and, if it succeeds, names the bound transaction. |
| `SpendTheorems.RefusedSubmitNeverEndsOk` | crates/zally-wallet/src/spend.rs:625-641 | After a submit call that is rejected, fails or names another id, no continuation ends the call in Ok; its clear removes the rows and answers with that outcome's error. |
| `SpendTheorems.LookupReplays` | crates/zally-wallet/src/spend.rs:359-378 | A look-up that finds its key bound answers with the bound transaction. |
| `SpendTheorems.PaymentBegun` | crates/zally-wallet/src/spend.rs:380-410 | A call whose key is free goes on to submit what was prepared; with nothing prepared it is rejected. |
| `SpendTheorems.UndisturbedPayment` | crates/zally-wallet/src/spend.rs:345-433 | A payment of any number of transactions, all accepted and undisturbed, ends with the first one and binds its key to it. |
| `SpendTheorems.CrashStopsCalls` | crates/zally-wallet/src/spend.rs:589-592 | A crash stops every running call and leaves both ledgers. |
| `SpendTheorems.SweepsTakeRows` | crates/zally-storage/src/sqlite.rs:1796-1856 | The sync loop's sweeps take exactly the rows of mined broadcasts, or of those recorded before the limit. |
| `Retry.WithRetry` | crates/zally-wallet/src/retry.rs:145-184 | At most max(1, max_attempts) calls; every one but the last failed retryably or restartably; a final such failure has used up the attempts; sleeps one less than calls, the first the initial backoff, each later one the scaled and capped one before. |
| `Retry.BackoffIsExact` | crates/zally-wallet/src/retry.rs:175-180 | The sleeps start with the initial backoff and follow the multiplier in tenths, rounded down and capped. |
| `Retry.BackoffNeverSaturates` | crates/zally-wallet/src/retry.rs:176-180 | The u64 product never saturates, so the backoff is exact. |
| `Retry.TotalDelayBound` | crates/zally-wallet/src/retry.rs:145-184 | All sleeps of a run together last at most the initial backoff plus one capped sleep for each further one. |
| `Retry.DelaysNeverShrink` | crates/zally-wallet/src/retry.rs:176-180 | With a multiplier of at least 1.0 and an initial backoff within the cap, delays never shrink. |
| `CircuitBreaker.Breaker.AllowCall` | crates/zally-wallet/src/circuit_breaker.rs:109-122 | Closed and half-open admit; open admits, turning half-open, exactly when the cooldown has passed since it opened. |
| `CircuitBreaker.Breaker.RecordFailure` | crates/zally-wallet/src/circuit_breaker.rs:136-159 | Counts below the threshold, opens at it, reopens from half-open. |
| `CircuitBreaker.Breaker.WithBreakerAndRetry` | crates/zally-wallet/src/retry.rs:199-229 | Refuses without calling when open; otherwise every attempt but the last failed retryably or restartably, and success closes the breaker, a retryable end counts as a failure, any other end is ignored. |
| `BreakerHistory.AdmissionByStreak` | crates/zally-wallet/src/circuit_breaker.rs:109-159 | However calls overlap, one is admitted exactly when the streak of tripping failures is below the threshold or the cooldown has passed since the last of them; the closed counter is that streak. |
| `BreakerHistory.EssentialDecides` | crates/zally-wallet/src/retry.rs:186-229 | Histories of overlapping calls with the same successes and tripping failures decide every later request alike. |
| `BreakerHistory.ErasureUnderOverlap` | crates/zally-wallet/src/retry.rs:186-229 | Erasing every admission request and non-tripping failure of overlapping calls changes no decision. |
| `BreakerHistory.SequentialIsOverlap` | crates/zally-wallet/src/retry.rs:199-229 | A sequential history is one such history, with the same state, streak and last trip. |
| `BreakerHistory.BreakerMeetsReference` | crates/zally-wallet/src/retry.rs:199-229 | For calls one after another the breaker admits exactly when a reference without states does, which counts admitted calls only; its closed counter is that streak. |
| `BreakerHistory.ErasureChangesNoDecision` | crates/zally-wallet/src/retry.rs:186-229 | For calls one after another, erasing all that end in a non-tripping failure changes no decision on the remaining or later calls. |
| `BreakerHistory.ClosedCounterBound` | crates/zally-wallet/src/circuit_breaker.rs:136-159 | Under any overlap of calls the closed counter stays below the threshold. |
| `UtxoRefresh.UtxoStore.RecordTransparentUtxos` | crates/zally-storage/src/sqlite.rs:709-739 | Answers as the commit specification; on success rows of distinct outpoints are in the table as they are and no other entry changes, on failure nothing changes. |
| `UtxoRefresh.PutAllHolds` | crates/zally-storage/src/sqlite.rs:726-735 | Rows of distinct outpoints are in the table afterwards as they are, and no other entry changes. |
| `UtxoRefresh.CommitSucceedsExactly` | crates/zally-storage/src/sqlite.rs:709-739 | A commit succeeds, with its number of rows, exactly when the frontier is at or above a pinned floor, every output is recognised and the storage fails nowhere. |
| `UtxoRefresh.CommitErrors` | crates/zally-storage/src/sqlite.rs:709-739 | A storage failure at any stage reached is a storage error; a bad row gives that row's error. |
| `UtxoRefresh.RowsFaultExactly` | crates/zally-storage/src/sqlite.rs:728-733 | The first row that is not recognised, or whose put fails, decides. |
| `UtxoRefresh.ValidateTransparentUtxoBatch` | crates/zally-wallet/src/transparent_utxo_refresh.rs:229-279 | Returns the rows and the grown seen set, or the first UTXO's fault in the order of the checks. |
| `UtxoRefresh.FaultlessIsValid` | crates/zally-wallet/src/transparent_utxo_refresh.rs:229-279 | A batch has no fault exactly when all of it is at or below the tip, of the receiver's script, and no outpoint was seen before or occurs twice. |
| `UtxoRefresh.FaultNamesFirst` | crates/zally-wallet/src/transparent_utxo_refresh.rs:236-270 | The fault is that of the first UTXO above the tip, else seen before or earlier in the batch, else of another script. |
| `UtxoRefresh.RefreshTransparentUtxos` | crates/zally-wallet/src/transparent_utxo_refresh.rs:74-148 | Commits a prefix of the receivers, each batch valid and under a frontier at or above the pinned floor; every committed row is in the table as reported and no other entry changes; an error is exactly the one its visit, or the reads before the first, end in. |
| `UtxoRefresh.VisitDecides` | crates/zally-wallet/src/transparent_utxo_refresh.rs:96-131 | A visit ends with the source's failure, the batch's fault, or as its commit does. |
| `UtxoRefresh.RecededExactly` | crates/zally-wallet/src/transparent_utxo_refresh.rs:53-56 | A visit ends with a receded frontier, naming floor and frontier, exactly when the source answered, the batch was valid, the storage could read the frontier, and it lay below the floor. |
| `UtxoRefresh.NoOutpointTwice` | crates/zally-wallet/src/transparent_utxo_refresh.rs:222-228 | No outpoint is committed twice in one walk. |
| `UtxoRefresh.RepeatedWalkIsIdempotent` | crates/zally-wallet/src/transparent_utxo_refresh.rs:48-51 | Committing a prefix of one commit list and then the whole of it ends where committing the whole ends. |
| `UtxoRefresh.SecondWalkDecides` | crates/zally-wallet/src/transparent_utxo_refresh.rs:48-51 | For the commits of any two walks, the second ends where it would have ended alone if and only if what only the first wrote was in the table already. |
| `PcztUpdater.CommitHeights` | crates/zally-pczt/src/updater.rs:80-125 | Committing any number of heights and finishing gives the bytes rewritten with the last one, or unchanged with none. |
| `PcztUpdater.Updater.Finish` | crates/zally-pczt/src/updater.rs:94-125 | Returns the bytes untouched when nothing is pending, an error on a short or unreadable PCZT, otherwise the rewritten bytes on the same network. |
| `UpdaterSpec.GlobalRoundTrip` | crates/zally-pczt/src/updater.rs:36-48 | The written global section reads back as itself and leaves the tail. |
| `UpdaterSpec.GlobalLayout` | crates/zally-pczt/src/updater.rs:36-48 | The section is its fields in order, each in its own format. |
| `UpdaterSpec.FinishDecides` | crates/zally-pczt/src/updater.rs:94-125 | Finishing without a height is free; with one, fewer than eight bytes or an unreadable body is an error and anything else succeeds. |
| `UpdaterSpec.FinishRewritesExpiry` | crates/zally-pczt/src/updater.rs:94-125 | On header, serialised global section and tail, finishing gives the same with only the expiry height replaced. |
| `UpdaterSpec.GlobalUnambiguous` | crates/zally-pczt/src/updater.rs:30-48 | No other global section and tail make the same bytes. |
| `UpdaterSpec.GlobalTaken` | crates/zally-pczt/src/updater.rs:36-48 | Whatever reads, canonical or not, is a well-formed section in front of a suffix and is rewritten in no more bytes. |
| `UpdaterSpec.FieldsSurvive` | crates/zally-pczt/src/updater.rs:94-125 | Every accepted input keeps its header, tail and all other global fields and reads back with the new height. |
| `UpdaterSpec.LastHeightWins` | crates/zally-pczt/src/updater.rs:80-125 | Updating twice equals updating once with the last height; the height never decides success. |
| `UpdaterSpec.SameHeightIdentity` | crates/zally-pczt/src/updater.rs:94-125 | Rewriting the height already there is the identity exactly when the section is in the writer's form; it never lengthens the bytes. |
| `Postcard.VarintRoundTrip` | crates/zally-pczt/src/updater.rs:36-48 | Every value in range reads back from its varint, whatever follows. |
| `Postcard.VarintTaken` | crates/zally-pczt/src/updater.rs:36-48 | A varint that reads, padded or not, is in range and no shorter than the written form. |
| `Postcard.VarintReads` | crates/zally-pczt/src/updater.rs:36-48 | A varint reads exactly when it ends within its width and its last byte fits, and has the value of its groups. |
| `Postcard.VarintWritten` | crates/zally-pczt/src/updater.rs:36-48 | The written varint has the value of its groups, ends in its last byte, and has no needless zero group. |
| `Postcard.OptionLayout` | crates/zally-pczt/src/updater.rs:36-48 | An option is tag zero, or tag one and the number; no other tag reads. |
| `Postcard.BytesLayout` | crates/zally-pczt/src/updater.rs:36-48 | A byte string is its length and its bytes; text reads only as UTF-8. |
| `Postcard.EntryLayout` | crates/zally-pczt/src/updater.rs:36-48 | A map entry is its key and its value, each behind its length. |
| `Postcard.LessExactly` | crates/zally-pczt/src/updater.rs:36-48 | Keys are in bytewise lexicographic order. |
| `Postcard.LastEntryWins` | crates/zally-pczt/src/updater.rs:36-48 | A map reads whenever its entries do, and a repeated key's last entry gives its value. |
| `Utf8.ValidExactly` | crates/zally-pczt/src/updater.rs:36-48 | Exactly the UTF-8 encodings of sequences of scalar values are text. |
| `Postcard.MapRoundTrip` | crates/zally-pczt/src/updater.rs:36-48 | A sorted text-keyed map reads back as itself. |
| `Postcard.MapTaken` | crates/zally-pczt/src/updater.rs:36-48 | Entries in any order and with repeats read as a sorted map that is written in no more bytes. |
| `IntentHash.Compute` | crates/zally-core/src/intent_hash.rs:102-124 | Succeeds exactly when all text fields fit, hashing the preimage; otherwise names the first field too long and its length. |
| `IntentHash.WriteLenPrefixed` | crates/zally-core/src/intent_hash.rs:200-205 | Feeds the 16-bit length, then the bytes. |
| `IntentSpec.TooLongExactly` | crates/zally-core/src/intent_hash.rs:184-194 | An input is refused exactly when a text field has more than 65,535 bytes; the first such field is named. |
| `IntentSpec.PreimageLayout` | crates/zally-core/src/intent_hash.rs:9-21 | The hashed bytes: the separator's text and the fields in order, lengths in two and numbers in eight big-endian bytes, the unit in one. |
| `IntentSpec.PrefixedInjective` | crates/zally-core/src/intent_hash.rs:23-24 | A length-prefixed field and its tail are determined by their bytes. |
| `IntentSpec.PreimageInjective` | crates/zally-core/src/intent_hash.rs:102-124 | Inputs whose text fields fit and whose preimages are equal agree in all seven fields. |
| `IntentSpec.WireStringBijection` | crates/zally-core/src/intent_hash.rs:134-174 | Every digest reads back from its wire string, and a string parses to a digest exactly when it is that digest's rendering. |
| `IntentSpec.WireStringErrors` | crates/zally-core/src/intent_hash.rs:154-174 | A string without the version prefix is an unsupported version; after it, anything but thirty-two bytes is an invalid payload. |
| `IntentSpec.WireStringBindsInput` | crates/zally-core/src/intent_hash.rs:102-174 | Equal wire strings mean equal inputs or a hash collision. |
| `Base64Url.EncodeThenDecode` | crates/zally-core/src/intent_hash.rs:143-143 | Every byte string reads back from its text. |
| `Base64Url.DecodeThenEncode` | crates/zally-core/src/intent_hash.rs:161-166 | Every text that reads is the encoding of what it reads to: no padding, no stray pad bits. |
| `Base64Url.DigitOfAlphabet` | crates/zally-core/src/intent_hash.rs:143-143 | The digits are those of the URL-safe alphabet, in order. |
| `Base64Url.SplitLayout` | crates/zally-core/src/intent_hash.rs:143-143 | Group by group the digits spell the bytes, leftover bytes followed by zero bits. |
| `RpcHex.DecodeToSlice` | crates/zally-core/src/hash_hex.rs:84-84 | Fills the buffer exactly when all characters are hex digits; otherwise reports the first that is not. |
| `RpcHexSpec.DigitTables` | crates/zally-core/src/hash_hex.rs:84-84 | The digits are 0 to 9 and a to f, in either case when read and lower case when written. |
| `RpcHex.DecodeRpcHex` | crates/zally-core/src/hash_hex.rs:76-87 | Succeeds exactly on 64 hex characters, giving the bytes they spell from last to first; wrong lengths and the first bad character are reported. |
| `RpcHex.EncodeRpcHex` | crates/zally-core/src/hash_hex.rs:98-102 | Renders each byte, from last to first, as its two lower-case digits. |
| `RpcHex.RenderThenRead` | crates/zally-core/src/hash_hex.rs:76-102 | Decoding a rendering restores the 32 bytes. |
| `RpcHex.ReadThenRender` | crates/zally-core/src/hash_hex.rs:76-102 | Rendering a decoded text gives its lower-case form. |
| `RpcHexSpec.SpellsOnce` | crates/zally-core/src/hash_hex.rs:76-102 | A text spells at most one byte string. |
| `RpcHexSpec.SpellingsDifferInCase` | crates/zally-core/src/hash_hex.rs:76-102 | Two texts of one byte string differ in letter case only. |

## Left out

- SQLite, tokio, gRPC, file and tracing detail: storage failures appear as one error at the
  points where the code can meet them.
- librustzcash's selection, fees, scanning, proving, signing and key derivation, beyond the
  contracts under Assumptions.
- The state before a wallet database is opened, and a panicking or closed actor.
- The payment and shielding preparation of the default send path: it uses the same failure
  cleanup as PCZT creation and leaves no pending rows.
- Argument checks made before any storage step (recipient, memo, network, stale target expiry,
  unparsable PCZT bytes): no state is involved.
- Pool codes of pending rows and the order in which the rows of an owner are read; the release
  does not depend on it.
- Cancellation of a target-expiry send in mid-flight: its locks then wait for abandonment or
  expiry, which `ReturnedKeepsInputs` and `AbandonCompletes` describe.
- The count of removed rows that clearing returns.
- The clamp of ledger timestamps and values to i64 outside the hold table.
- SpendLedger.Ledger.Submit: stands for the submission through breaker and retries as a whole,
  so several attempts at one transaction count as one submit call, and a call the open breaker
  refuses counts too.
- SpendTheorems.OksAgree: does not say that two concurrent sends with one key submit once,
  because both may pass the look-up and submit; only the answers they return agree.
- SpendTheorems.LedgerMatchesProgress: does not say that an accepted broadcast keeps its rows
  when the submit reply is lost, because the error path clears them.
- BreakerHistory.BreakerMeetsReference: is about calls one after another;
  `AdmissionByStreak` covers any overlap.
- CircuitBreaker.Breaker.WithBreakerAndRetry: takes the breaker as untouched by others between
  admission and record; `AdmissionByStreak` and `ErasureUnderOverlap` cover any overlap.
- UTXO rows written by other loops during a refresh walk. Pinning the epoch, reading the
  frontier and listing receivers before the first visit are one read that may fail.
- Postcard.TakeEntries: lengths are 64-bit, as on the platforms the wallet supports; a length
  near that bound would first exhaust memory in a process.
- The direct extract-and-submit path, projections of rows to public types, posture tables,
  payment disclosure, ZIP-321 URIs, seed sealing and the test kit.
- The hex fallback of the wire string when the serde feature is off: it has no parser.
- find_hold_by_request_id's choice among equal timestamps is left open, as SQLite leaves it.
