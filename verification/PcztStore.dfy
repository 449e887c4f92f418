// The wallet database as the PCZT paths see it: librustzcash's input-lock table, the
// pending-input rows, the spends of stored transactions and the finalized PCZTs.
// Every operation is a function from store to store; WalletDb performs the same
// operations in place.
module PcztStore {
  import opened Prelude

  // 32 random bytes drawn for each proposal.
  type LockOwner = nat

  datatype Pool = Transparent | Sapling | Orchard | Ironwood

  datatype OutputRef = OutputRef(txId: TxId, pool: Pool, outputIndex: U32)

  datatype Lock = Lock(owner: LockOwner, expiresAt: nat)

  datatype PendingRow = PendingRow(owner: LockOwner, input: OutputRef)

  // The lock-owner entry of a PCZT's proprietary map: absent on a foreign PCZT,
  // malformed when it is not 32 bytes long.
  datatype OwnerToken = Absent | Malformed(byteCount: nat) | Owner(owner: LockOwner)

  datatype Pczt = Pczt(token: OwnerToken, inputs: seq<OutputRef>, txId: TxId, expiryHeight: U32)

  datatype StorageError =
    | ProposalBuildFailed
    | SqliteFailed
    | PcztLockOwnerMissing
    | PcztLockOwnerMalformed(byteCount: nat)
    | FinalizedPcztConflict(txId: TxId)
    | BlockingTaskFailed

  datatype Store = Store(
    locks: map<OutputRef, Lock>,
    pending: seq<PendingRow>,
    spent: set<OutputRef>,
    finalized: map<TxId, Pczt>,
    height: nat)

  // PROPOSAL_INPUT_LOCK_BLOCKS
  const LOCK_BLOCKS: nat := 100

  // An output the upstream selector may lock: unspent, and unlocked or locked until a
  // height the chain has reached.
  ghost predicate Free(s: Store, x: OutputRef) {
    x !in s.spent && (x !in s.locks || s.locks[x].expiresAt <= s.height)
  }

  // ---- lock table (upstream contract) ----

  function Acquire(s: Store, owner: LockOwner, inputs: seq<OutputRef>): Store {
    s.(locks := s.locks + map x | x in inputs :: Lock(owner, s.height + LOCK_BLOCKS))
  }

  function UnlockOutput(locks: map<OutputRef, Lock>, x: OutputRef, owner: LockOwner): map<OutputRef, Lock> {
    if x in locks && locks[x].owner == owner then locks - {x} else locks
  }

  function UnlockAll(locks: map<OutputRef, Lock>, xs: seq<OutputRef>, owner: LockOwner): map<OutputRef, Lock> {
    if xs == [] then locks
    else UnlockOutput(UnlockAll(locks, xs[..|xs| - 1], owner), xs[|xs| - 1], owner)
  }

  // ---- pending rows ----

  function FindPending(rows: seq<PendingRow>, owner: LockOwner): seq<OutputRef> {
    if rows == [] then []
    else
      var front := FindPending(rows[..|rows| - 1], owner);
      var last := rows[|rows| - 1];
      if last.owner == owner then front + [last.input] else front
  }

  function DeletePending(rows: seq<PendingRow>, owner: LockOwner): seq<PendingRow> {
    if rows == [] then []
    else
      var front := DeletePending(rows[..|rows| - 1], owner);
      var last := rows[|rows| - 1];
      if last.owner == owner then front else front + [last]
  }

  function RowsFor(owner: LockOwner, inputs: seq<OutputRef>): seq<PendingRow> {
    seq(|inputs|, i requires 0 <= i < |inputs| => PendingRow(owner, inputs[i]))
  }

  // The primary key (owner, output) admits these inserts.
  predicate Insertable(rows: seq<PendingRow>, owner: LockOwner, inputs: seq<OutputRef>) {
    && (forall i, j :: 0 <= i < j < |inputs| ==> inputs[i] != inputs[j])
    && (forall x :: x in inputs ==> PendingRow(owner, x) !in rows)
  }

  // Where an I/O failure strikes a release, if anywhere.
  datatype ReleaseFault = NoFault | UnlockFails(at: nat) | DeleteFails

  function Release(s: Store, owner: LockOwner, fault: ReleaseFault): (Store, Result<(), StorageError>) {
    var xs := FindPending(s.pending, owner);
    if fault.UnlockFails? && fault.at < |xs| then
      (s.(locks := UnlockAll(s.locks, xs[..fault.at], owner)), Err(SqliteFailed))
    else
      var s1 := s.(locks := UnlockAll(s.locks, xs, owner));
      if fault.DeleteFails? then (s1, Err(SqliteFailed))
      else (s1.(pending := DeletePending(s.pending, owner)), Ok(()))
  }

  // ---- PCZT creation ----

  // What the upstream builder does with one creation request: the fresh owner it draws,
  // the inputs its proposal locks (or a proposal failure), whether building fails
  // afterwards, and after how many unlocks the failure cleanup breaks, if it does.
  datatype Creation = Creation(
    owner: LockOwner,
    proposal: Result<Pczt, StorageError>,
    buildError: Option<StorageError>,
    unlockFault: Option<nat>)

  function FailCreation(s: Store, cr: Creation, inputs: seq<OutputRef>, error: StorageError)
    : (Store, Result<Pczt, StorageError>)
  {
    if cr.unlockFault.Some? && cr.unlockFault.value < |inputs| then
      (s.(locks := UnlockAll(s.locks, inputs[..cr.unlockFault.value], cr.owner)), Err(SqliteFailed))
    else
      (s.(locks := UnlockAll(s.locks, inputs, cr.owner)), Err(error))
  }

  function CreatePczt(s: Store, cr: Creation): (Store, Result<Pczt, StorageError>) {
    match cr.proposal
    case Err(e) => (s, Err(e))
    case Ok(draft) =>
      var locked := Acquire(s, cr.owner, draft.inputs);
      if cr.buildError.Some? then FailCreation(locked, cr, draft.inputs, cr.buildError.value)
      else if !Insertable(s.pending, cr.owner, draft.inputs) then
        FailCreation(locked, cr, draft.inputs, SqliteFailed)
      else
        (locked.(pending := s.pending + RowsFor(cr.owner, draft.inputs)),
         Ok(draft.(token := Owner(cr.owner))))
  }

  // ---- extraction and abandonment ----

  // Which stage of an extraction fails, if any.
  datatype ExtractFault = NoExtractFault | ExtractFails | ReadBackFails | DeleteRowsFails

  function StoreTransaction(s: Store, p: Pczt): Store {
    s.(spent := s.spent + (set x | x in p.inputs), locks := s.locks - (set x | x in p.inputs))
  }

  function ExtractPczt(s: Store, p: Pczt, fault: ExtractFault): (Store, Result<TxId, StorageError>) {
    if p.token.Malformed? then (s, Err(PcztLockOwnerMalformed(p.token.byteCount)))
    else if fault.ExtractFails? then (s, Err(SqliteFailed))
    else
      var stored := StoreTransaction(s, p);
      if fault.ReadBackFails? then (stored, Err(SqliteFailed))
      else if p.txId in s.finalized && s.finalized[p.txId] != p then
        (stored, Err(FinalizedPcztConflict(p.txId)))
      else
        var recorded := stored.(finalized := s.finalized[p.txId := p]);
        if p.token.Absent? then (recorded, Ok(p.txId))
        else if fault.DeleteRowsFails? then (recorded, Err(SqliteFailed))
        else (recorded.(pending := DeletePending(s.pending, p.token.owner)), Ok(p.txId))
  }

  function AbandonPczt(s: Store, p: Pczt, fault: ReleaseFault): (Store, Result<(), StorageError>) {
    match p.token
    case Absent => (s, Err(PcztLockOwnerMissing))
    case Malformed(n) => (s, Err(PcztLockOwnerMalformed(n)))
    case Owner(o) => Release(s, o, fault)
  }

  // ---- what an owner holds ----

  ghost function LocksOf(s: Store, o: LockOwner): set<OutputRef> {
    set x | x in s.locks && s.locks[x].owner == o
  }

  ghost function RowsOf(s: Store, o: LockOwner): set<OutputRef> {
    set r | r in s.pending && r.owner == o :: r.input
  }

  ghost function InputSet(xs: seq<OutputRef>): set<OutputRef> { set x | x in xs }

  // s2 keeps the lock entries and rows of every owner but o.
  ghost predicate OnlyTouches(s1: Store, s2: Store, o: LockOwner) {
    && (forall x :: x in s1.locks && s1.locks[x].owner != o ==> x in s2.locks && s2.locks[x] == s1.locks[x])
    && (forall x :: x in s2.locks ==> x in s1.locks && s2.locks[x] == s1.locks[x])
    && (forall r :: r in s1.pending && r.owner != o ==> r in s2.pending)
    && (forall r :: r in s2.pending ==> r in s1.pending)
    && s1.spent == s2.spent && s1.finalized == s2.finalized && s1.height == s2.height
  }

  lemma {:induction false} UnlockAllEffect(locks: map<OutputRef, Lock>, xs: seq<OutputRef>, o: LockOwner)
    ensures forall x :: x in UnlockAll(locks, xs, o) <==> x in locks && !(x in xs && locks[x].owner == o)
    ensures forall x :: x in UnlockAll(locks, xs, o) ==> UnlockAll(locks, xs, o)[x] == locks[x]
  {
    if xs != [] {
      UnlockAllEffect(locks, xs[..|xs| - 1], o);
      assert xs == xs[..|xs| - 1] + [xs[|xs| - 1]];
    }
  }

  lemma {:induction false} FindPendingEffect(rows: seq<PendingRow>, o: LockOwner)
    ensures forall x :: x in FindPending(rows, o) <==> PendingRow(o, x) in rows
  {
    if rows != [] {
      FindPendingEffect(rows[..|rows| - 1], o);
      assert rows == rows[..|rows| - 1] + [rows[|rows| - 1]];
    }
  }

  lemma {:induction false} DeletePendingEffect(rows: seq<PendingRow>, o: LockOwner)
    ensures forall r :: r in DeletePending(rows, o) <==> r in rows && r.owner != o
    ensures FindPending(DeletePending(rows, o), o) == []
    ensures DeletePending(DeletePending(rows, o), o) == DeletePending(rows, o)
  {
    if rows != [] {
      DeletePendingEffect(rows[..|rows| - 1], o);
      var front, last := DeletePending(rows[..|rows| - 1], o), rows[|rows| - 1];
      assert rows == rows[..|rows| - 1] + [last];
      if last.owner != o {
        assert (front + [last])[..|front|] == front;
      }
    }
  }

  // A release touches its own owner only, even where an output listed for it has since
  // been locked by someone else; it succeeds in full or keeps every row.
  lemma ReleaseEffect(s: Store, o: LockOwner, fault: ReleaseFault)
    ensures var (s', r) := Release(s, o, fault);
      && OnlyTouches(s, s', o)
      && (r.Ok? ==> RowsOf(s', o) == {} && LocksOf(s', o) == LocksOf(s, o) - RowsOf(s, o))
      && (r.Err? ==> s'.pending == s.pending && LocksOf(s', o) <= LocksOf(s, o))
  {
    var xs := FindPending(s.pending, o);
    FindPendingEffect(s.pending, o);
    DeletePendingEffect(s.pending, o);
    UnlockAllEffect(s.locks, xs, o);
    if fault.UnlockFails? && fault.at < |xs| {
      UnlockAllEffect(s.locks, xs[..fault.at], o);
    }
  }

  // Repeating a release that went through changes nothing.
  lemma ReleaseIdempotent(s: Store, o: LockOwner, fault: ReleaseFault)
    requires Release(s, o, fault).1.Ok?
    ensures Release(Release(s, o, fault).0, o, NoFault) == (Release(s, o, fault).0, Ok(()))
  {
    DeletePendingEffect(s.pending, o);
  }

  // A release that failed part way is completed by a later fault-free one: together they
  // do what a single undisturbed release would have done.
  lemma ReleaseRetryCompletes(s: Store, o: LockOwner, fault: ReleaseFault)
    ensures Release(s, o, fault).1.Err? ==>
      Release(Release(s, o, fault).0, o, NoFault) == Release(s, o, NoFault)
  {
    var xs := FindPending(s.pending, o);
    var first := Release(s, o, fault).0.locks;
    UnlockAllEffect(s.locks, xs, o);
    UnlockAllEffect(first, xs, o);
    if fault.UnlockFails? && fault.at < |xs| {
      UnlockAllEffect(s.locks, xs[..fault.at], o);
    }
    assert Release(s, o, fault).1.Err? ==> UnlockAll(first, xs, o) == UnlockAll(s.locks, xs, o);
  }

  // s2 came from s1 by locking outputs for o: other owners keep their rows and every lock
  // that had not expired, and gain none.
  ghost predicate LocksOnlyFor(s1: Store, s2: Store, o: LockOwner) {
    && (forall x :: x in s2.locks && s2.locks[x].owner != o ==> x in s1.locks && s1.locks[x] == s2.locks[x])
    && (forall x :: x in s1.locks && s1.height < s1.locks[x].expiresAt ==> x in s2.locks && s2.locks[x] == s1.locks[x])
    && (forall r: PendingRow :: r.owner != o ==> (r in s1.pending <==> r in s2.pending))
    && s2.spent == s1.spent && s2.finalized == s1.finalized && s2.height == s1.height
  }

  ghost predicate Fresh(s: Store, o: LockOwner) {
    && (forall x :: x in s.locks ==> s.locks[x].owner != o)
    && (forall r :: r in s.pending ==> r.owner != o)
  }

  // The upstream selector locks free outputs only, under an owner never drawn before.
  ghost predicate Selectable(s: Store, cr: Creation) {
    && Fresh(s, cr.owner)
    && (cr.proposal.Ok? ==> forall x :: x in cr.proposal.value.inputs ==> Free(s, x))
  }

  lemma RowsForEffect(o: LockOwner, inputs: seq<OutputRef>)
    ensures forall r: PendingRow :: r in RowsFor(o, inputs) <==> r.owner == o && r.input in inputs
  {
    var rows := RowsFor(o, inputs);
    forall r: PendingRow | r.owner == o && r.input in inputs ensures r in rows {
      var i :| 0 <= i < |inputs| && inputs[i] == r.input;
      assert rows[i] == r;
    }
  }

  lemma FailCreationEffect(s: Store, cr: Creation, error: StorageError)
    requires Selectable(s, cr) && cr.proposal.Ok?
    ensures var inputs := cr.proposal.value.inputs;
      var s' := FailCreation(Acquire(s, cr.owner, inputs), cr, inputs, error).0;
      && LocksOnlyFor(s, s', cr.owner)
      && s'.pending == s.pending
      && (cr.unlockFault.None? || cr.unlockFault.value >= |cr.proposal.value.inputs| ==> LocksOf(s', cr.owner) == {})
  {
    var inputs := cr.proposal.value.inputs;
    var locked := Acquire(s, cr.owner, inputs);
    UnlockAllEffect(locked.locks, inputs, cr.owner);
    if cr.unlockFault.Some? && cr.unlockFault.value < |inputs| {
      UnlockAllEffect(locked.locks, inputs[..cr.unlockFault.value], cr.owner);
    }
  }

  // A creation under a fresh owner either succeeds, holding locks and rows on exactly its
  // inputs, or (cleanup succeeding) holds nothing. It only displaces locks that expired.
  lemma CreatePcztEffect(s: Store, cr: Creation)
    requires Selectable(s, cr)
    ensures var (s', r) := CreatePczt(s, cr);
      && LocksOnlyFor(s, s', cr.owner)
      && (r.Ok? ==>
            && cr.proposal.Ok?
            && r.value == cr.proposal.value.(token := Owner(cr.owner))
            && LocksOf(s', cr.owner) == RowsOf(s', cr.owner) == InputSet(r.value.inputs)
            && (forall x :: x in r.value.inputs ==>
                  x in s'.locks && s'.locks[x] == Lock(cr.owner, s.height + 100)))
      && (r.Err? ==> RowsOf(s', cr.owner) == {})
      && (r.Err? && (cr.proposal.Err? || cr.unlockFault.None? || cr.unlockFault.value >= |cr.proposal.value.inputs|) ==>
            LocksOf(s', cr.owner) == {})
  {
    if cr.proposal.Ok? {
      var inputs := cr.proposal.value.inputs;
      if cr.buildError.Some? {
        FailCreationEffect(s, cr, cr.buildError.value);
      } else if !Insertable(s.pending, cr.owner, inputs) {
        FailCreationEffect(s, cr, SqliteFailed);
      } else {
        RowsForEffect(cr.owner, inputs);
        var s' := CreatePczt(s, cr).0;
        assert LocksOf(s', cr.owner) == InputSet(inputs);
        assert RowsOf(s', cr.owner) == InputSet(inputs) by {
          forall x | x in InputSet(inputs) ensures x in RowsOf(s', cr.owner) {
            assert PendingRow(cr.owner, x) in s'.pending;
          }
        }
      }
    }
  }

  // A creation succeeds if and only if the proposal and the build do and no input occurs
  // twice. Otherwise it answers with the proposal's error, or with that of the build or of
  // the repeated row, unless unlocking the inputs breaks off.
  lemma CreatePcztDecides(s: Store, cr: Creation)
    requires Selectable(s, cr)
    ensures var r := CreatePczt(s, cr).1;
      && (r.Ok? <==>
            && cr.proposal.Ok? && cr.buildError == None
            && forall i, j :: 0 <= i < j < |cr.proposal.value.inputs| ==>
                 cr.proposal.value.inputs[i] != cr.proposal.value.inputs[j])
      && (cr.proposal.Err? ==> CreatePczt(s, cr) == (s, Err(cr.proposal.error)))
      && (cr.proposal.Ok? && r.Err? ==>
            var breaks := cr.unlockFault.Some? && cr.unlockFault.value < |cr.proposal.value.inputs|;
            r.error == if breaks || cr.buildError == None then SqliteFailed else cr.buildError.value)
  {
    if cr.proposal.Ok? {
      var inputs := cr.proposal.value.inputs;
      assert forall x :: PendingRow(cr.owner, x) !in s.pending;
    }
  }

  // A release succeeds if and only if no unlock of a listed input and not the delete fails.
  lemma ReleaseDecides(s: Store, o: LockOwner, fault: ReleaseFault)
    ensures var r := Release(s, o, fault).1;
      && (r.Ok? <==> !(fault.UnlockFails? && fault.at < |FindPending(s.pending, o)|) && fault != DeleteFails)
      && (r.Err? ==> r.error == SqliteFailed)
  {
  }

  // A release that breaks off at an unlock has unlocked the inputs before it.
  lemma ReleaseBreaksOff(s: Store, o: LockOwner, at: nat)
    requires at < |FindPending(s.pending, o)|
    ensures var s' := Release(s, o, UnlockFails(at)).0;
      LocksOf(s', o) == LocksOf(s, o) - InputSet(FindPending(s.pending, o)[..at])
  {
    UnlockAllEffect(s.locks, FindPending(s.pending, o)[..at], o);
  }

  // Abandoning needs a token of 32 bytes, and is then a release for its owner.
  lemma AbandonDecides(s: Store, p: Pczt, fault: ReleaseFault)
    ensures p.token == Absent ==> AbandonPczt(s, p, fault) == (s, Err(PcztLockOwnerMissing))
    ensures p.token.Malformed? ==> AbandonPczt(s, p, fault) == (s, Err(PcztLockOwnerMalformed(p.token.byteCount)))
    ensures p.token.Owner? ==> AbandonPczt(s, p, fault) == Release(s, p.token.owner, fault)
  {
  }

  // A failure cleanup that breaks off leaves locked the inputs it did not reach.
  lemma CleanupBreaksOff(s: Store, cr: Creation, error: StorageError)
    requires Selectable(s, cr) && cr.proposal.Ok?
    requires cr.unlockFault.Some? && cr.unlockFault.value < |cr.proposal.value.inputs|
    ensures var inputs, n := cr.proposal.value.inputs, cr.unlockFault.value;
      LocksOf(FailCreation(Acquire(s, cr.owner, inputs), cr, inputs, error).0, cr.owner)
        == InputSet(inputs) - InputSet(inputs[..n])
  {
    var inputs, n := cr.proposal.value.inputs, cr.unlockFault.value;
    UnlockAllEffect(Acquire(s, cr.owner, inputs).locks, inputs[..n], cr.owner);
  }

  // An extraction succeeds, with the transaction's id and the PCZT on record, if and only
  // if the token is not malformed, no stage fails and no other PCZT is on record for the
  // transaction. A conflict is answered only after the transaction is stored.
  lemma ExtractDecides(s: Store, p: Pczt, fault: ExtractFault)
    ensures var (s', r) := ExtractPczt(s, p, fault);
      var conflict := p.txId in s.finalized && s.finalized[p.txId] != p;
      && (r.Ok? <==>
            && !p.token.Malformed? && !conflict
            && (fault == NoExtractFault || (fault == DeleteRowsFails && p.token == Absent)))
      && (r.Ok? ==> r.value == p.txId && s'.finalized == s.finalized[p.txId := p])
      && (p.token.Malformed? ==> s' == s && r == Err(PcztLockOwnerMalformed(p.token.byteCount)))
      && (!p.token.Malformed? && fault == ExtractFails ==> s' == s && r == Err(SqliteFailed))
      && (!p.token.Malformed? && fault != ExtractFails ==> InputSet(p.inputs) <= s'.spent)
      && (r.Err? && !p.token.Malformed? && fault != ExtractFails && fault != ReadBackFails && conflict ==>
            s'.finalized == s.finalized && r == Err(FinalizedPcztConflict(p.txId)))
      && (r.Err? && !p.token.Malformed? && (fault == ReadBackFails || !conflict) ==> r == Err(SqliteFailed))
      && (fault == ReadBackFails ==> s'.finalized == s.finalized)
      && (fault == DeleteRowsFails && !p.token.Malformed? && !conflict ==> s'.finalized == s.finalized[p.txId := p])
      && s'.finalized - {p.txId} == s.finalized - {p.txId}
  {
  }

  // An extraction drops only locks on outputs its transaction now spends, and removes
  // the rows of its own owner alone.
  lemma ExtractPcztEffect(s: Store, p: Pczt, fault: ExtractFault)
    ensures var (s', r) := ExtractPczt(s, p, fault);
      && (forall x :: x in s'.locks ==> x in s.locks && s'.locks[x] == s.locks[x])
      && (forall x :: x in s.locks && x !in s'.locks ==> x in p.inputs && x in s'.spent)
      && s.spent <= s'.spent && s'.height == s.height
      && (forall row :: row in s'.pending ==> row in s.pending)
      && (forall row :: row in s.pending && p.token != Owner(row.owner) ==> row in s'.pending)
      && (r.Err? ==> s'.pending == s.pending)
      && (r.Ok? ==> InputSet(p.inputs) <= s'.spent && (forall x :: x in p.inputs ==> x !in s'.locks))
      && (r.Ok? && p.token.Owner? ==> RowsOf(s', p.token.owner) == {})
  {
    if p.token.Owner? {
      DeletePendingEffect(s.pending, p.token.owner);
    }
  }
}
