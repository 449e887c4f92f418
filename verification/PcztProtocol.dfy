// PCZT creation as a handshake between a caller that can be cancelled at any await and
// the serial database actor, together with everything else that touches input locks:
// abandonment, extraction, the target-expiry send, and lock expiry as the tip moves.
//
// A run is any sequence of events. An event that is not enabled leaves the state alone,
// so quantifying over event sequences covers every interleaving.
module PcztProtocol {
  import opened Prelude
  import opened PcztStore

  type CallId = nat

  // Where the future of one creation call stands. Cancellation can strike while it awaits
  // queue capacity or the reply, and nowhere else.
  datatype CallerPc =
    | Sending
    | Awaiting
    | HasReply(pczt: Pczt)
    | Returned(result: Result<Pczt, StorageError>)
    | Cancelled

  datatype Reply = NoReply | Delivered(result: Result<Pczt, StorageError>)

  datatype Ack = AckPending | AckSent | AckDropped

  datatype Work = NotQueued | Queued | OnActor | WorkDone

  datatype SendError =
    | RoleFailed
    | Storage(error: StorageError)
    | TargetExpiryMismatch(target: U32, signed: U32)

  // The target-expiry send, from the moment propose_pczt returned.
  datatype SendPc =
    | Proving
    | Signing
    | Extracting
    | Cleaning(error: SendError)
    | Finished(result: Result<TxId, SendError>)

  // `owner`, `pczt` and `expiresAt` record what the actor drew and built for the call;
  // the three flags record cleanup history and appear in no guard.
  datatype Call = Call(
    pc: CallerPc,
    reply: Reply,
    ack: Ack,
    work: Work,
    target: U32,
    send: SendPc,
    owner: Option<LockOwner>,
    pczt: Option<Pczt>,
    expiresAt: nat,
    cleanupFailed: bool,
    stranded: bool,
    disposed: bool)

  datatype Actor = Idle | Replying(c: CallId) | AwaitingAck(c: CallId)

  // `peak` is the highest tip ever seen.
  datatype State = State(store: Store, queue: seq<CallId>, actor: Actor, calls: map<CallId, Call>, peak: nat)

  datatype Event =
    | Begin(c: CallId, target: U32)
    | Enqueue(c: CallId)
    | Cancel(c: CallId)
    | ActorCreate(cr: Creation)
    | ActorReply(fault: ReleaseFault)
    | TakeReply(c: CallId)
    | Acknowledge(c: CallId)
    | ActorResume(fault: ReleaseFault)
    | Abandon(p: Pczt, fault: ReleaseFault)
    | Extract(p: Pczt, extractFault: ExtractFault)
    | Prove(c: CallId, ok: bool)
    | Sign(c: CallId, ok: bool)
    | SendExtract(c: CallId, extractFault: ExtractFault)
    | SendCleanup(c: CallId, fault: ReleaseFault)
    | AdvanceTip(height: nat)

  function InitStore(): Store { Store(map[], [], {}, map[], 0) }

  function Init(): State { State(InitStore(), [], Idle, map[], 0) }

  function NewCall(target: U32): Call {
    Call(Sending, NoReply, AckPending, NotQueued, target, Proving, None, None, 0, false, false, false)
  }

  predicate ReturnedOk(k: Call) { k.pc.Returned? && k.pc.result.Ok? }

  // ---- steps ----

  function DoEnqueue(s: State, c: CallId): State
    requires c in s.calls
  {
    var k := s.calls[c];
    if k.pc.Sending? then
      s.(queue := s.queue + [c], calls := s.calls[c := k.(pc := Awaiting, work := Queued)])
    else s
  }

  // Dropping the future drops its reply channel, and with it the acknowledgement sender
  // when the reply was already sitting there.
  function DoCancel(s: State, c: CallId): State
    requires c in s.calls
  {
    var k := s.calls[c];
    if k.pc.Sending? then s.(calls := s.calls[c := k.(pc := Cancelled)])
    else if k.pc.Awaiting? then
      var ack := if k.reply.Delivered? && k.reply.result.Ok? then AckDropped else k.ack;
      s.(calls := s.calls[c := k.(pc := Cancelled, ack := ack)])
    else s
  }

  // Unlocking the inputs of a failed build breaks off part way.
  predicate UnlockBreaks(cr: Creation) {
    cr.proposal.Ok? && cr.unlockFault.Some? && cr.unlockFault.value < |cr.proposal.value.inputs|
  }

  // The actor takes the next creation from the queue, whether or not its caller survives.
  function DoCreate(s: State, cr: Creation): State
    requires s.queue != [] && s.queue[0] in s.calls
  {
    var c, k := s.queue[0], s.calls[s.queue[0]];
    var (store, r) := CreatePczt(s.store, cr);
    var s1 := s.(store := store, queue := s.queue[1..]);
    if r.Ok? then
      s1.(actor := Replying(c),
          calls := s.calls[c := k.(work := OnActor, owner := Some(cr.owner), pczt := Some(r.value),
                                   expiresAt := s.store.height + LOCK_BLOCKS)])
    else
      var failed := k.(work := WorkDone, owner := if cr.proposal.Ok? then Some(cr.owner) else None,
                       cleanupFailed := UnlockBreaks(cr), stranded := UnlockBreaks(cr));
      s1.(calls := s.calls[c := if k.pc.Awaiting? then failed.(reply := Delivered(Err(r.error))) else failed])
  }

  // Releases on behalf of a caller that went away.
  function ReleaseUnacknowledged(s: State, c: CallId, fault: ReleaseFault): State
    requires c in s.calls && s.calls[c].owner.Some?
  {
    var k := s.calls[c];
    var (store, r) := Release(s.store, k.owner.value, fault);
    s.(store := store, actor := Idle, calls := s.calls[c := k.(work := WorkDone, cleanupFailed := r.Err?)])
  }

  function DoReply(s: State, c: CallId, fault: ReleaseFault): State
    requires c in s.calls && s.calls[c].owner.Some? && s.calls[c].pczt.Some?
  {
    var k := s.calls[c];
    if k.pc.Awaiting? then
      s.(actor := AwaitingAck(c), calls := s.calls[c := k.(reply := Delivered(Ok(k.pczt.value)))])
    else ReleaseUnacknowledged(s, c, fault)
  }

  function DoTakeReply(s: State, c: CallId): State
    requires c in s.calls
  {
    var k := s.calls[c];
    if k.pc.Awaiting? && k.reply.Delivered? then
      var pc := if k.reply.result.Ok? then HasReply(k.reply.result.value) else Returned(k.reply.result);
      s.(calls := s.calls[c := k.(pc := pc)])
    else s
  }

  // Sending the acknowledgement fails only if the actor no longer waits for it.
  function DoAcknowledge(s: State, c: CallId): State
    requires c in s.calls
  {
    var k := s.calls[c];
    if !k.pc.HasReply? then s
    else if s.actor == AwaitingAck(c) then
      s.(calls := s.calls[c := k.(pc := Returned(Ok(k.pc.pczt)), ack := AckSent)])
    else s.(calls := s.calls[c := k.(pc := Returned(Err(BlockingTaskFailed)))])
  }

  function DoResume(s: State, c: CallId, fault: ReleaseFault): State
    requires c in s.calls && s.calls[c].owner.Some?
  {
    match s.calls[c].ack
    case AckPending => s
    case AckSent => s.(actor := Idle, calls := s.calls[c := s.calls[c].(work := WorkDone)])
    case AckDropped => ReleaseUnacknowledged(s, c, fault)
  }

  function MarkDisposed(calls: map<CallId, Call>, o: LockOwner, r: Result<(), StorageError>): map<CallId, Call> {
    map c | c in calls ::
      if calls[c].owner == Some(o)
      then calls[c].(disposed := true, cleanupFailed := r.Err? || calls[c].stranded)
      else calls[c]
  }

  function MarkExtracted(calls: map<CallId, Call>, o: LockOwner): map<CallId, Call> {
    map c | c in calls :: if calls[c].owner == Some(o) then calls[c].(disposed := true) else calls[c]
  }

  function DoAbandon(s: State, p: Pczt, fault: ReleaseFault): State {
    var (store, r) := AbandonPczt(s.store, p, fault);
    s.(store := store, calls := if p.token.Owner? then MarkDisposed(s.calls, p.token.owner, r) else s.calls)
  }

  function DoExtract(s: State, p: Pczt, fault: ExtractFault): State {
    var store := ExtractPczt(s.store, p, fault).0;
    s.(store := store, calls := if p.token.Owner? then MarkExtracted(s.calls, p.token.owner) else s.calls)
  }

  function SetSend(s: State, c: CallId, pc: SendPc): State
    requires c in s.calls
  {
    s.(calls := s.calls[c := s.calls[c].(send := pc)])
  }

  function DoSendExtract(s: State, c: CallId, p: Pczt, fault: ExtractFault): State
    requires c in s.calls
  {
    var r := ExtractPczt(s.store, p, fault).1;
    var s1 := DoExtract(s, p, fault);
    var target := s.calls[c].target;
    if r.Err? then SetSend(s1, c, Cleaning(Storage(r.error)))
    else if p.expiryHeight != target then
      SetSend(s1, c, Finished(Err(TargetExpiryMismatch(target, p.expiryHeight))))
    else SetSend(s1, c, Finished(Ok(r.value)))
  }

  // abandon_pczt_after_error: the cleanup error replaces the role error.
  function DoSendCleanup(s: State, c: CallId, p: Pczt, fault: ReleaseFault): State
    requires c in s.calls && s.calls[c].send.Cleaning?
  {
    var r := AbandonPczt(s.store, p, fault).1;
    var s1 := DoAbandon(s, p, fault);
    SetSend(s1, c, Finished(Err(if r.Err? then Storage(r.error) else s.calls[c].send.error)))
  }

  // The roles keep the owner token, and a PCZT carrying a token spends the inputs it was
  // created with.
  ghost predicate Genuine(s: State, p: Pczt) {
    p.token.Owner? ==>
      forall c :: c in s.calls && s.calls[c].owner == Some(p.token.owner) ==>
        s.calls[c].pczt.Some? && InputSet(s.calls[c].pczt.value.inputs) == InputSet(p.inputs)
  }

  // A drawn owner matches none drawn before.
  ghost predicate NewOwner(s: State, o: LockOwner) {
    forall c :: c in s.calls ==> s.calls[c].owner != Some(o)
  }

  // Abandonment and extraction, on their own or by a send.
  predicate IsDisposal(e: Event) { e.SendExtract? || e.SendCleanup? || e.Extract? || e.Abandon? }

  // Steps of the actor on a creation, and of the chain.
  predicate IsActorStep(e: Event) { e.ActorCreate? || e.ActorReply? || e.ActorResume? || e.AdvanceTip? }

  ghost predicate Enabled(s: State, e: Event) {
    match e
    case Begin(c, _) => c !in s.calls
    case Enqueue(c) => c in s.calls
    case Cancel(c) => c in s.calls
    case ActorCreate(cr) =>
      && s.actor.Idle? && s.queue != [] && s.queue[0] in s.calls
      && Selectable(s.store, cr) && NewOwner(s, cr.owner)
    case ActorReply(_) =>
      s.actor.Replying? && s.actor.c in s.calls && s.calls[s.actor.c].owner.Some? && s.calls[s.actor.c].pczt.Some?
    case TakeReply(c) => c in s.calls
    case Acknowledge(c) => c in s.calls
    case ActorResume(_) => s.actor.AwaitingAck? && s.actor.c in s.calls && s.calls[s.actor.c].owner.Some?
    case Abandon(_, _) => s.actor.Idle?
    case Extract(p, _) => s.actor.Idle? && Genuine(s, p)
    case Prove(c, _) => c in s.calls && ReturnedOk(s.calls[c]) && s.calls[c].send.Proving?
    case Sign(c, _) => c in s.calls && s.calls[c].send.Signing?
    case SendExtract(c, _) => s.actor.Idle? && c in s.calls && s.calls[c].send.Extracting? && s.calls[c].pczt.Some?
    case SendCleanup(c, _) => s.actor.Idle? && c in s.calls && s.calls[c].send.Cleaning? && s.calls[c].pczt.Some?
    case AdvanceTip(_) => s.actor.Idle?
  }

  ghost function Step(s: State, e: Event): State {
    if !Enabled(s, e) then s
    else
      match e
      case Begin(c, target) => s.(calls := s.calls[c := NewCall(target)])
      case Enqueue(c) => DoEnqueue(s, c)
      case Cancel(c) => DoCancel(s, c)
      case ActorCreate(cr) => DoCreate(s, cr)
      case ActorReply(fault) => DoReply(s, s.actor.c, fault)
      case TakeReply(c) => DoTakeReply(s, c)
      case Acknowledge(c) => DoAcknowledge(s, c)
      case ActorResume(fault) => DoResume(s, s.actor.c, fault)
      case Abandon(p, fault) => DoAbandon(s, p, fault)
      case Extract(p, fault) => DoExtract(s, p, fault)
      case Prove(c, ok) => SetSend(s, c, if ok then Signing else Cleaning(RoleFailed))
      case Sign(c, ok) => SetSend(s, c, if ok then Extracting else Cleaning(RoleFailed))
      case SendExtract(c, fault) => DoSendExtract(s, c, s.calls[c].pczt.value, fault)
      case SendCleanup(c, fault) => DoSendCleanup(s, c, s.calls[c].pczt.value, fault)
      case AdvanceTip(h) => s.(store := s.store.(height := h), peak := Max(s.peak, h))
  }

  ghost function Run(events: seq<Event>): State {
    if events == [] then Init() else Step(Run(events[..|events| - 1]), events[|events| - 1])
  }

  // ---- the invariant ----

  ghost predicate HoldsNothing(st: Store, o: LockOwner) { LocksOf(st, o) == {} && RowsOf(st, o) == {} }

  // The creation holds exactly its inputs.
  ghost predicate HoldsExactly(st: Store, k: Call) {
    && k.owner.Some? && k.pczt.Some?
    && LocksOf(st, k.owner.value) == RowsOf(st, k.owner.value) == InputSet(k.pczt.value.inputs)
  }

  // Each input is still locked by its creation or has been spent.
  ghost predicate KeepsInputs(st: Store, k: Call)
    requires k.owner.Some? && k.pczt.Some?
  {
    forall x :: x in k.pczt.value.inputs ==>
      (x in st.locks && st.locks[x] == Lock(k.owner.value, k.expiresAt)) || x in st.spent
  }

  ghost predicate UnstartedInv(k: Call) {
    && k == NewCall(k.target).(pc := k.pc, work := k.work)
    && (k.work.NotQueued? ==> k.pc.Sending? || k.pc.Cancelled?)
    && (k.work.Queued? ==> k.pc.Awaiting? || k.pc.Cancelled?)
  }

  ghost predicate OnActorInv(k: Call, st: Store, awaiting: bool) {
    && HoldsExactly(st, k) && KeepsInputs(st, k)
    && k.pczt.value.token == Owner(k.owner.value)
    && !k.send.Finished? && (!k.send.Proving? ==> ReturnedOk(k))
    && (k.send.Cleaning? ==> !k.send.error.TargetExpiryMismatch?)
    && !k.cleanupFailed && !k.stranded && !k.disposed
    && (!awaiting ==> k.reply.NoReply? && k.ack.AckPending? && (k.pc.Awaiting? || k.pc.Cancelled?))
    && (awaiting ==>
          && k.reply == Delivered(Ok(k.pczt.value))
          && match k.pc
             case Sending => false
             case Awaiting => k.ack.AckPending?
             case HasReply(p) => k.ack.AckPending? && p == k.pczt.value
             case Returned(r) => k.ack.AckSent? && r == Ok(k.pczt.value)
             case Cancelled => k.ack.AckDropped?)
  }

  ghost predicate SendStored(k: Call) {
    k.send.Finished? && (k.send.result.Ok? || k.send.result.error.TargetExpiryMismatch?)
  }

  // What a finished send tells its caller about the signed PCZT.
  ghost predicate SendAnswer(k: Call)
    requires k.send.Finished? && k.pczt.Some?
  {
    var signed := k.pczt.value;
    match k.send.result
    case Ok(txId) => txId == signed.txId && signed.expiryHeight == k.target
    case Err(TargetExpiryMismatch(target, height)) => target == k.target && height == signed.expiryHeight != target
    case Err(_) => true
  }

  ghost predicate DoneInv(k: Call, st: Store, peak: nat) {
    && (k.pc.Awaiting? || k.pc.Returned? || k.pc.Cancelled?)
    && (k.pc.Awaiting? ==> k.reply.Delivered? && k.reply.result.Err?)
    && (ReturnedOk(k) ==> k.owner.Some? && k.pczt == Some(k.pc.result.value))
    && (k.pczt.Some? ==> k.owner.Some? && k.pczt.value.token == Owner(k.owner.value))
    && (!k.send.Proving? ==> ReturnedOk(k))
    && (k.send.Cleaning? ==> !k.send.error.TargetExpiryMismatch?)
    && (k.send.Finished? && k.pczt.Some? ==> SendAnswer(k))
    && (ReturnedOk(k) ==> !k.stranded)
    && (k.stranded ==> k.cleanupFailed && k.pczt.None?)
    && (k.owner.Some? ==> DoneStoreInv(k, st, peak))
  }

  ghost predicate DoneStoreInv(k: Call, st: Store, peak: nat)
    requires k.owner.Some?
  {
    var o := k.owner.value;
    && (!k.stranded ==> LocksOf(st, o) <= RowsOf(st, o))
    && RowsOf(st, o) <= (if k.pczt.Some? then InputSet(k.pczt.value.inputs) else {})
    && (!ReturnedOk(k) && !k.cleanupFailed ==> HoldsNothing(st, o))
    && (k.send.Finished? && !k.cleanupFailed ==> HoldsNothing(st, o))
    && (k.pczt.Some? && SendStored(k) ==> InputSet(k.pczt.value.inputs) <= st.spent)
    && (k.pczt.Some? && ReturnedOk(k) && !k.disposed ==>
          && RowsOf(st, o) == InputSet(k.pczt.value.inputs)
          && (peak < k.expiresAt ==> KeepsInputs(st, k)))
  }

  ghost predicate CallInv(k: Call, st: Store, peak: nat, awaiting: bool) {
    match k.work
    case NotQueued => UnstartedInv(k)
    case Queued => UnstartedInv(k)
    case OnActor => OnActorInv(k, st, awaiting)
    case WorkDone => DoneInv(k, st, peak)
  }

  ghost predicate QueueInv(s: State) {
    && (forall i, j :: 0 <= i < j < |s.queue| ==> s.queue[i] != s.queue[j])
    && (forall c :: c in s.queue ==> c in s.calls && s.calls[c].work.Queued?)
  }

  ghost predicate ActorInv(s: State) {
    && (!s.actor.Idle? ==> s.actor.c in s.calls)
    && (forall c :: c in s.calls ==> (s.calls[c].work.OnActor? <==> !s.actor.Idle? && s.actor.c == c))
  }

  ghost predicate OwnersInv(s: State) {
    forall c, d :: c in s.calls && d in s.calls && c != d && s.calls[c].owner.Some? ==>
      s.calls[c].owner != s.calls[d].owner
  }

  ghost predicate Inv(s: State) {
    && QueueInv(s)
    && ActorInv(s)
    && OwnersInv(s)
    && s.store.height <= s.peak
    && (forall c :: c in s.calls ==> CallInv(s.calls[c], s.store, s.peak, s.actor.AwaitingAck?))
  }
}
