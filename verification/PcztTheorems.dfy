// What the PCZT lock protocol guarantees in every run.
module PcztTheorems {
  import opened Prelude
  import opened PcztStore
  import opened PcztProtocol
  import opened PcztProtocolProof

  // The moment the actor is through with a creation, its inputs are locked and listed,
  // exactly, if and only if its caller got the bytes; otherwise nothing is held for it.
  lemma FinishedCreation(events: seq<Event>, e: Event, c: CallId)
    requires c in Run(events).calls && !Run(events).calls[c].work.WorkDone?
    requires c in Run(events + [e]).calls && Run(events + [e]).calls[c].work.WorkDone?
    ensures var k, st := Run(events + [e]).calls[c], Run(events + [e]).store;
      && (ReturnedOk(k) ==> HoldsExactly(st, k) && KeepsInputs(st, k))
      && (k.owner.Some? && !k.cleanupFailed ==>
            && (!ReturnedOk(k) ==> HoldsNothing(st, k.owner.value))
            && (k.pczt.Some? && k.pczt.value.inputs != [] ==> (ReturnedOk(k) <==> HoldsExactly(st, k))))
  {
    RunExtends(events, e);
    var k := Run(events + [e]).calls[c];
    if ReturnedOk(k) {
      JustFinished(Run(events), e, c);
    }
    if k.pczt.Some? && k.pczt.value.inputs != [] {
      assert k.pczt.value.inputs[0] in InputSet(k.pczt.value.inputs);
    }
  }

  lemma JustFinished(s: State, e: Event, c: CallId)
    requires Inv(s) && c in s.calls && !s.calls[c].work.WorkDone?
    requires c in Step(s, e).calls && Step(s, e).calls[c].work.WorkDone? && ReturnedOk(Step(s, e).calls[c])
    ensures HoldsExactly(Step(s, e).store, Step(s, e).calls[c]) && KeepsInputs(Step(s, e).store, Step(s, e).calls[c])
  {
    OnlyTheActorFinishes(s, e, c);
    assert CallInv(s.calls[c], s.store, s.peak, s.actor.AwaitingAck?);
    if e.ActorResume? {
      assert Step(s, e) == DoResume(s, c, e.fault);
    }
  }

  lemma OnlyTheActorFinishes(s: State, e: Event, c: CallId)
    requires Inv(s) && c in s.calls && !s.calls[c].work.WorkDone?
    requires c in Step(s, e).calls && Step(s, e).calls[c].work.WorkDone?
    ensures Enabled(s, e)
    ensures e.ActorCreate? || ((e.ActorReply? || e.ActorResume?) && s.actor.c == c)
  {
    if IsDisposal(e) {
      DisposalFinishesNothing(s, e, c);
    }
  }

  lemma DisposalFinishesNothing(s: State, e: Event, c: CallId)
    requires IsDisposal(e) && c in s.calls
    ensures c in Step(s, e).calls && Step(s, e).calls[c].work == s.calls[c].work
  {
    match e
    case Abandon(_, _) =>
    case Extract(_, _) =>
    case SendExtract(_, _) =>
    case SendCleanup(_, _) =>
  }

  // A creation whose caller did not get the bytes holds nothing ever after.
  lemma UnreturnedHoldsNothing(events: seq<Event>, c: CallId)
    requires c in Run(events).calls
    ensures var k := Run(events).calls[c];
      k.work.WorkDone? && !ReturnedOk(k) && k.owner.Some? && !k.cleanupFailed ==>
        HoldsNothing(Run(events).store, k.owner.value)
  {
    RunInv(events);
  }

  // Until it is abandoned or extracted, a returned PCZT stays listed in full, and until
  // the tip has once reached the lock expiry each input stays locked for it or is spent.
  lemma ReturnedKeepsInputs(events: seq<Event>, c: CallId)
    requires c in Run(events).calls && ReturnedOk(Run(events).calls[c]) && !Run(events).calls[c].disposed
    ensures var k, s := Run(events).calls[c], Run(events);
      && k.owner.Some? && k.pczt == Some(k.pc.result.value)
      && RowsOf(s.store, k.owner.value) == InputSet(k.pczt.value.inputs)
      && (s.peak < k.expiresAt ==> KeepsInputs(s.store, k))
  {
    RunInv(events);
  }

  // Two PCZTs in callers' hands, neither disposed of nor past its lock expiry, share no
  // input that is still unspent.
  lemma NoSharedInput(events: seq<Event>, c: CallId, d: CallId, x: OutputRef)
    requires c != d && c in Run(events).calls && d in Run(events).calls
    requires forall i :: i in {c, d} ==>
      var k := Run(events).calls[i];
      ReturnedOk(k) && !k.disposed && Run(events).peak < k.expiresAt && x in k.pc.result.value.inputs
    ensures x in Run(events).store.spent
  {
    RunInv(events);
    ReturnedKeepsInputs(events, c);
    ReturnedKeepsInputs(events, d);
    assert c in {c, d} && d in {c, d};
  }

  // On every return path of the target-expiry send no lock or row of that send is left;
  // when extraction stored the transaction, the inputs are spent, and Ok means the signed
  // expiry is the target.
  lemma FinishedSend(events: seq<Event>, c: CallId)
    requires c in Run(events).calls && Run(events).calls[c].send.Finished?
    ensures var k, st := Run(events).calls[c], Run(events).store;
      && k.owner.Some? && k.pczt.Some? && SendAnswer(k)
      && (!k.cleanupFailed ==> HoldsNothing(st, k.owner.value))
      && (SendStored(k) ==> InputSet(k.pczt.value.inputs) <= st.spent)
  {
    RunInv(events);
  }

  // However earlier cleanups failed, one more fault-free abandonment of a built PCZT
  // leaves its owner with nothing.
  lemma AbandonCompletes(events: seq<Event>, c: CallId, p: Pczt)
    requires c in Run(events).calls && Run(events).actor.Idle?
    requires Run(events).calls[c].pczt.Some?
    requires p.token == Run(events).calls[c].pczt.value.token
    ensures Run(events).calls[c].owner.Some?
    ensures var o := Run(events).calls[c].owner.value;
      HoldsNothing(Step(Run(events), Abandon(p, NoFault)).store, o)
  {
    RunInv(events);
    var s := Run(events);
    var k := s.calls[c];
    assert k.work.WorkDone?;
    ReleaseEffect(s.store, k.owner.value, NoFault);
  }

  // Does event e end the lock that o holds on x?
  ghost predicate Ends(s: State, e: Event, o: LockOwner, x: OutputRef) {
    match e
    case ActorReply(_) => Enabled(s, e) && s.calls[s.actor.c].owner == Some(o)
    case ActorResume(_) => Enabled(s, e) && s.calls[s.actor.c].owner == Some(o)
    case Abandon(p, _) => p.token == Owner(o)
    case Extract(p, _) => x in p.inputs
    case SendExtract(c, _) => Enabled(s, e) && x in s.calls[c].pczt.value.inputs
    case SendCleanup(c, _) => Enabled(s, e) && s.calls[c].owner == Some(o)
    case _ => false
  }

  // A lock that has not expired survives every step except its own owner's release and
  // the storing of a transaction that spends the output.
  lemma LiveLockStable(events: seq<Event>, e: Event, x: OutputRef)
    requires x in Run(events).store.locks
    requires Run(events).store.height < Run(events).store.locks[x].expiresAt
    requires !Ends(Run(events), e, Run(events).store.locks[x].owner, x)
    ensures var st := Run(events + [e]).store;
      x in st.locks && st.locks[x] == Run(events).store.locks[x]
  {
    RunExtends(events, e);
    if Enabled(Run(events), e) {
      if IsDisposal(e) {
        LiveLockUnderDisposal(Run(events), e, x);
      } else {
        LiveLockUnderHandshake(Run(events), e, x);
      }
    }
  }

  lemma LiveLockUnderDisposal(s: State, e: Event, x: OutputRef)
    requires Inv(s) && Enabled(s, e) && IsDisposal(e)
    requires x in s.store.locks && !Ends(s, e, s.store.locks[x].owner, x)
    ensures x in Step(s, e).store.locks && Step(s, e).store.locks[x] == s.store.locks[x]
  {
    match e
    case Abandon(p, fault) => AbandonKeepsLock(s.store, p, fault, x);
    case Extract(p, fault) => ExtractPcztEffect(s.store, p, fault);
    case SendExtract(c, fault) => ExtractPcztEffect(s.store, s.calls[c].pczt.value, fault);
    case SendCleanup(c, fault) =>
      SendingCallIsDone(s, c);
      AbandonKeepsLock(s.store, s.calls[c].pczt.value, fault, x);
  }

  lemma AbandonKeepsLock(st: Store, p: Pczt, fault: ReleaseFault, x: OutputRef)
    requires x in st.locks && p.token != Owner(st.locks[x].owner)
    ensures var st' := AbandonPczt(st, p, fault).0; x in st'.locks && st'.locks[x] == st.locks[x]
  {
    if p.token.Owner? {
      ReleaseEffect(st, p.token.owner, fault);
    }
  }

  lemma LiveLockUnderHandshake(s: State, e: Event, x: OutputRef)
    requires Inv(s) && Enabled(s, e) && !IsDisposal(e)
    requires x in s.store.locks && s.store.height < s.store.locks[x].expiresAt && !Ends(s, e, s.store.locks[x].owner, x)
    ensures x in Step(s, e).store.locks && Step(s, e).store.locks[x] == s.store.locks[x]
  {
    match e
    case ActorCreate(cr) => CreatePcztEffect(s.store, cr);
    case ActorReply(fault) => ReleaseEffect(s.store, s.calls[s.actor.c].owner.value, fault);
    case ActorResume(fault) => ReleaseEffect(s.store, s.calls[s.actor.c].owner.value, fault);
    case _ =>
  }

  // The acknowledgement is always received: a caller that holds the reply is the one the
  // actor waits for, so no creation that locked inputs ends in a channel error.
  lemma AcknowledgementReceived(events: seq<Event>, c: CallId)
    requires c in Run(events).calls && Run(events).calls[c].pc.HasReply?
    ensures Run(events).actor == AwaitingAck(c)
    ensures Step(Run(events), Acknowledge(c)).calls[c].pc == Returned(Ok(Run(events).calls[c].pc.pczt))
  {
    RunInv(events);
  }

  // The actor is never left waiting: a waiting actor's caller can take and acknowledge the
  // reply, which frees the actor when it resumes ...
  lemma AcknowledgingReleasesActor(events: seq<Event>, c: CallId, fault: ReleaseFault)
    requires Run(events).actor == AwaitingAck(c)
    ensures c in Run(events).calls
    ensures Step(Step(Step(Run(events), TakeReply(c)), Acknowledge(c)), ActorResume(fault)).actor.Idle?
  {
    RunInv(events);
    assert OnActorInv(Run(events).calls[c], Run(events).store, true);
    TakeAndAcknowledge(Run(events), c, fault);
  }

  lemma TakeAndAcknowledge(s: State, c: CallId, fault: ReleaseFault)
    requires s.actor == AwaitingAck(c) && c in s.calls && OnActorInv(s.calls[c], s.store, true)
    ensures Step(Step(Step(s, TakeReply(c)), Acknowledge(c)), ActorResume(fault)).actor.Idle?
  {
    var t := DoTakeReply(s, c);
    assert Step(s, TakeReply(c)) == t;
    var a := DoAcknowledge(t, c);
    assert Step(t, Acknowledge(c)) == a;
    assert a.actor == AwaitingAck(c) && a.calls[c].ack != AckPending && a.calls[c].owner.Some?;
    assert Step(a, ActorResume(fault)) == DoResume(a, c, fault);
  }

  // ... and until it holds the reply it can be cancelled, which frees the actor as well.
  lemma CancellingReleasesActor(events: seq<Event>, c: CallId, fault: ReleaseFault)
    requires Run(events).actor == AwaitingAck(c)
    ensures c in Run(events).calls
    ensures Run(events).calls[c].pc.HasReply? || Step(Step(Run(events), Cancel(c)), ActorResume(fault)).actor.Idle?
  {
    RunInv(events);
    var s := Run(events);
    assert OnActorInv(s.calls[c], s.store, true);
    if !s.calls[c].pc.HasReply? {
      var x := DoCancel(s, c);
      assert Step(s, Cancel(c)) == x;
      assert x.actor == AwaitingAck(c) && x.calls[c].ack != AckPending && x.calls[c].owner.Some?;
      assert Step(x, ActorResume(fault)) == DoResume(x, c, fault);
    }
  }

  // A reply delivered to a caller that stays: four steps hand the PCZT over, and the store
  // is untouched.
  lemma UndisturbedHandshake(s: State, c: CallId, fault: ReleaseFault)
    requires s.actor == Replying(c) && c in s.calls
    requires s.calls[c].pc.Awaiting? && s.calls[c].owner.Some? && s.calls[c].pczt.Some?
    ensures var t := Step(Step(Step(Step(s, ActorReply(fault)), TakeReply(c)), Acknowledge(c)), ActorResume(fault));
      && t.actor.Idle? && t.store == s.store && c in t.calls
      && t.calls[c].work.WorkDone? && t.calls[c].pc == Returned(Ok(s.calls[c].pczt.value))
      && t.calls[c].owner == s.calls[c].owner && t.calls[c].pczt == s.calls[c].pczt
  {
    var k, pczt := s.calls[c], s.calls[c].pczt.value;
    var k1 := k.(reply := Delivered(Ok(pczt)));
    assert Step(s, ActorReply(fault)) == s.(actor := AwaitingAck(c), calls := s.calls[c := k1]);
    var s1 := s.(actor := AwaitingAck(c), calls := s.calls[c := k1]);
    var k2 := k1.(pc := HasReply(pczt));
    assert Step(s1, TakeReply(c)) == s1.(calls := s1.calls[c := k2]);
    var s2 := s1.(calls := s1.calls[c := k2]);
    var k3 := k2.(pc := Returned(Ok(pczt)), ack := AckSent);
    assert Step(s2, Acknowledge(c)) == s2.(calls := s2.calls[c := k3]);
    var s3 := s2.(calls := s2.calls[c := k3]);
    assert Step(s3, ActorResume(fault)) == s3.(actor := Idle, calls := s3.calls[c := k3.(work := WorkDone)]);
  }

  // With an idle actor and an empty queue, a call that nothing disturbs returns what its
  // creation answers: the bytes its proposal describes, with exactly those inputs held, or
  // the error, with nothing held. The store is as the creation left it.
  lemma UndisturbedCreation(s: State, c: CallId, target: U32, cr: Creation, fault: ReleaseFault)
    requires s.actor.Idle? && s.queue == [] && c !in s.calls
    requires Selectable(s.store, cr) && NewOwner(s, cr.owner)
    ensures var created := Step(Step(Step(s, Begin(c, target)), Enqueue(c)), ActorCreate(cr));
      var t := Step(Step(Step(Step(created, ActorReply(fault)), TakeReply(c)), Acknowledge(c)), ActorResume(fault));
      && t.actor.Idle? && t.store == CreatePczt(s.store, cr).0 && c in t.calls
      && t.calls[c].pc == Returned(CreatePczt(s.store, cr).1)
      && (ReturnedOk(t.calls[c]) <==>
            && cr.proposal.Ok? && cr.buildError == None
            && forall i, j :: 0 <= i < j < |cr.proposal.value.inputs| ==>
                 cr.proposal.value.inputs[i] != cr.proposal.value.inputs[j])
      && (ReturnedOk(t.calls[c]) ==> HoldsExactly(t.store, t.calls[c]))
  {
    var queued := QueuedCall(s, c, target);
    CallQueued(s, c, target);
    assert Step(queued, ActorCreate(cr)) == DoCreate(queued, cr);
    CreatePcztEffect(s.store, cr);
    CreatePcztDecides(s.store, cr);
    if CreatePczt(s.store, cr).1.Ok? {
      UndisturbedHandshake(DoCreate(queued, cr), c, fault);
    } else {
      UndisturbedFailure(queued, c, cr, fault);
    }
  }

  function QueuedCall(s: State, c: CallId, target: U32): State {
    s.(queue := [c], calls := s.calls[c := NewCall(target).(pc := Awaiting, work := Queued)])
  }

  lemma CallQueued(s: State, c: CallId, target: U32)
    requires s.queue == [] && c !in s.calls
    ensures Step(Step(s, Begin(c, target)), Enqueue(c)) == QueuedCall(s, c, target)
  {
    var begun := s.(calls := s.calls[c := NewCall(target)]);
    assert Step(s, Begin(c, target)) == begun;
    assert Step(begun, Enqueue(c)) == DoEnqueue(begun, c);
    assert begun.calls[c := NewCall(target).(pc := Awaiting, work := Queued)]
        == s.calls[c := NewCall(target).(pc := Awaiting, work := Queued)];
    assert [] + [c] == [c];
  }

  // A failed creation answers its caller and leaves the actor idle; the steps of a handshake
  // that does not take place change nothing.
  lemma UndisturbedFailure(s: State, c: CallId, cr: Creation, fault: ReleaseFault)
    requires s.actor.Idle? && s.queue == [c] && c in s.calls
    requires s.calls[c].pc.Awaiting? && CreatePczt(s.store, cr).1.Err?
    ensures var created := DoCreate(s, cr);
      var t := Step(Step(Step(Step(created, ActorReply(fault)), TakeReply(c)), Acknowledge(c)), ActorResume(fault));
      && t.actor.Idle? && t.store == CreatePczt(s.store, cr).0 && c in t.calls
      && t.calls[c].pc == Returned(CreatePczt(s.store, cr).1)
  {
    var created := DoCreate(s, cr);
    assert Step(created, ActorReply(fault)) == created;
    var taken := DoTakeReply(created, c);
    assert Step(created, TakeReply(c)) == taken;
    assert Step(taken, Acknowledge(c)) == taken;
    assert Step(taken, ActorResume(fault)) == taken;
  }

  // ---- the answers of a send ----

  // Extraction ends a send well if and only if it works and the signed expiry is the
  // target; a mismatch after extraction names both heights; any other failure goes to
  // cleanup with the storage error.
  lemma SendExtractDecides(s: State, c: CallId, fault: ExtractFault)
    requires Inv(s) && Enabled(s, SendExtract(c, fault))
    ensures var p, target := s.calls[c].pczt.value, s.calls[c].target;
      var r := ExtractPczt(s.store, p, fault).1;
      var s' := Step(s, SendExtract(c, fault));
      && c in s'.calls
      && (s'.calls[c].send == Finished(Ok(p.txId)) <==> r.Ok? && p.expiryHeight == target)
      && (s'.calls[c].send == Finished(Err(TargetExpiryMismatch(target, p.expiryHeight)))
          <==> r.Ok? && p.expiryHeight != target)
      && (r.Err? ==> s'.calls[c].send == Cleaning(Storage(r.error)))
  {
    ExtractDecides(s.store, s.calls[c].pczt.value, fault);
  }

  // A send that nothing disturbs answers with its transaction's id if and only if the
  // signed expiry is the target and no other PCZT is on record for the transaction.
  lemma UndisturbedSend(s: State, c: CallId)
    requires Inv(s) && s.actor.Idle? && c in s.calls && ReturnedOk(s.calls[c]) && s.calls[c].send == Proving
    ensures s.calls[c].pczt.Some?
    ensures var p, target := s.calls[c].pczt.value, s.calls[c].target;
      var conflict := p.txId in s.store.finalized && s.store.finalized[p.txId] != p;
      var t := Step(Step(Step(s, Prove(c, true)), Sign(c, true)), SendExtract(c, NoExtractFault));
      && c in t.calls
      && (t.calls[c].send == Finished(Ok(p.txId)) <==> !conflict && p.expiryHeight == target)
      && (t.calls[c].send == Cleaning(Storage(FinalizedPcztConflict(p.txId))) <==> conflict)
  {
    assert s.calls[c].work.WorkDone?;
    var signing := SetSend(s, c, Signing);
    StepKeepsInv(s, Prove(c, true));
    assert Step(s, Prove(c, true)) == signing;
    var extracting := SetSend(signing, c, Extracting);
    StepKeepsInv(signing, Sign(c, true));
    assert Step(signing, Sign(c, true)) == extracting;
    assert extracting.calls[c].pczt.value.token.Owner?;
    SendExtractDecides(extracting, c, NoExtractFault);
    ExtractDecides(s.store, s.calls[c].pczt.value, NoExtractFault);
  }

  // A role that fails sends the call to its cleanup with that role's error.
  lemma RoleFailureCleansUp(s: State, c: CallId)
    requires Inv(s) && c in s.calls
    ensures ReturnedOk(s.calls[c]) && s.calls[c].send == Proving ==>
      Step(s, Prove(c, false)) == SetSend(s, c, Cleaning(RoleFailed))
    ensures s.calls[c].send == Signing ==> Step(s, Sign(c, false)) == SetSend(s, c, Cleaning(RoleFailed))
  {
  }

  // A send whose role failed answers with that role's error if the cleanup works, and with
  // the cleanup's storage error if it does not.
  lemma SendCleanupDecides(s: State, c: CallId, fault: ReleaseFault)
    requires Inv(s) && Enabled(s, SendCleanup(c, fault))
    ensures var o, e := s.calls[c].owner, s.calls[c].send.error;
      && o.Some?
      && var rows := |FindPending(s.store.pending, o.value)|;
         var works := !(fault.UnlockFails? && fault.at < rows) && fault != DeleteFails;
         var s' := Step(s, SendCleanup(c, fault));
         && c in s'.calls
         && s'.calls[c].send == Finished(Err(if works then e else Storage(SqliteFailed)))
  {
    SendingCallIsDone(s, c);
    ReleaseDecides(s.store, s.calls[c].owner.value, fault);
  }

  // An idle actor serves abandonments and extractions, and the tip may move either way.
  lemma IdleActorServes(s: State, p: Pczt, fault: ReleaseFault, extractFault: ExtractFault, height: nat)
    requires s.actor.Idle?
    ensures Step(s, Abandon(p, fault)).store == AbandonPczt(s.store, p, fault).0
    ensures Genuine(s, p) ==> Step(s, Extract(p, extractFault)).store == ExtractPczt(s.store, p, extractFault).0
    ensures Step(s, AdvanceTip(height)).store == s.store.(height := height)
    ensures Step(s, AdvanceTip(height)).calls == s.calls
  {
  }
}
