// The invariant of PcztProtocol holds in every reachable state, and what follows from it.
module PcztProtocolProof {
  import opened Prelude
  import opened PcztStore
  import opened PcztProtocol

  // ---- frames: what a store change owes the calls it does not concern ----

  ghost predicate Frame(st: Store, st': Store, peak: nat, peak': nat, k: Call) {
    && peak <= peak' && st.spent <= st'.spent
    && (k.owner.Some? ==>
          && RowsOf(st', k.owner.value) == RowsOf(st, k.owner.value)
          && LocksOf(st', k.owner.value) <= LocksOf(st, k.owner.value)
          && (k.pczt.Some? && peak' < k.expiresAt && KeepsInputs(st, k) ==> KeepsInputs(st', k)))
  }

  lemma DoneFrame(k: Call, st: Store, st': Store, peak: nat, peak': nat)
    requires DoneInv(k, st, peak) && Frame(st, st', peak, peak', k)
    ensures DoneInv(k, st', peak')
  {
  }

  lemma ReleaseFrame(st: Store, o: LockOwner, fault: ReleaseFault, peak: nat, k: Call)
    requires k.owner != Some(o)
    ensures Frame(st, Release(st, o, fault).0, peak, peak, k)
  {
    ReleaseEffect(st, o, fault);
    var st' := Release(st, o, fault).0;
    if k.owner.Some? {
      assert LocksOf(st', k.owner.value) == LocksOf(st, k.owner.value);
      assert RowsOf(st', k.owner.value) == RowsOf(st, k.owner.value) by {
        assert forall x :: PendingRow(k.owner.value, x) in st.pending <==> PendingRow(k.owner.value, x) in st'.pending;
      }
    }
  }

  lemma CreateFrame(st: Store, cr: Creation, peak: nat, k: Call)
    requires Selectable(st, cr) && k.owner != Some(cr.owner) && st.height <= peak
    ensures Frame(st, CreatePczt(st, cr).0, peak, peak, k)
  {
    CreatePcztEffect(st, cr);
    var st' := CreatePczt(st, cr).0;
    if k.owner.Some? {
      assert RowsOf(st', k.owner.value) == RowsOf(st, k.owner.value) by {
        assert forall x :: PendingRow(k.owner.value, x) in st.pending <==> PendingRow(k.owner.value, x) in st'.pending;
      }
    }
  }

  lemma ExtractFrame(st: Store, p: Pczt, fault: ExtractFault, peak: nat, k: Call)
    requires k.owner.Some? ==> p.token != Owner(k.owner.value)
    ensures Frame(st, ExtractPczt(st, p, fault).0, peak, peak, k)
  {
    ExtractPcztEffect(st, p, fault);
    var st' := ExtractPczt(st, p, fault).0;
    if k.owner.Some? {
      assert RowsOf(st', k.owner.value) == RowsOf(st, k.owner.value) by {
        assert forall x :: PendingRow(k.owner.value, x) in st.pending <==> PendingRow(k.owner.value, x) in st'.pending;
      }
    }
  }

  // A step that rewrites one call and leaves the store alone.
  lemma OneCallStep(s: State, s': State, c: CallId)
    requires Inv(s) && c in s'.calls && s'.calls == s.calls[c := s'.calls[c]]
    requires s'.store == s.store && s'.peak == s.peak && s'.actor == s.actor
    requires c in s.calls ==> s'.calls[c].owner == s.calls[c].owner
    requires c !in s.calls ==> s'.calls[c].owner.None? && (s.actor.Idle? || s.actor.c != c)
    requires CallInv(s'.calls[c], s.store, s.peak, s.actor.AwaitingAck?)
    requires c in s.calls ==> (s'.calls[c].work.OnActor? <==> s.calls[c].work.OnActor?)
    requires c !in s.calls ==> !s'.calls[c].work.OnActor?
    requires QueueInv(s')
    ensures Inv(s')
  {
  }

  lemma BeginStep(s: State, c: CallId, target: U32)
    requires Inv(s) && c !in s.calls
    ensures Inv(s.(calls := s.calls[c := NewCall(target)]))
  {
    OneCallStep(s, s.(calls := s.calls[c := NewCall(target)]), c);
  }

  lemma EnqueueStep(s: State, c: CallId)
    requires Inv(s) && c in s.calls
    ensures Inv(DoEnqueue(s, c))
  {
    if s.calls[c].pc.Sending? {
      assert s.calls[c].work.NotQueued? && c !in s.queue;
      OneCallStep(s, DoEnqueue(s, c), c);
    }
  }

  lemma CancelStep(s: State, c: CallId)
    requires Inv(s) && c in s.calls
    ensures Inv(DoCancel(s, c))
  {
    if s.calls[c].pc.Sending? || s.calls[c].pc.Awaiting? {
      OneCallStep(s, DoCancel(s, c), c);
    }
  }

  lemma TakeReplyStep(s: State, c: CallId)
    requires Inv(s) && c in s.calls
    ensures Inv(DoTakeReply(s, c))
  {
    if s.calls[c].pc.Awaiting? && s.calls[c].reply.Delivered? {
      OneCallStep(s, DoTakeReply(s, c), c);
    }
  }

  lemma AcknowledgeStep(s: State, c: CallId)
    requires Inv(s) && c in s.calls
    ensures Inv(DoAcknowledge(s, c))
  {
    if s.calls[c].pc.HasReply? {
      assert s.actor == AwaitingAck(c);
      OneCallStep(s, DoAcknowledge(s, c), c);
    }
  }

  // Proving and signing touch nothing but the send's own progress.
  lemma RoleStep(s: State, c: CallId, pc: SendPc)
    requires Inv(s) && c in s.calls && ReturnedOk(s.calls[c]) && !s.calls[c].send.Finished? && !pc.Finished?
    requires pc.Cleaning? ==> !pc.error.TargetExpiryMismatch?
    ensures Inv(SetSend(s, c, pc))
  {
    OneCallStep(s, SetSend(s, c, pc), c);
  }

  lemma CreateOtherCall(s: State, cr: Creation, d: CallId)
    requires Inv(s) && Enabled(s, ActorCreate(cr)) && d in s.calls && d != s.queue[0]
    ensures var s' := DoCreate(s, cr); CallInv(s.calls[d], s'.store, s'.peak, s'.actor.AwaitingAck?)
  {
    if s.calls[d].work.WorkDone? {
      CreateFrame(s.store, cr, s.peak, s.calls[d]);
      DoneFrame(s.calls[d], s.store, DoCreate(s, cr).store, s.peak, s.peak);
    }
  }

  lemma CreateThisCall(s: State, cr: Creation)
    requires Inv(s) && Enabled(s, ActorCreate(cr))
    ensures var s' := DoCreate(s, cr); CallInv(s'.calls[s.queue[0]], s'.store, s'.peak, false)
  {
    var c, s' := s.queue[0], DoCreate(s, cr);
    assert c in s.queue && UnstartedInv(s.calls[c]);
    CreatePcztEffect(s.store, cr);
    if CreatePczt(s.store, cr).1.Ok? {
      assert OnActorInv(s'.calls[c], s'.store, false);
    } else {
      assert DoneInv(s'.calls[c], s'.store, s'.peak);
    }
  }

  // Taking the head of the queue and rewriting its call.
  lemma DequeueKeepsQueue(s: State, s': State)
    requires QueueInv(s) && s.queue != [] && s.queue[0] in s.calls
    requires s'.queue == s.queue[1..]
    requires forall c :: c in s.calls && c != s.queue[0] ==> c in s'.calls && s'.calls[c] == s.calls[c]
    ensures QueueInv(s')
  {
    forall c | c in s'.queue ensures c in s'.calls && s'.calls[c].work.Queued? {
      var i :| 0 <= i < |s'.queue| && s'.queue[i] == c;
      assert s.queue[i + 1] == c && c in s.queue;
    }
  }

  lemma CreateQueue(s: State, cr: Creation)
    requires Inv(s) && Enabled(s, ActorCreate(cr))
    ensures QueueInv(DoCreate(s, cr))
  {
    DequeueKeepsQueue(s, DoCreate(s, cr));
  }

  lemma CreateStep(s: State, cr: Creation)
    requires Inv(s) && Enabled(s, ActorCreate(cr))
    ensures Inv(DoCreate(s, cr))
  {
    var c, s' := s.queue[0], DoCreate(s, cr);
    CreateQueue(s, cr);
    CreateThisCall(s, cr);
    assert s'.store.height == s.store.height by { CreatePcztEffect(s.store, cr); }
    forall d | d in s'.calls ensures CallInv(s'.calls[d], s'.store, s'.peak, s'.actor.AwaitingAck?) {
      if d != c {
        CreateOtherCall(s, cr, d);
      }
    }
  }

  lemma ReleaseUnacknowledgedStep(s: State, c: CallId, fault: ReleaseFault)
    requires Inv(s) && c in s.calls && s.calls[c].work.OnActor? && !s.calls[c].pc.Returned? && !s.calls[c].pc.HasReply?
    requires s.calls[c].pc.Cancelled?
    ensures Inv(ReleaseUnacknowledged(s, c, fault))
  {
    var k, s' := s.calls[c], ReleaseUnacknowledged(s, c, fault);
    ReleaseEffect(s.store, k.owner.value, fault);
    forall d | d in s'.calls ensures CallInv(s'.calls[d], s'.store, s'.peak, s'.actor.AwaitingAck?) {
      if d != c {
        if s.calls[d].work.WorkDone? {
          ReleaseFrame(s.store, k.owner.value, fault, s.peak, s.calls[d]);
          DoneFrame(s.calls[d], s.store, s'.store, s.peak, s.peak);
        }
      } else {
        assert forall r :: r in s'.store.pending ==> r in s.store.pending;
        assert DoneInv(s'.calls[c], s'.store, s'.peak);
      }
    }
  }

  lemma ReplyStep(s: State, fault: ReleaseFault)
    requires Inv(s) && Enabled(s, ActorReply(fault))
    ensures Inv(DoReply(s, s.actor.c, fault))
  {
    var c := s.actor.c;
    if !s.calls[c].pc.Awaiting? {
      ReleaseUnacknowledgedStep(s, c, fault);
    }
  }

  lemma ResumeStep(s: State, fault: ReleaseFault)
    requires Inv(s) && Enabled(s, ActorResume(fault))
    ensures Inv(DoResume(s, s.actor.c, fault))
  {
    var c := s.actor.c;
    if s.calls[c].ack.AckDropped? {
      ReleaseUnacknowledgedStep(s, c, fault);
    } else if s.calls[c].ack.AckSent? {
      assert DoneInv(DoResume(s, c, fault).calls[c], s.store, s.peak);
    }
  }

  lemma AbandonOwnCall(s: State, o: LockOwner, fault: ReleaseFault, k: Call)
    requires DoneInv(k, s.store, s.peak) && k.owner == Some(o)
    ensures var (st, r) := Release(s.store, o, fault);
      DoneInv(k.(disposed := true, cleanupFailed := r.Err? || k.stranded), st, s.peak)
  {
    ReleaseEffect(s.store, o, fault);
    var st := Release(s.store, o, fault).0;
    assert RowsOf(st, o) <= RowsOf(s.store, o) by {
      assert forall r :: r in st.pending ==> r in s.store.pending;
    }
  }

  lemma AbandonStep(s: State, p: Pczt, fault: ReleaseFault)
    requires Inv(s) && s.actor.Idle?
    ensures Inv(DoAbandon(s, p, fault))
  {
    if p.token.Owner? {
      var o, s' := p.token.owner, DoAbandon(s, p, fault);
      assert forall d :: d in s.calls ==> s'.calls[d].work == s.calls[d].work && s'.calls[d].owner == s.calls[d].owner;
      assert s'.store.height == s.store.height by { ReleaseEffect(s.store, o, fault); }
      forall d | d in s'.calls ensures CallInv(s'.calls[d], s'.store, s'.peak, false) {
        var k := s.calls[d];
        if k.work.WorkDone? {
          if k.owner == Some(o) {
            AbandonOwnCall(s, o, fault, k);
          } else {
            ReleaseFrame(s.store, o, fault, s.peak, k);
            DoneFrame(k, s.store, s'.store, s.peak, s.peak);
          }
        }
      }
    }
  }

  lemma ExtractStep(s: State, p: Pczt, fault: ExtractFault)
    requires Inv(s) && s.actor.Idle? && Genuine(s, p)
    ensures Inv(DoExtract(s, p, fault))
  {
    var s' := DoExtract(s, p, fault);
    ExtractPcztEffect(s.store, p, fault);
    forall d | d in s'.calls ensures CallInv(s'.calls[d], s'.store, s'.peak, false) {
      var k := s.calls[d];
      if k.work.WorkDone? {
        if k.owner.Some? && p.token == Owner(k.owner.value) {
          ExtractOwnCall(s, p, fault, d);
        } else {
          ExtractFrame(s.store, p, fault, s.peak, k);
          DoneFrame(k, s.store, s'.store, s.peak, s.peak);
        }
      }
    }
    assert forall d :: d in s.calls ==> s'.calls[d].work == s.calls[d].work && s'.calls[d].owner == s.calls[d].owner;
  }

  lemma ExtractOwnCall(s: State, p: Pczt, fault: ExtractFault, d: CallId)
    requires Inv(s) && s.actor.Idle? && Genuine(s, p)
    requires d in s.calls && s.calls[d].work.WorkDone? && s.calls[d].owner.Some?
    requires p.token == Owner(s.calls[d].owner.value)
    ensures var s' := DoExtract(s, p, fault); DoneInv(s'.calls[d], s'.store, s'.peak)
    ensures var s' := DoExtract(s, p, fault);
      ExtractPczt(s.store, p, fault).1.Ok? && !s.calls[d].stranded ==> HoldsNothing(s'.store, s.calls[d].owner.value)
  {
    var k, o, s' := s.calls[d], s.calls[d].owner.value, DoExtract(s, p, fault);
    ExtractPcztEffect(s.store, p, fault);
    assert DoneInv(k, s.store, s.peak);
    assert LocksOf(s'.store, o) <= LocksOf(s.store, o);
    assert RowsOf(s'.store, o) <= RowsOf(s.store, o) by {
      assert forall r :: r in s'.store.pending ==> r in s.store.pending;
    }
    var r := ExtractPczt(s.store, p, fault).1;
    if r.Ok? {
      assert k.pczt.Some? && InputSet(k.pczt.value.inputs) == InputSet(p.inputs);
      if !k.stranded {
        assert forall x :: x in LocksOf(s.store, o) ==> x in InputSet(p.inputs);
        assert forall x :: x in InputSet(p.inputs) ==> x !in s'.store.locks;
        assert LocksOf(s'.store, o) == {};
      }
    } else {
      assert RowsOf(s'.store, o) == RowsOf(s.store, o);
    }
  }

  // Moving the send of one finished call on.
  lemma SetSendStep(s: State, c: CallId, pc: SendPc)
    requires Inv(s) && c in s.calls && s.calls[c].work.WorkDone? && ReturnedOk(s.calls[c])
    requires DoneInv(s.calls[c].(send := pc), s.store, s.peak)
    ensures Inv(SetSend(s, c, pc))
  {
    OneCallStep(s, SetSend(s, c, pc), c);
  }

  lemma SendingCallIsDone(s: State, c: CallId)
    requires Inv(s) && s.actor.Idle? && c in s.calls && !s.calls[c].send.Proving?
    ensures s.calls[c].work.WorkDone? && ReturnedOk(s.calls[c]) && s.calls[c].owner.Some? && s.calls[c].pczt.Some?
    ensures s.calls[c].pczt.value.token == Owner(s.calls[c].owner.value) && !s.calls[c].stranded
    ensures Genuine(s, s.calls[c].pczt.value)
  {
  }

  lemma SendExtractStep(s: State, c: CallId, fault: ExtractFault)
    requires Inv(s) && Enabled(s, SendExtract(c, fault))
    ensures Inv(Step(s, SendExtract(c, fault)))
  {
    SendingCallIsDone(s, c);
    var p := s.calls[c].pczt.value;
    var s1 := DoExtract(s, p, fault);
    ExtractStep(s, p, fault);
    ExtractOwnCall(s, p, fault, c);
    ExtractPcztEffect(s.store, p, fault);
    SetSendStep(s1, c, Step(s, SendExtract(c, fault)).calls[c].send);
  }

  lemma SendCleanupStep(s: State, c: CallId, fault: ReleaseFault)
    requires Inv(s) && Enabled(s, SendCleanup(c, fault))
    ensures Inv(Step(s, SendCleanup(c, fault)))
  {
    SendingCallIsDone(s, c);
    var p := s.calls[c].pczt.value;
    var s1 := DoAbandon(s, p, fault);
    AbandonStep(s, p, fault);
    ReleaseEffect(s.store, s.calls[c].owner.value, fault);
    assert DoneInv(s.calls[c], s.store, s.peak);
    assert s1.calls[c]
        == s.calls[c].(disposed := true, cleanupFailed := Release(s.store, s.calls[c].owner.value, fault).1.Err?);
    SetSendStep(s1, c, Step(s, SendCleanup(c, fault)).calls[c].send);
  }

  lemma AdvanceStep(s: State, h: nat)
    requires Inv(s) && s.actor.Idle?
    ensures Inv(Step(s, AdvanceTip(h)))
  {
    var s' := Step(s, AdvanceTip(h));
    forall d | d in s'.calls ensures CallInv(s'.calls[d], s'.store, s'.peak, false) {
      if s.calls[d].work.WorkDone? {
        DoneFrame(s.calls[d], s.store, s'.store, s.peak, s'.peak);
      }
    }
  }

  lemma DisposalStep(s: State, e: Event)
    requires Inv(s) && Enabled(s, e) && IsDisposal(e)
    ensures Inv(Step(s, e))
  {
    match e
    case Abandon(p, fault) => AbandonStep(s, p, fault);
    case Extract(p, fault) => ExtractStep(s, p, fault);
    case SendExtract(c, fault) => SendExtractStep(s, c, fault);
    case SendCleanup(c, fault) => SendCleanupStep(s, c, fault);
  }

  lemma ActorStep(s: State, e: Event)
    requires Inv(s) && Enabled(s, e) && IsActorStep(e)
    ensures Inv(Step(s, e))
  {
    match e
    case ActorCreate(cr) => CreateStep(s, cr);
    case ActorReply(fault) => ReplyStep(s, fault);
    case ActorResume(fault) => ResumeStep(s, fault);
    case AdvanceTip(h) => AdvanceStep(s, h);
  }

  lemma CallerStep(s: State, e: Event)
    requires Inv(s) && Enabled(s, e) && !IsDisposal(e) && !IsActorStep(e)
    ensures Inv(Step(s, e))
  {
    match e
    case Begin(c, target) => BeginStep(s, c, target);
    case Enqueue(c) => EnqueueStep(s, c);
    case Cancel(c) => CancelStep(s, c);
    case TakeReply(c) => TakeReplyStep(s, c);
    case Acknowledge(c) => AcknowledgeStep(s, c);
    case Prove(c, ok) => RoleStep(s, c, if ok then Signing else Cleaning(RoleFailed));
    case Sign(c, ok) =>
      assert CallInv(s.calls[c], s.store, s.peak, s.actor.AwaitingAck?);
      RoleStep(s, c, if ok then Extracting else Cleaning(RoleFailed));
  }

  lemma StepKeepsInv(s: State, e: Event)
    requires Inv(s)
    ensures Inv(Step(s, e))
  {
    if Enabled(s, e) {
      if IsDisposal(e) {
        DisposalStep(s, e);
      } else if IsActorStep(e) {
        ActorStep(s, e);
      } else {
        CallerStep(s, e);
      }
    }
  }

  lemma {:induction false} RunInv(events: seq<Event>)
    ensures Inv(Run(events))
  {
    if events != [] {
      RunInv(events[..|events| - 1]);
      StepKeepsInv(Run(events[..|events| - 1]), events[|events| - 1]);
    }
  }

  lemma RunExtends(events: seq<Event>, e: Event)
    ensures Run(events + [e]) == Step(Run(events), e)
    ensures Inv(Run(events)) && Inv(Run(events + [e]))
  {
    assert (events + [e])[..|events|] == events;
    RunInv(events);
    RunInv(events + [e]);
  }
}
