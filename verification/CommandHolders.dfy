/** How long a stream's state lives: it goes with its last holder, and a caller that has not
ended is a holder. So a step, with the holds it takes and lets go, keeps every invariant. */
module CommandHolders {
  import opened Bytes
  import opened Commands
  import opened CommandInvariants
  import opened CommandCorrelation
  import opened CommandSlots

  // ---- what holding and letting go leave alone ----

  /** The call's sender was dropped before it sent. */
  predicate Deprived(c: Call, c': Call) {
    c.slot == Empty && c' == c.(slot := Dropped)
  }

  ghost predicate OnlyDropped(a: map<CallId, Call>, b: map<CallId, Call>) {
    && a.Keys == b.Keys
    && forall call :: call in a ==> b[call] == a[call] || Deprived(a[call], b[call])
  }

  ghost predicate OnlyPending(a: map<StreamId, Stream>, b: map<StreamId, Stream>) {
    a.Keys == b.Keys && forall sid :: sid in a ==> b[sid] == a[sid] || b[sid] == a[sid].(pending := map[])
  }

  /** Nothing but pending entries and empty slots changed. */
  ghost predicate Lighter(s: State, s': State) {
    && OnlyDropped(s.calls, s'.calls) && OnlyPending(s.streams, s'.streams)
    && s'.cameraCommands == s.cameraCommands && s'.refused == s.refused && s'.clients == s.clients
  }

  lemma LighterSelf(s: State)
    ensures Lighter(s, s)
  {
  }

  lemma LighterTrans(a: State, b: State, c: State)
    requires Lighter(a, b) && Lighter(b, c)
    ensures Lighter(a, c)
  {
  }

  lemma HoldIsLighter(s: State, sid: StreamId, h: Holder)
    ensures Lighter(s, Hold(s, sid, h))
  {
  }

  lemma DropIsOnly(calls: map<CallId, Call>, dropped: set<CallId>)
    ensures OnlyDropped(calls, DropSenders(calls, dropped)) && OnlyDropped(calls, calls)
  {
  }

  lemma ClearIsOnly(streams: map<StreamId, Stream>, sid: StreamId)
    requires sid in streams
    ensures OnlyPending(streams, streams[sid := streams[sid].(pending := map[])])
  {
  }

  lemma ReleaseIsLighter(s: State, sid: StreamId, h: Holder)
    ensures Lighter(s, Release(s, sid, h))
  {
    hide OnlyDropped, OnlyPending, DropSenders;
    LighterSelf(s);
    if sid in s.streams {
      DropIsOnly(s.calls, s.streams[sid].pending.Values);
      ClearIsOnly(s.streams, sid);
    }
  }

  lemma EntryIsLighter(s: State, registered: map<Key, StreamId>, key: Key)
    ensures Lighter(s, ReleaseEntry(s, registered, key))
  {
    hide Lighter, Release;
    LighterSelf(s);
    if key in registered {
      ReleaseIsLighter(s, registered[key], Registry);
    }
  }

  lemma NextIsLighter(s: State, step: Step)
    ensures Lighter(Advance(s, step), Next(s, step))
  {
    hide Lighter, Advance, Hold, Release, ReleaseEntry;
    var s' := Advance(s, step);
    LighterSelf(s');
    match step
    case Connect(sid, key) =>
      var s1, s2 := Hold(s', sid, Registry), Hold(Hold(s', sid, Registry), sid, Reader);
      HoldIsLighter(s', sid, Registry);
      HoldIsLighter(s1, sid, Reader);
      LighterTrans(s', s1, s2);
      EntryIsLighter(s2, s.cameraCommands, key);
      LighterTrans(s', s2, ReleaseEntry(s2, s.cameraCommands, key));
    case LookUp(call, _, _) =>
      if call in s'.calls {
        HoldIsLighter(s', s'.calls[call].stream, Caller(call));
      }
    case ClientTakes(_, _, call) =>
      if call in s'.calls {
        HoldIsLighter(s', s'.calls[call].stream, Caller(call));
      }
    case Leave(call) =>
      if call in s'.calls {
        ReleaseIsLighter(s', s'.calls[call].stream, Caller(call));
      }
    case Finish(call) =>
      if call in s'.calls {
        ReleaseIsLighter(s', s'.calls[call].stream, Caller(call));
      }
    case CloseReader(sid) =>
      if sid in s.streams {
        var s1 := ReleaseEntry(s', s.cameraCommands, s.streams[sid].key);
        EntryIsLighter(s', s.cameraCommands, s.streams[sid].key);
        ReleaseIsLighter(s1, sid, Reader);
        LighterTrans(s', s1, Release(s1, sid, Reader));
      }
    case _ =>
  }

  lemma LighterKept(s: State, s': State)
    requires Lighter(s, s')
    ensures Kept(s, s') && MessagesKept(s.streams, s'.streams)
  {
  }

  lemma LighterIdsLast(s: State, s': State)
    requires Lighter(s, s')
    ensures IdsLast(s') <==> IdsLast(s)
  {
  }

  // ---- pending entries, messages, requests ----

  lemma LighterPendings(s: State, s': State)
    requires PendingsOk(s) && Lighter(s, s')
    ensures PendingsOk(s')
  {
  }

  lemma LighterMessages(s: State, s': State)
    requires AllMessagesOk(s) && Lighter(s, s')
    ensures AllMessagesOk(s')
  {
    hide MessagesOk, Kept, Grows, Lighter;
    LighterKept(s, s');
    SameStreams(s, s');
    forall sid | sid in s'.streams
      ensures MessagesOk(s'.calls, s'.streams[sid])
    {
      KeptGrows(s, s', sid);
      MessagesFrame(s.calls, s.streams[sid], s'.calls, s'.streams[sid]);
    }
  }

  lemma NextKeepsMessages(s: State, step: Step)
    requires IdsOk(s) && AllMessagesOk(s) && IdsLast(Next(s, step))
    ensures AllMessagesOk(Next(s, step))
  {
    hide IdsOk, IdsLast, Lighter, Advance, Next, AllMessagesOk;
    NextIsLighter(s, step);
    LighterIdsLast(Advance(s, step), Next(s, step));
    AdvanceKeepsMessages(s, step);
    LighterMessages(Advance(s, step), Next(s, step));
  }

  lemma LighterSending(s: State, s': State)
    requires SendingOk(s) && Lighter(s, s')
    ensures SendingOk(s')
  {
    hide SendingOk, Unsent;
    SendingFrame(s, s');
  }

  lemma NextKeepsSending(s: State, step: Step)
    requires IdsOk(s) && AllMessagesOk(s) && SendingOk(s) && IdsLast(Next(s, step))
    ensures SendingOk(Next(s, step))
  {
    hide IdsOk, IdsLast, Lighter, Advance, Next, AllMessagesOk, SendingOk;
    NextIsLighter(s, step);
    LighterIdsLast(Advance(s, step), Next(s, step));
    AdvanceKeepsSending(s, step);
    LighterSending(Advance(s, step), Next(s, step));
  }

  // ---- callers hold ----

  predicate Live(s: State, call: CallId) {
    call in s.calls && !s.calls[call].phase.Ended?
  }

  /** A caller between its lookup and its end keeps the state of its stream. */
  ghost predicate CallersHold(s: State) {
    forall call :: Live(s, call) ==> Caller(call) in HoldersOf(s, s.calls[call].stream)
  }

  /** All of it that holding and letting go depend on. */
  ghost predicate HeldOk(s: State) {
    IdsOk(s) && PendingsOk(s) && SlotsOk(s) && CallersHold(s)
  }

  /** A pending entry of a stream is that of one of its calls. */
  lemma PendingIsOfStream(s: State, sid: StreamId, id: U32)
    requires IdsOk(s) && PendingsOk(s) && sid in s.streams && id in s.streams[sid].pending
    ensures var call := s.streams[sid].pending[id]; call in s.calls && s.calls[call].stream == sid
  {
    hide RegistryOk, CallOk;
    assert PendingOk(s.streams[sid]) && OwnersOk(s.calls, sid, s.streams[sid]);
    assert OwnedBy(s.calls, sid, id, s.streams[sid].owner[id]);
  }

  /** A state without callers has no pending sender that anyone waits for. */
  lemma DropKeepsSlots(s: State, sid: StreamId)
    requires IdsOk(s) && PendingsOk(s) && SlotsOk(s) && sid in s.streams
    requires forall call :: Live(s, call) ==> s.calls[call].stream != sid
    ensures SlotsOk(DropState(s, sid))
  {
    hide IdsOk, PendingsOk;
    var s', st := DropState(s, sid), s.streams[sid];
    forall call | call in s'.calls
      ensures SlotOk(s'.streams, s'.calls[call])
    {
      assert SlotOk(s.streams, s.calls[call]);
      if s'.calls[call] != s.calls[call] {
        var id :| id in st.pending && st.pending[id] == call;
        PendingIsOfStream(s, sid, id);
      }
    }
  }

  lemma SameSlots(s: State, s': State)
    requires SlotsOk(s) && s'.streams == s.streams && s'.calls == s.calls
    ensures SlotsOk(s')
  {
  }

  /** Whoever lets go, no caller that has not ended loses its sender. */
  lemma ReleaseKeepsHeld(s: State, sid: StreamId, h: Holder)
    requires HeldOk(s) && (h.Caller? ==> !Live(s, h.call))
    ensures HeldOk(Release(s, sid, h))
  {
    hide IdsOk, PendingsOk, SlotsOk, Lighter, Kept;
    var s' := Release(s, sid, h);
    ReleaseIsLighter(s, sid, h);
    LighterKept(s, s');
    IdsFrame(s, s');
    LighterPendings(s, s');
    var left := HoldersOf(s, sid) - {h};
    var s1 := s.(holders := s.holders[sid := left]);
    SameSlots(s, s1);
    LighterSelf(s);
    Rehold(s, s1);
    StillHold(s, sid, h);
    if left == {} && sid in s.streams {
      forall call | Live(s1, call)
        ensures s1.calls[call].stream != sid
      {
        assert Live(s, call) && Caller(call) in HoldersOf(s, s.calls[call].stream);
      }
      DropKeepsSlots(s1, sid);
    }
  }

  /** Ids and pending entries do not depend on holders. */
  lemma Rehold(s: State, s1: State)
    requires IdsOk(s) && PendingsOk(s) && s1 == s.(holders := s1.holders)
    ensures IdsOk(s1) && PendingsOk(s1)
  {
    hide Lighter, Kept;
    assert Lighter(s, s1) by { RelabelIsLighter(s, s1); }
    LighterKept(s, s1);
    IdsFrame(s, s1);
    LighterPendings(s, s1);
  }

  lemma RelabelIsLighter(s: State, s1: State)
    requires s1 == s.(holders := s1.holders)
    ensures Lighter(s, s1)
  {
  }

  lemma StillHold(s: State, sid: StreamId, h: Holder)
    requires CallersHold(s) && (h.Caller? ==> !Live(s, h.call))
    ensures CallersHold(Release(s, sid, h))
  {
    var s' := Release(s, sid, h);
    forall call | Live(s', call)
      ensures Caller(call) in HoldersOf(s', s'.calls[call].stream)
    {
      assert Live(s, call);
    }
  }

  lemma EntryKeepsHeld(s: State, registered: map<Key, StreamId>, key: Key)
    requires HeldOk(s)
    ensures HeldOk(ReleaseEntry(s, registered, key))
  {
    hide HeldOk, Release;
    if key in registered {
      ReleaseKeepsHeld(s, registered[key], Registry);
    }
  }

  lemma HoldKeepsHeld(s: State, sid: StreamId, h: Holder)
    requires HeldOk(s)
    ensures HeldOk(Hold(s, sid, h))
  {
    hide IdsOk, PendingsOk, SlotsOk;
    Rehold(s, Hold(s, sid, h));
    SameSlots(s, Hold(s, sid, h));
  }

  /** Everything but the hold of a call that this step created. */
  ghost predicate HeldBut(s: State, call: CallId) {
    && IdsOk(s) && PendingsOk(s) && SlotsOk(s)
    && forall c :: Live(s, c) && c != call ==> Caller(c) in HoldersOf(s, s.calls[c].stream)
  }

  lemma TakeHoldKeeps(before: State, s: State, call: CallId)
    requires HeldBut(s, call)
        && (call in before.calls && Live(s, call) ==> Caller(call) in HoldersOf(s, s.calls[call].stream))
    ensures HeldOk(TakeHold(before, s, call))
  {
    hide IdsOk, PendingsOk, SlotsOk;
    if call in s.calls && call !in before.calls {
      Rehold(s, TakeHold(before, s, call));
      SameSlots(s, TakeHold(before, s, call));
    }
  }

  lemma LetGoKeeps(before: State, s: State, call: CallId)
    requires HeldOk(s)
    ensures HeldOk(LetGo(before, s, call))
  {
    hide HeldOk, Release;
    if call in s.calls && s.calls[call].phase.Ended? {
      ReleaseKeepsHeld(s, s.calls[call].stream, Caller(call));
    }
  }

  // ---- the raw steps and who holds ----

  /** Calls stay with their streams and do not come back to life; new ones are as given. */
  ghost predicate CallsFrom(s: State, s': State, created: set<CallId>) {
    && s'.holders == s.holders
    && forall call :: Live(s', call) && call !in created
        ==> Live(s, call) && s'.calls[call].stream == s.calls[call].stream
  }

  lemma SlotChangeFrom(calls: map<CallId, Call>, call: CallId, response: Response)
    ensures var calls' := DropSender(calls, call);
            forall c :: c in calls' ==> c in calls && calls'[c].phase == calls[c].phase
    ensures var calls' := FillSlot(calls, call, response);
            forall c :: c in calls' ==> c in calls && calls'[c].phase == calls[c].phase
  {
  }

  /** The phases after a step that may drop another caller's sender. */
  lemma PhasesFrom(s: State, s': State, calls: map<CallId, Call>, call: CallId, phase: Phase)
    requires forall c :: c in calls ==> c in s.calls && calls[c].phase == s.calls[c].phase
    requires call in calls && s'.calls == calls[call := calls[call].(phase := phase)]
    requires phase.Ended? || !s.calls[call].phase.Ended?
    ensures forall c :: Live(s', c) ==> Live(s, c)
  {
  }

  lemma RegisterStepFrom(s: State, call: CallId)
    ensures CallsFrom(s, RegisterStep(s, call), {})
  {
    hide DropSender, Kept;
    RegisterKeeps(s, call);
    KeptStreams(s, RegisterStep(s, call));
    if At(s, call, Allocated) {
      var st, id := s.streams[s.calls[call].stream], s.calls[call].id;
      if id in st.pending {
        SlotChangeFrom(s.calls, st.pending[id], READY);
        DropPhase(s.calls, st.pending[id], call);
      }
      PhasesFrom(s, RegisterStep(s, call), InsertPending(s.calls, st.pending, id, call).0, call, Registered);
    }
  }

  lemma LeaveStepFrom(s: State, call: CallId)
    ensures CallsFrom(s, LeaveStep(s, call), {})
  {
    hide DropSender, Kept;
    LeaveKeeps(s, call);
    KeptStreams(s, LeaveStep(s, call));
    if call in s.calls && s.calls[call].phase.Leaving? && s.calls[call].stream in s.streams {
      var st, c := s.streams[s.calls[call].stream], s.calls[call];
      if c.id in st.pending {
        SlotChangeFrom(s.calls, st.pending[c.id], READY);
        DropPhase(s.calls, st.pending[c.id], call);
      }
      PhasesFrom(s, LeaveStep(s, call), RemovePending(s.calls, st.pending, c.id, call).0, call,
          Ended(Failed(c.phase.message)));
    }
  }

  lemma KeptStreams(s: State, s': State)
    requires Kept(s, s')
    ensures forall call :: call in s'.calls ==> call in s.calls && s'.calls[call].stream == s.calls[call].stream
  {
  }

  lemma ReceiveStepFrom(s: State, sid: StreamId)
    ensures CallsFrom(s, ReceiveStep(s, sid), {})
  {
    hide FillSlot, CallsKept;
    ReceiveKeeps(s, sid);
    KeptStreams(s, ReceiveStep(s, sid));
    if sid in s.streams && s.streams[sid].toServer != [] {
      var response := s.streams[sid].toServer[0];
      if response.id in s.streams[sid].pending {
        SlotChangeFrom(s.calls, s.streams[sid].pending[response.id], response);
      }
    }
  }

  lemma CallStepFrom(s: State, step: Step)
    requires step.Allocate? || step.Send? || step.GiveUp? || step.Finish?
    ensures CallsFrom(s, Advance(s, step), {})
  {
  }

  lemma StreamStepFrom(s: State, step: Step)
    requires step.Connect? || step.Execute? || step.CloseReader? || step.Lose? || step.ClientReplies?
    ensures CallsFrom(s, Advance(s, step), {})
  {
    hide HasEnded, OutcomeOf, Reply, Busy;
  }

  lemma LookUpStepFrom(s: State, call: CallId, key: Key, command: Command)
    ensures CallsFrom(s, LookUpStep(s, call, key, command), {call})
    ensures call in s.calls ==> LookUpStep(s, call, key, command) == s
  {
  }

  lemma TakesStepFrom(s: State, client: ClientId, request: ClientRequest, call: CallId)
    ensures CallsFrom(s, TakesStep(s, client, request, call), {call})
    ensures call in s.calls ==> TakesStep(s, client, request, call) == s
  {
    hide Idle;
  }

  lemma AdvanceFrom(s: State, step: Step)
    ensures CallsFrom(s, Advance(s, step), if step.LookUp? || step.ClientTakes? then {step.call} else {})
  {
    hide CallsFrom, ConnectStep, LookUpStep, AllocateStep, RegisterStep, SendStep, GiveUpStep, LeaveStep, FinishStep,
         ExecuteStep, ReceiveStep, CloseStep, LoseStep, TakesStep, RepliesStep;
    match step
    case LookUp(call, key, command) => LookUpStepFrom(s, call, key, command);
    case ClientTakes(client, request, call) => TakesStepFrom(s, client, request, call);
    case Register(call) => RegisterStepFrom(s, call);
    case Leave(call) => LeaveStepFrom(s, call);
    case Receive(sid) => ReceiveStepFrom(s, sid);
    case Allocate(_) => CallStepFrom(s, step);
    case Send(_, _, _) => CallStepFrom(s, step);
    case GiveUp(_) => CallStepFrom(s, step);
    case Finish(_) => CallStepFrom(s, step);
    case _ => StreamStepFrom(s, step);
  }

  /** A raw step keeps all holds it needs, but for that of a call it created. */
  lemma AdvanceHeld(s: State, step: Step)
    requires HeldOk(s) && AllMessagesOk(s) && IdsLast(Advance(s, step))
    ensures step.LookUp? || step.ClientTakes? ==> HeldBut(Advance(s, step), step.call)
    ensures !step.LookUp? && !step.ClientTakes? ==> HeldOk(Advance(s, step))
  {
    hide IdsOk, PendingsOk, SlotsOk, AllMessagesOk, IdsLast, Advance;
    AdvanceKeepsIds(s, step);
    AdvanceKeepsPendings(s, step);
    AdvanceKeepsSlots(s, step);
    AdvanceFrom(s, step);
    var s' := Advance(s, step);
    forall call | Live(s', call) && !((step.LookUp? || step.ClientTakes?) && call == step.call)
      ensures Caller(call) in HoldersOf(s', s'.calls[call].stream)
    {
      assert Live(s, call);
    }
  }

  lemma HeldExisting(s: State, step: Step)
    requires HeldOk(s) && (step.LookUp? || step.ClientTakes?)
    ensures var s' := Advance(s, step);
            var call := step.call;
            call in s.calls && Live(s', call) ==> Caller(call) in HoldersOf(s', s'.calls[call].stream)
  {
    hide IdsOk, PendingsOk, SlotsOk, LookUpStep, TakesStep;
    match step
    case LookUp(call, key, command) => LookUpStepFrom(s, call, key, command);
    case ClientTakes(client, request, call) => TakesStepFrom(s, client, request, call);
  }

  /** One step, with the holds it takes and lets go: no sender is dropped under a caller that
  has not ended, and every such caller is a holder. */
  lemma NextKeepsHeld(s: State, step: Step)
    requires HeldOk(s) && AllMessagesOk(s) && IdsLast(Next(s, step))
    ensures HeldOk(Next(s, step))
  {
    hide HeldOk, HeldBut, AllMessagesOk, IdsLast, Advance, Hold, Release, ReleaseEntry, TakeHold, LetGo, Lighter;
    var s' := Advance(s, step);
    NextIsLighter(s, step);
    LighterIdsLast(s', Next(s, step));
    AdvanceHeld(s, step);
    match step
    case Connect(sid, key) =>
      HoldKeepsHeld(s', sid, Registry);
      HoldKeepsHeld(Hold(s', sid, Registry), sid, Reader);
      EntryKeepsHeld(Hold(Hold(s', sid, Registry), sid, Reader), s.cameraCommands, key);
    case LookUp(call, _, _) =>
      HeldExisting(s, step);
      TakeHoldKeeps(s, s', call);
    case ClientTakes(_, _, call) =>
      HeldExisting(s, step);
      TakeHoldKeeps(s, s', call);
    case Leave(call) => LetGoKeeps(s, s', call);
    case Finish(call) => LetGoKeeps(s, s', call);
    case CloseReader(sid) =>
      if sid in s.streams {
        EntryKeepsHeld(s', s.cameraCommands, s.streams[sid].key);
        ReleaseKeepsHeld(ReleaseEntry(s', s.cameraCommands, s.streams[sid].key), sid, Reader);
      }
    case _ =>
  }
}
