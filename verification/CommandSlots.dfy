/** What a caller can find in its oneshot, and how often a command reaches the camera. */
module CommandSlots {
  import opened Bytes
  import opened Commands
  import opened CommandInvariants
  import opened CommandCorrelation

  // ---- slots ----

  /** The camera of the stream carried out this call's command under its id, with this result. */
  ghost predicate CarriedOut(streams: map<StreamId, Stream>, c: Call, result: CommandResult) {
    c.stream in streams && Execution(c.id, c.command, result) in streams[c.stream].executed
  }

  /** No sender is dropped under a call that has not ended, and a response in hand is the
  camera's own. */
  ghost predicate SlotOk(streams: map<StreamId, Stream>, c: Call) {
    && (c.slot.Dropped? ==> c.phase.Ended?)
    && (c.slot.Filled?
        ==> HasId(c) && c.slot.response.id == c.id != 0 && CarriedOut(streams, c, c.slot.response.result))
    && (c.phase.Leaving? ==> c.phase.message != DISCONNECTED)
    && (c.phase.Ended? && c.phase.outcome.Answered? ==> c.slot == Filled(c.phase.outcome.response))
    && (c.phase.Ended? && c.phase.outcome.Failed? ==> c.phase.outcome.message != DISCONNECTED)
  }

  ghost predicate SlotsOk(s: State) {
    forall call :: call in s.calls ==> SlotOk(s.streams, s.calls[call])
  }

  /** What was carried out stays so. */
  ghost predicate ExecutedGrows(a: map<StreamId, Stream>, b: map<StreamId, Stream>) {
    forall sid :: sid in a ==> sid in b && forall e :: e in a[sid].executed ==> e in b[sid].executed
  }

  lemma SlotFrame(streams: map<StreamId, Stream>, streams': map<StreamId, Stream>, c: Call)
    requires SlotOk(streams, c) && ExecutedGrows(streams, streams')
    ensures SlotOk(streams', c)
  {
  }

  predicate SameAs(s: State, call: CallId, c: Call) {
    call in s.calls && c == s.calls[call]
  }

  lemma SlotsFrame(s: State, s': State)
    requires SlotsOk(s) && ExecutedGrows(s.streams, s'.streams)
    requires forall call :: call in s'.calls ==> SameAs(s, call, s'.calls[call]) || FreshCall(s, s'.calls[call])
    ensures SlotsOk(s')
  {
    hide ExecutedGrows;
    forall call | call in s'.calls
      ensures SlotOk(s'.streams, s'.calls[call])
    {
      if call in s.calls && s'.calls[call] == s.calls[call] {
        SlotFrame(s.streams, s'.streams, s.calls[call]);
      }
    }
  }

  lemma MessagesKeptGrows(a: map<StreamId, Stream>, b: map<StreamId, Stream>)
    requires MessagesKept(a, b)
    ensures ExecutedGrows(a, b)
  {
  }

  /** A step that changes one call, to a fine one. */
  lemma OneCallKeepsSlots(s: State, s': State, call: CallId, c: Call)
    requires SlotsOk(s) && ExecutedGrows(s.streams, s'.streams)
    requires s'.calls == s.calls[call := c] && SlotOk(s'.streams, c)
    ensures SlotsOk(s')
  {
    hide ExecutedGrows, SlotOk;
    forall i | i in s'.calls
      ensures SlotOk(s'.streams, s'.calls[i])
    {
      if i != call {
        SlotFrame(s.streams, s'.streams, s.calls[i]);
      }
    }
  }

  /** The caller owns its id, so there is no other entry to overwrite or remove. */
  lemma OwnEntry(s: State, call: CallId)
    requires IdsOk(s) && PendingsOk(s) && call in s.calls && HasId(s.calls[call])
    ensures var c := s.calls[call];
            c.stream in s.streams && (c.id in s.streams[c.stream].pending ==> s.streams[c.stream].pending[c.id] == call)
  {
    hide OwnersOk, RegistryOk;
    assert CallOk(s.streams, call, s.calls[call]);
    assert PendingOk(s.streams[s.calls[call].stream]);
  }

  lemma RegisterKeepsSlots(s: State, call: CallId)
    requires IdsOk(s) && PendingsOk(s) && SlotsOk(s)
    ensures SlotsOk(RegisterStep(s, call))
  {
    hide IdsOk, PendingsOk, SlotsOk, ExecutedGrows, MessagesKept;
    if At(s, call, Allocated) {
      OwnEntry(s, call);
      RegisterKeeps(s, call);
      var s' := RegisterStep(s, call);
      MessagesKeptGrows(s.streams, s'.streams);
      SlotOf(s, call);
      SlotFrame(s.streams, s'.streams, s.calls[call]);
      OneCallKeepsSlots(s, s', call, s.calls[call].(phase := Registered));
    }
  }

  lemma SlotOf(s: State, call: CallId)
    requires SlotsOk(s) && call in s.calls
    ensures SlotOk(s.streams, s.calls[call])
  {
  }

  lemma LeaveKeepsSlots(s: State, call: CallId)
    requires IdsOk(s) && PendingsOk(s) && SlotsOk(s)
    ensures SlotsOk(LeaveStep(s, call))
  {
    hide IdsOk, PendingsOk, SlotsOk, ExecutedGrows, MessagesKept;
    if call in s.calls && s.calls[call].phase.Leaving? {
      OwnEntry(s, call);
      LeaveKeeps(s, call);
      var s' := LeaveStep(s, call);
      MessagesKeptGrows(s.streams, s'.streams);
      SlotOf(s, call);
      SlotFrame(s.streams, s'.streams, s.calls[call]);
      OneCallKeepsSlots(s, s', call, s.calls[call].(phase := Ended(Failed(s.calls[call].phase.message))));
    }
  }

  lemma FinishKeepsSlots(s: State, call: CallId)
    requires SlotsOk(s)
    ensures SlotsOk(FinishStep(s, call))
  {
    hide SlotsOk, ExecutedGrows, MessagesKept;
    if At(s, call, Waiting) {
      SlotOf(s, call);
      SameKept(s);
      MessagesKeptGrows(s.streams, s.streams);
      if s.calls[call].slot.Filled? {
        OneCallKeepsSlots(s, FinishStep(s, call), call,
            s.calls[call].(phase := Ended(Answered(s.calls[call].slot.response))));
      }
    }
  }

  lemma GiveUpKeepsSlots(s: State, call: CallId)
    requires SlotsOk(s)
    ensures SlotsOk(GiveUpStep(s, call))
  {
    hide SlotsOk, ExecutedGrows, MessagesKept;
    if At(s, call, Waiting) && s.calls[call].slot == Empty {
      SlotOf(s, call);
      SameKept(s);
      MessagesKeptGrows(s.streams, s.streams);
      OneCallKeepsSlots(s, GiveUpStep(s, call), call, s.calls[call].(phase := Leaving(TIMED_OUT)));
    }
  }

  lemma SendKeepsSlots(s: State, call: CallId, delivered: bool, reported: bool)
    requires SlotsOk(s)
    ensures SlotsOk(SendStep(s, call, delivered, reported))
  {
    hide SlotsOk, SlotOk;
    if At(s, call, Registered) {
      var s' := SendStep(s, call, delivered, reported);
      SlotOf(s, call);
      SlotFrame(s.streams, s'.streams, s.calls[call]);
      var c := s.calls[call].(phase := if reported then Waiting else Leaving(SEND_FAILED));
      SentSlot(s'.streams, s.calls[call], c);
      OneCallKeepsSlots(s, s', call, c);
    }
  }

  lemma SentSlot(streams: map<StreamId, Stream>, c: Call, c': Call)
    requires SlotOk(streams, c) && c.phase == Registered
    requires c' == c.(phase := Waiting) || c' == c.(phase := Leaving(SEND_FAILED))
    ensures SlotOk(streams, c')
  {
  }

  lemma AllocateKeepsSlots(s: State, call: CallId)
    requires SlotsOk(s)
    ensures SlotsOk(AllocateStep(s, call))
  {
    hide SlotsOk;
    if At(s, call, Looked) {
      var s' := AllocateStep(s, call);
      SlotOf(s, call);
      OneCallKeepsSlots(s, s', call, s'.calls[call]);
    }
  }

  lemma ExecuteKeepsSlots(s: State, step: Step)
    requires SlotsOk(s) && (step.Execute? || step.Lose? || step.CloseReader? || step.Connect?)
    ensures SlotsOk(Advance(s, step))
  {
    hide SlotsOk;
    SlotsFrame(s, Advance(s, step));
  }

  /** The reader hands the owner of the id a response that the camera gave to its command. */
  lemma ReceiveKeepsSlots(s: State, sid: StreamId)
    requires IdsOk(s) && PendingsOk(s) && AllMessagesOk(s) && SlotsOk(s)
    ensures SlotsOk(ReceiveStep(s, sid))
  {
    hide IdsOk, PendingsOk, AllMessagesOk, SlotsOk;
    if sid in s.streams && s.streams[sid].readerOpen && s.streams[sid].toServer != [] {
      var st, s' := s.streams[sid], ReceiveStep(s, sid);
      var response := st.toServer[0];
      if response.id != 0 && response.id in st.pending && s.calls != s'.calls {
        var call := st.pending[response.id];
        ResponseOfOwner(s, sid, response);
        SlotOf(s, call);
        OneCallKeepsSlots(s, s', call, s.calls[call].(slot := Filled(response)));
      } else {
        SlotsFrame(s, s');
      }
    }
  }

  lemma ResponseOfOwner(s: State, sid: StreamId, response: Response)
    requires IdsOk(s) && PendingsOk(s) && AllMessagesOk(s) && sid in s.streams
    requires response in s.streams[sid].toServer && response.id != 0 && response.id in s.streams[sid].pending
    ensures var call := s.streams[sid].pending[response.id];
            && call in s.calls && s.calls[call].id == response.id && HasId(s.calls[call])
            && s.calls[call].stream == sid && CarriedOut(s.streams, s.calls[call], response.result)
  {
    hide RegistryOk, CallOk;
    var st := s.streams[sid];
    assert PendingOk(st) && MessagesOk(s.calls, st) && OwnersOk(s.calls, sid, st);
    assert OwnedBy(s.calls, sid, response.id, st.owner[response.id]);
    assert Replied(st.executed, response);
    var e :| e in st.executed && e.id == response.id && e.result == response.result;
    assert Commanded(s.calls, st, e.id, e.command);
  }

  lemma AdvanceKeepsSlots(s: State, step: Step)
    requires IdsOk(s) && PendingsOk(s) && AllMessagesOk(s) && SlotsOk(s)
    ensures SlotsOk(Advance(s, step))
  {
    hide IdsOk, PendingsOk, AllMessagesOk, SlotsOk, ExecutedGrows, ConnectStep, LookUpStep, AllocateStep, RegisterStep,
         SendStep,
         GiveUpStep, LeaveStep, FinishStep, ExecuteStep, ReceiveStep, CloseStep, LoseStep, TakesStep, RepliesStep;
    match step
    case LookUp(call, key, command) =>
      LookUpAdds(s, call, key, command);
      SameGrowsExecuted(s.streams);
      SlotsFrame(s, LookUpStep(s, call, key, command));
    case ClientTakes(client, request, call) =>
      TakesAdds(s, client, request, call);
      SameGrowsExecuted(s.streams);
      SlotsFrame(s, TakesStep(s, client, request, call));
    case ClientReplies(client, sent) =>
      RepliesKeep(s, client, sent);
      SameGrowsExecuted(s.streams);
      SlotsFrame(s, RepliesStep(s, client, sent));
    case Allocate(call) => AllocateKeepsSlots(s, call);
    case Register(call) => RegisterKeepsSlots(s, call);
    case Send(call, delivered, reported) => SendKeepsSlots(s, call, delivered, reported);
    case GiveUp(call) => GiveUpKeepsSlots(s, call);
    case Leave(call) => LeaveKeepsSlots(s, call);
    case Finish(call) => FinishKeepsSlots(s, call);
    case Receive(sid) => ReceiveKeepsSlots(s, sid);
    case _ => ExecuteKeepsSlots(s, step);
  }

  lemma SameGrowsExecuted(streams: map<StreamId, Stream>)
    ensures ExecutedGrows(streams, streams)
  {
  }

  // ---- at most once ----

  predicate Unsent(st: Stream, id: U32) {
    (forall q :: q in st.toCamera ==> q.id != id) && (forall e :: e in st.executed ==> e.id != id)
  }

  /** No id is under way or carried out twice. */
  predicate OnceOk(st: Stream) {
    && (forall i, j | 0 <= i < j < |st.toCamera| :: st.toCamera[i].id != st.toCamera[j].id)
    && (forall i, j | 0 <= i < j < |st.executed| :: st.executed[i].id != st.executed[j].id)
    && (forall i, j | 0 <= i < |st.executed| && 0 <= j < |st.toCamera| :: st.executed[i].id != st.toCamera[j].id)
  }

  predicate ToSend(c: Call) {
    c.phase == Allocated || c.phase == Registered
  }

  ghost predicate SendingOk(s: State) {
    && (forall sid :: sid in s.streams ==> OnceOk(s.streams[sid]))
    && (forall call :: call in s.calls && ToSend(s.calls[call]) && s.calls[call].stream in s.streams
                       ==> Unsent(s.streams[s.calls[call].stream], s.calls[call].id))
  }

  predicate SameRequests(a: Stream, b: Stream) {
    a.toCamera == b.toCamera && a.executed == b.executed
  }

  predicate SendsAs(c: Call, c': Call) {
    ToSend(c) && c.stream == c'.stream && c.id == c'.id
  }

  /** Only calls that had a request to send, or one with an unused id, have one. */
  ghost predicate SendersOf(s: State, calls: map<CallId, Call>) {
    forall call :: call in calls && ToSend(calls[call])
                   ==> (call in s.calls && SendsAs(s.calls[call], calls[call])) || FreshSender(s.streams, calls[call])
  }

  ghost predicate FreshSender(streams: map<StreamId, Stream>, c: Call) {
    c.stream in streams && Unsent(streams[c.stream], c.id)
  }

  ghost predicate RequestsKept(a: map<StreamId, Stream>, b: map<StreamId, Stream>) {
    forall sid :: sid in b ==> sid in a && SameRequests(a[sid], b[sid])
  }

  lemma SendingFrame(s: State, s': State)
    requires SendingOk(s) && RequestsKept(s.streams, s'.streams) && SendersOf(s, s'.calls)
    ensures SendingOk(s')
  {
    hide ToSend;
    forall sid | sid in s'.streams
      ensures OnceOk(s'.streams[sid])
    {
      assert OnceOk(s.streams[sid]) && SameRequests(s.streams[sid], s'.streams[sid]);
    }
  }

  lemma SentOnce(st: Stream, q: Request)
    requires OnceOk(st) && Unsent(st, q.id)
    ensures OnceOk(st.(toCamera := st.toCamera + [q]))
    ensures forall id :: id != q.id && Unsent(st, id) ==> Unsent(st.(toCamera := st.toCamera + [q]), id)
  {
  }

  lemma OtherId(s: State, call: CallId, other: CallId)
    requires IdsOk(s) && call in s.calls && other in s.calls && call != other
    requires HasId(s.calls[call]) && HasId(s.calls[other]) && s.calls[call].stream == s.calls[other].stream
    ensures s.calls[call].id != s.calls[other].id
  {
    hide OwnersOk, RegistryOk;
    assert CallOk(s.streams, call, s.calls[call]) && CallOk(s.streams, other, s.calls[other]);
  }

  lemma SendKeepsSending(s: State, call: CallId, delivered: bool, reported: bool)
    requires IdsOk(s) && SendingOk(s)
    ensures SendingOk(SendStep(s, call, delivered, reported))
  {
    hide IdsOk, OnceOk, Unsent;
    if At(s, call, Registered) {
      var c, s' := s.calls[call], SendStep(s, call, delivered, reported);
      SentOnce(s.streams[c.stream], Request(c.id, c.command));
      forall other | other in s'.calls && ToSend(s'.calls[other]) && s'.calls[other].stream in s'.streams
        ensures Unsent(s'.streams[s'.calls[other].stream], s'.calls[other].id)
      {
        if s.calls[other].stream == c.stream {
          OtherId(s, call, other);
        }
      }
    }
  }

  lemma UnsentFresh(calls: map<CallId, Call>, st: Stream, id: U32)
    requires MessagesOk(calls, st) && id !in st.owner
    ensures Unsent(st, id)
  {
  }

  lemma AllocateKeepsSending(s: State, call: CallId)
    requires IdsOk(s) && AllMessagesOk(s) && SendingOk(s) && IdsLast(AllocateStep(s, call))
    ensures SendingOk(AllocateStep(s, call))
  {
    hide IdsOk, IdsLast, SendingOk, Unsent;
    if At(s, call, Looked) {
      var st := s.streams[s.calls[call].stream];
      IssuedBound(s, call);
      FreshId(s, s.calls[call].stream);
      UnsentFresh(s.calls, st, st.nextId);
      SendingFrame(s, AllocateStep(s, call));
    }
  }

  lemma CameraOnce(st: Stream, result: CommandResult, replied: bool)
    requires OnceOk(st) && st.toCamera != []
    ensures OnceOk(CameraTurn(st, result, replied))
    ensures forall id :: Unsent(st, id) ==> Unsent(CameraTurn(st, result, replied), id)
  {
    assert st.toCamera[0] in st.toCamera;
  }

  lemma ExecuteKeepsSending(s: State, sid: StreamId, result: CommandResult, replied: bool)
    requires SendingOk(s)
    ensures SendingOk(ExecuteStep(s, sid, result, replied))
  {
    hide OnceOk, Unsent, CameraTurn;
    if sid in s.streams && s.streams[sid].toCamera != [] {
      CameraOnce(s.streams[sid], result, replied);
    }
  }

  lemma LoseKeepsSending(s: State, sid: StreamId, n: nat, m: nat)
    requires SendingOk(s)
    ensures SendingOk(LoseStep(s, sid, n, m))
  {
    hide OnceOk, Unsent;
    if sid in s.streams && n <= |s.streams[sid].toCamera| && m <= |s.streams[sid].toServer| {
      LostOnce(s.streams[sid], n, m);
    }
  }

  lemma LostOnce(st: Stream, n: nat, m: nat)
    requires OnceOk(st) && n <= |st.toCamera| && m <= |st.toServer|
    ensures var st' := st.(toCamera := st.toCamera[..n], toServer := st.toServer[..m]);
            OnceOk(st') && forall id :: Unsent(st, id) ==> Unsent(st', id)
  {
  }

  lemma ReceiveSame(s: State, sid: StreamId)
    ensures RequestsKept(s.streams, ReceiveStep(s, sid).streams)
  {
    hide Dispatch;
  }

  lemma FillKeepsSenders(s: State, call: CallId, response: Response)
    ensures SendersOf(s, FillSlot(s.calls, call, response))
  {
    hide Unsent;
  }

  lemma DropKeepsSenders(s: State, call: CallId)
    ensures SendersOf(s, DropSender(s.calls, call))
  {
    hide Unsent;
  }

  lemma SameSenders(s: State)
    ensures SendersOf(s, s.calls)
  {
    hide Unsent;
  }

  /** A call that moves on, from having a request to send or to having none. */
  lemma PhaseSenders(s: State, calls: map<CallId, Call>, call: CallId, phase: Phase)
    requires SendersOf(s, calls) && call in calls && (phase == Allocated || phase == Registered ==> ToSend(calls[call]))
    ensures SendersOf(s, calls[call := calls[call].(phase := phase)])
  {
    hide Unsent;
  }

  lemma ReceiveKeepsSending(s: State, sid: StreamId)
    requires SendingOk(s)
    ensures SendingOk(ReceiveStep(s, sid))
  {
    hide SendingOk, FillSlot, SendersOf, RequestsKept;
    ReceiveSame(s, sid);
    SameSenders(s);
    if sid in s.streams && s.streams[sid].toServer != [] {
      var st := s.streams[sid];
      if st.toServer[0].id in st.pending {
        FillKeepsSenders(s, st.pending[st.toServer[0].id], st.toServer[0]);
      }
    }
    SendingFrame(s, ReceiveStep(s, sid));
  }

  lemma RegisterSenders(s: State, call: CallId)
    ensures SendersOf(s, RegisterStep(s, call).calls)
  {
    hide DropSender, SendersOf;
    SameSenders(s);
    if At(s, call, Allocated) {
      var st, id := s.streams[s.calls[call].stream], s.calls[call].id;
      if id in st.pending {
        DropKeepsSenders(s, st.pending[id]);
        DropPhase(s.calls, st.pending[id], call);
      }
      PhaseSenders(s, InsertPending(s.calls, st.pending, id, call).0, call, Registered);
    }
  }

  lemma DropPhase(calls: map<CallId, Call>, dropped: CallId, call: CallId)
    ensures var calls' := DropSender(calls, dropped);
            call in calls ==> call in calls' && calls'[call].phase == calls[call].phase
  {
  }

  lemma LeaveSenders(s: State, call: CallId)
    ensures SendersOf(s, LeaveStep(s, call).calls)
  {
    hide DropSender, SendersOf;
    SameSenders(s);
    if call in s.calls && s.calls[call].phase.Leaving? && s.calls[call].stream in s.streams {
      var st, c := s.streams[s.calls[call].stream], s.calls[call];
      if c.id in st.pending {
        DropKeepsSenders(s, st.pending[c.id]);
        DropPhase(s.calls, st.pending[c.id], call);
      }
      PhaseSenders(s, RemovePending(s.calls, st.pending, c.id, call).0, call, Ended(Failed(c.phase.message)));
    }
  }

  lemma FinishSenders(s: State, call: CallId)
    ensures SendersOf(s, FinishStep(s, call).calls) && SendersOf(s, GiveUpStep(s, call).calls)
  {
    hide SendersOf;
    SameSenders(s);
    if At(s, call, Waiting) {
      PhaseSenders(s, s.calls, call, Leaving(TIMED_OUT));
      PhaseSenders(s, s.calls, call, Ended(Failed(DISCONNECTED)));
      if s.calls[call].slot.Filled? {
        PhaseSenders(s, s.calls, call, Ended(Answered(s.calls[call].slot.response)));
      }
    }
  }

  /** Silent steps give no call anything new to send. */
  lemma SilentSenders(s: State, step: Step)
    requires Silent(step)
    ensures SendersOf(s, Advance(s, step).calls)
  {
    hide SendersOf, RegisterStep, LeaveStep, FinishStep, GiveUpStep, RepliesStep;
    SameSenders(s);
    match step
    case Register(call) => RegisterSenders(s, call);
    case Leave(call) => LeaveSenders(s, call);
    case Finish(call) => FinishSenders(s, call);
    case GiveUp(call) => FinishSenders(s, call);
    case CloseReader(_) =>
    case ClientReplies(client, sent) => RepliesKeep(s, client, sent);
  }

  lemma SilentKeepsSending(s: State, step: Step)
    requires SendingOk(s) && Silent(step)
    ensures SendingOk(Advance(s, step))
  {
    hide SendingOk, Advance, SendersOf;
    QuietKeeps(s, step);
    SilentSenders(s, step);
    SendingFrame(s, Advance(s, step));
  }

  lemma AddedKeepsSending(s: State, s': State)
    requires SendingOk(s) && s'.streams == s.streams
    requires forall c :: c in s.calls ==> c in s'.calls && s'.calls[c] == s.calls[c]
    requires forall c :: c in s'.calls && c !in s.calls ==> FreshCall(s, s'.calls[c])
    ensures SendingOk(s')
  {
    hide SendingOk, Unsent;
    SendingFrame(s, s');
  }

  lemma ConnectKeepsSending(s: State, sid: StreamId, key: Key)
    requires IdsOk(s) && SendingOk(s)
    ensures SendingOk(ConnectStep(s, sid, key))
  {
    hide OwnersOk, RegistryOk, Unsent;
    assert forall c :: c in s.calls ==> CallOk(s.streams, c, s.calls[c]);
  }

  lemma AdvanceKeepsSending(s: State, step: Step)
    requires IdsOk(s) && AllMessagesOk(s) && SendingOk(s) && IdsLast(Advance(s, step))
    ensures SendingOk(Advance(s, step))
  {
    hide IdsOk, IdsLast, AllMessagesOk, SendingOk, ConnectStep, LookUpStep, AllocateStep, RegisterStep, SendStep,
         GiveUpStep, LeaveStep, FinishStep, ExecuteStep, ReceiveStep, CloseStep, LoseStep, TakesStep, RepliesStep;
    match step
    case Connect(sid, key) => ConnectKeepsSending(s, sid, key);
    case LookUp(call, key, command) =>
      LookUpAdds(s, call, key, command);
      AddedKeepsSending(s, LookUpStep(s, call, key, command));
    case ClientTakes(client, request, call) =>
      TakesAdds(s, client, request, call);
      AddedKeepsSending(s, TakesStep(s, client, request, call));
    case Allocate(call) => AllocateKeepsSending(s, call);
    case Send(call, delivered, reported) => SendKeepsSending(s, call, delivered, reported);
    case Execute(sid, result, replied) => ExecuteKeepsSending(s, sid, result, replied);
    case Receive(sid) => ReceiveKeepsSending(s, sid);
    case Lose(sid, n, m) => LoseKeepsSending(s, sid, n, m);
    case _ => SilentKeepsSending(s, step);
  }
}
