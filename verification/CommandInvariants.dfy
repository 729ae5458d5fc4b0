/** Who owns which id: what every step of the command machine does to ids, streams and calls. */
module CommandInvariants {
  import opened Bytes
  import opened Commands

  /** No stream has given out as many ids as there are nonzero 32-bit numbers. */
  ghost predicate IdsLast(s: State) {
    forall sid :: sid in s.streams ==> s.streams[sid].issued < TWO_32
  }

  /** The call has taken an id. */
  predicate HasId(c: Call) {
    !c.phase.Looked?
  }

  // ---- what most steps leave alone ----

  predicate SameCall(a: Call, b: Call) {
    a.key == b.key && a.command == b.command && a.stream == b.stream && a.id == b.id && HasId(a) == HasId(b)
  }

  ghost predicate CallsKept(a: map<CallId, Call>, b: map<CallId, Call>) {
    a.Keys == b.Keys && forall call :: call in a ==> SameCall(a[call], b[call])
  }

  predicate SameIds(a: Stream, b: Stream) {
    a.key == b.key && a.nextId == b.nextId && a.issued == b.issued && a.owner == b.owner
  }

  ghost predicate StreamsKept(a: map<StreamId, Stream>, b: map<StreamId, Stream>) {
    a.Keys == b.Keys && forall sid :: sid in a ==> SameIds(a[sid], b[sid])
  }

  predicate SameMessages(a: Stream, b: Stream) {
    a.toCamera == b.toCamera && a.toServer == b.toServer && a.executed == b.executed
  }

  ghost predicate MessagesKept(a: map<StreamId, Stream>, b: map<StreamId, Stream>) {
    a.Keys == b.Keys && forall sid :: sid in a ==> SameMessages(a[sid], b[sid])
  }

  /** The same calls and streams, with the same ids; the registry at most loses entries. */
  ghost predicate Kept(s: State, s': State) {
    && CallsKept(s.calls, s'.calls) && StreamsKept(s.streams, s'.streams)
    && s'.cameraCommands.Keys <= s.cameraCommands.Keys
    && (forall key :: key in s'.cameraCommands ==> s'.cameraCommands[key] == s.cameraCommands[key])
  }

  lemma DropKeeps(calls: map<CallId, Call>, call: CallId)
    ensures CallsKept(calls, DropSender(calls, call))
  {
  }

  lemma FillKeeps(calls: map<CallId, Call>, call: CallId, response: Response)
    ensures CallsKept(calls, FillSlot(calls, call, response))
  {
  }

  lemma RegisterKeeps(s: State, call: CallId)
    ensures Kept(s, RegisterStep(s, call)) && MessagesKept(s.streams, RegisterStep(s, call).streams)
  {
    hide DropSender;
    if At(s, call, Allocated) {
      var st := s.streams[s.calls[call].stream];
      if s.calls[call].id in st.pending {
        DropKeeps(s.calls, st.pending[s.calls[call].id]);
      }
    }
  }

  lemma LeaveKeeps(s: State, call: CallId)
    ensures Kept(s, LeaveStep(s, call)) && MessagesKept(s.streams, LeaveStep(s, call).streams)
  {
    hide DropSender;
    if call in s.calls && s.calls[call].stream in s.streams {
      var st := s.streams[s.calls[call].stream];
      if s.calls[call].id in st.pending {
        DropKeeps(s.calls, st.pending[s.calls[call].id]);
      }
    }
  }

  lemma ReceiveKeeps(s: State, sid: StreamId)
    ensures Kept(s, ReceiveStep(s, sid))
  {
    hide FillSlot;
    if sid in s.streams && s.streams[sid].toServer != [] {
      var st := s.streams[sid];
      var response := st.toServer[0];
      if response.id in st.pending {
        FillKeeps(s.calls, st.pending[response.id], response);
      }
    }
  }

  lemma SendKeeps(s: State, call: CallId, delivered: bool, reported: bool)
    ensures Kept(s, SendStep(s, call, delivered, reported))
  {
  }

  lemma PhaseKeeps(s: State, call: CallId, phase: Phase)
    requires call in s.calls && HasId(s.calls[call]) && !phase.Looked?
    ensures Kept(s, SetPhase(s, call, phase)) && SetPhase(s, call, phase).streams == s.streams
  {
  }

  lemma GiveUpKeeps(s: State, call: CallId)
    ensures Kept(s, GiveUpStep(s, call)) && MessagesKept(s.streams, GiveUpStep(s, call).streams)
  {
    hide Kept, SetPhase;
    SameKept(s);
    if At(s, call, Waiting) {
      PhaseKeeps(s, call, Leaving(TIMED_OUT));
    }
  }

  lemma FinishKeeps(s: State, call: CallId)
    ensures Kept(s, FinishStep(s, call)) && MessagesKept(s.streams, FinishStep(s, call).streams)
  {
    hide Kept, SetPhase;
    SameKept(s);
    if At(s, call, Waiting) {
      PhaseKeeps(s, call, Ended(Failed(DISCONNECTED)));
      if s.calls[call].slot.Filled? {
        PhaseKeeps(s, call, Ended(Answered(s.calls[call].slot.response)));
      }
    }
  }

  lemma ExecuteKeeps(s: State, sid: StreamId, result: CommandResult, replied: bool)
    ensures Kept(s, ExecuteStep(s, sid, result, replied))
  {
  }

  lemma CloseKeeps(s: State, sid: StreamId)
    ensures Kept(s, CloseStep(s, sid)) && MessagesKept(s.streams, CloseStep(s, sid).streams)
  {
  }

  lemma LoseKeeps(s: State, sid: StreamId, n: nat, m: nat)
    ensures Kept(s, LoseStep(s, sid, n, m))
  {
  }

  lemma RepliesKeep(s: State, client: ClientId, sent: bool)
    ensures var s' := RepliesStep(s, client, sent);
            && s'.streams == s.streams && s'.calls == s.calls
            && s'.refused == s.refused && s'.cameraCommands == s.cameraCommands
  {
  }

  lemma SameKept(s: State)
    ensures Kept(s, s) && MessagesKept(s.streams, s.streams)
  {
  }

  /** Steps that neither create calls or streams nor give out ids. */
  predicate Quiet(step: Step) {
    !step.Connect? && !step.LookUp? && !step.Allocate? && !step.ClientTakes?
  }

  /** Quiet steps that touch no message. */
  predicate Silent(step: Step) {
    step.Register? || step.GiveUp? || step.Leave? || step.Finish? || step.CloseReader? || step.ClientReplies?
  }

  lemma QuietKeeps(s: State, step: Step)
    requires Quiet(step)
    ensures Kept(s, Advance(s, step))
    ensures Silent(step) ==> MessagesKept(s.streams, Advance(s, step).streams)
  {
    hide Kept, MessagesKept, RegisterStep, SendStep, GiveUpStep, LeaveStep, FinishStep, ExecuteStep, ReceiveStep,
         CloseStep, LoseStep, RepliesStep;
    match step
    case Register(call) => RegisterKeeps(s, call);
    case Send(call, delivered, reported) => SendKeeps(s, call, delivered, reported);
    case GiveUp(call) => GiveUpKeeps(s, call);
    case Leave(call) => LeaveKeeps(s, call);
    case Finish(call) => FinishKeeps(s, call);
    case Execute(sid, result, replied) => ExecuteKeeps(s, sid, result, replied);
    case Receive(sid) => ReceiveKeeps(s, sid);
    case CloseReader(sid) => CloseKeeps(s, sid);
    case Lose(sid, n, m) => LoseKeeps(s, sid, n, m);
    case ClientReplies(client, sent) =>
      RepliesKeep(s, client, sent);
      SameFieldsKept(s, RepliesStep(s, client, sent));
  }

  lemma SameFieldsKept(s: State, s': State)
    requires s'.streams == s.streams && s'.calls == s.calls && s'.cameraCommands == s.cameraCommands
    ensures Kept(s, s') && MessagesKept(s.streams, s'.streams)
  {
  }

  /** A call that has just found its stream. */
  ghost predicate FreshCall(s: State, c: Call) {
    c.phase == Looked && c.slot == Empty && c.key in s.cameraCommands && c.stream == s.cameraCommands[c.key]
  }

  /** Looking up creates one call at most, and nothing else. */
  lemma LookUpAdds(s: State, call: CallId, key: Key, command: Command)
    ensures var s' := LookUpStep(s, call, key, command);
            && s'.streams == s.streams && s'.cameraCommands == s.cameraCommands && s'.clients == s.clients
            && (forall c :: c in s.calls ==> c in s'.calls && s'.calls[c] == s.calls[c])
            && (forall c :: c in s'.calls && c !in s.calls ==> c == call && FreshCall(s, s'.calls[c]))
            && s.refused <= s'.refused
  {
  }

  lemma TakesAdds(s: State, client: ClientId, request: ClientRequest, call: CallId)
    ensures var s' := TakesStep(s, client, request, call);
            && s'.streams == s.streams && s'.cameraCommands == s.cameraCommands
            && (forall c :: c in s.calls ==> c in s'.calls && s'.calls[c] == s.calls[c])
            && (forall c :: c in s'.calls && c !in s.calls ==> c == call && FreshCall(s, s'.calls[c]))
            && s.refused <= s'.refused
  {
    hide Idle;
  }

  // ---- who owns which id ----

  ghost predicate OwnedBy(calls: map<CallId, Call>, sid: StreamId, id: U32, call: CallId) {
    call in calls && calls[call].stream == sid && calls[call].id == id && HasId(calls[call])
  }

  /** Ids are given out in order from 1, each to one call of the stream. */
  ghost predicate OwnersOk(calls: map<CallId, Call>, sid: StreamId, st: Stream) {
    && st.nextId == (st.issued + 1) % TWO_32
    && (forall id :: id in st.owner ==> 0 < id <= st.issued && OwnedBy(calls, sid, id, st.owner[id]))
  }

  /** A call belongs to a stream of the camera it names, and owns its id there. */
  ghost predicate CallOk(streams: map<StreamId, Stream>, call: CallId, c: Call) {
    && c.stream in streams && streams[c.stream].key == c.key
    && (HasId(c) ==> c.id in streams[c.stream].owner && streams[c.stream].owner[c.id] == call)
  }

  ghost predicate RegistryOk(s: State) {
    forall key :: key in s.cameraCommands
        ==> s.cameraCommands[key] in s.streams && s.streams[s.cameraCommands[key]].key == key
  }

  ghost predicate IdsOk(s: State) {
    && RegistryOk(s)
    && (forall sid :: sid in s.streams ==> OwnersOk(s.calls, sid, s.streams[sid]))
    && (forall call :: call in s.calls ==> CallOk(s.streams, call, s.calls[call]))
  }

  lemma IdsFrame(s: State, s': State)
    requires IdsOk(s) && Kept(s, s')
    ensures IdsOk(s')
  {
    forall sid | sid in s'.streams
      ensures OwnersOk(s'.calls, sid, s'.streams[sid])
    {
      assert OwnersOk(s.calls, sid, s.streams[sid]) && SameIds(s.streams[sid], s'.streams[sid]);
    }
  }

  /** A new call without an id. */
  lemma AddedKeepsIds(s: State, s': State)
    requires IdsOk(s) && s'.streams == s.streams && s'.cameraCommands == s.cameraCommands
    requires forall c :: c in s.calls ==> c in s'.calls && s'.calls[c] == s.calls[c]
    requires forall c :: c in s'.calls && c !in s.calls ==> FreshCall(s, s'.calls[c])
    ensures IdsOk(s')
  {
  }

  lemma ConnectKeepsIds(s: State, sid: StreamId, key: Key)
    requires IdsOk(s)
    ensures IdsOk(ConnectStep(s, sid, key))
  {
    if sid !in s.streams {
      assert forall call :: call in s.calls ==> CallOk(s.streams, call, s.calls[call]);
    }
  }

  /** The next id has no owner yet. */
  lemma FreshId(s: State, sid: StreamId)
    requires IdsOk(s) && sid in s.streams && s.streams[sid].issued + 1 < TWO_32
    ensures s.streams[sid].nextId == s.streams[sid].issued + 1 && s.streams[sid].nextId !in s.streams[sid].owner
  {
    assert OwnersOk(s.calls, sid, s.streams[sid]);
  }

  lemma IssuedBound(s: State, call: CallId)
    requires At(s, call, Looked) && IdsLast(AllocateStep(s, call))
    ensures s.streams[s.calls[call].stream].issued + 1 < TWO_32
  {
    assert s.calls[call].stream in AllocateStep(s, call).streams;
  }

  lemma AllocateKeepsOwners(s: State, call: CallId, sid: StreamId)
    requires IdsOk(s) && At(s, call, Looked) && sid in s.streams
    requires s.streams[s.calls[call].stream].issued + 1 < TWO_32
    ensures OwnersOk(AllocateStep(s, call).calls, sid, AllocateStep(s, call).streams[sid])
  {
    hide CallOk, RegistryOk;
    assert OwnersOk(s.calls, sid, s.streams[sid]);
  }

  lemma AllocateKeepsIds(s: State, call: CallId)
    requires IdsOk(s) && IdsLast(AllocateStep(s, call))
    ensures IdsOk(AllocateStep(s, call))
  {
    hide IdsLast, OwnersOk;
    if At(s, call, Looked) {
      IssuedBound(s, call);
      var s' := AllocateStep(s, call);
      FreshId(s, s.calls[call].stream);
      forall sid | sid in s'.streams
        ensures OwnersOk(s'.calls, sid, s'.streams[sid])
      {
        AllocateKeepsOwners(s, call, sid);
      }
      forall c | c in s'.calls
        ensures CallOk(s'.streams, c, s'.calls[c])
      {
        assert CallOk(s.streams, c, s.calls[c]);
      }
    }
  }

  lemma AdvanceKeepsIds(s: State, step: Step)
    requires IdsOk(s) && IdsLast(Advance(s, step))
    ensures IdsOk(Advance(s, step))
  {
    hide IdsOk, IdsLast, Kept, ConnectStep, LookUpStep, AllocateStep, TakesStep;
    match step
    case Connect(sid, key) => ConnectKeepsIds(s, sid, key);
    case LookUp(call, key, command) =>
      LookUpAdds(s, call, key, command);
      AddedKeepsIds(s, LookUpStep(s, call, key, command));
    case Allocate(call) => AllocateKeepsIds(s, call);
    case ClientTakes(client, request, call) =>
      TakesAdds(s, client, request, call);
      AddedKeepsIds(s, TakesStep(s, client, request, call));
    case _ =>
      QuietKeeps(s, step);
      IdsFrame(s, Advance(s, step));
  }
}
