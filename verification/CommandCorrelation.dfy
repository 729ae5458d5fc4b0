/** Where a response comes from: pending entries, messages under way and filled slots all
lead back to the one call that owns the id. */
module CommandCorrelation {
  import opened Bytes
  import opened Commands
  import opened CommandInvariants

  // ---- pending entries ----

  /** A pending entry is that of the call that owns the id. */
  ghost predicate PendingOk(st: Stream) {
    forall id :: id in st.pending ==> id in st.owner && st.pending[id] == st.owner[id]
  }

  ghost predicate PendingsOk(s: State) {
    forall sid :: sid in s.streams ==> PendingOk(s.streams[sid])
  }

  lemma RegisterKeepsPendings(s: State, call: CallId)
    requires IdsOk(s) && PendingsOk(s)
    ensures PendingsOk(RegisterStep(s, call))
  {
    hide OwnersOk, RegistryOk, DropSender;
    if At(s, call, Allocated) {
      assert CallOk(s.streams, call, s.calls[call]);
    }
  }

  lemma LeaveKeepsPendings(s: State, call: CallId)
    requires PendingsOk(s)
    ensures PendingsOk(LeaveStep(s, call))
  {
    hide DropSender;
  }

  lemma ReceiveKeepsPendings(s: State, sid: StreamId)
    requires PendingsOk(s)
    ensures PendingsOk(ReceiveStep(s, sid))
  {
    hide FillSlot;
  }

  lemma AllocateKeepsPendings(s: State, call: CallId)
    requires IdsOk(s) && PendingsOk(s) && IdsLast(AllocateStep(s, call))
    ensures PendingsOk(AllocateStep(s, call))
  {
    hide IdsOk, IdsLast;
    if At(s, call, Looked) {
      IssuedBound(s, call);
      FreshId(s, s.calls[call].stream);
    }
  }

  /** Steps that do not touch pending entries. */
  lemma OtherKeepsPendings(s: State, step: Step)
    requires PendingsOk(s)
    requires step.Connect? || step.Send? || step.GiveUp? || step.Finish?
             || step.Execute? || step.CloseReader? || step.Lose?
    ensures PendingsOk(Advance(s, step))
  {
  }

  lemma AdvanceKeepsPendings(s: State, step: Step)
    requires IdsOk(s) && PendingsOk(s) && IdsLast(Advance(s, step))
    ensures PendingsOk(Advance(s, step))
  {
    hide IdsOk, IdsLast, PendingsOk, RegisterStep, LeaveStep, ReceiveStep, AllocateStep, LookUpStep, TakesStep,
         RepliesStep,
         ConnectStep, SendStep, GiveUpStep, FinishStep, ExecuteStep, CloseStep, LoseStep;
    match step
    case Allocate(call) => AllocateKeepsPendings(s, call);
    case Register(call) => RegisterKeepsPendings(s, call);
    case Leave(call) => LeaveKeepsPendings(s, call);
    case Receive(sid) => ReceiveKeepsPendings(s, sid);
    case LookUp(call, key, command) =>
      LookUpAdds(s, call, key, command);
      PendingsFrame(s, LookUpStep(s, call, key, command));
    case ClientTakes(client, request, call) =>
      TakesAdds(s, client, request, call);
      PendingsFrame(s, TakesStep(s, client, request, call));
    case ClientReplies(client, sent) =>
      RepliesKeep(s, client, sent);
      PendingsFrame(s, RepliesStep(s, client, sent));
    case _ => OtherKeepsPendings(s, step);
  }

  lemma PendingsFrame(s: State, s': State)
    requires PendingsOk(s) && s'.streams == s.streams
    ensures PendingsOk(s')
  {
  }

  // ---- messages ----

  /** The id was given to a call with that command. */
  ghost predicate Commanded(calls: map<CallId, Call>, st: Stream, id: U32, command: Command) {
    id in st.owner && st.owner[id] in calls && calls[st.owner[id]].command == command
  }

  /** The camera carried out a command under this id with this result. */
  ghost predicate Replied(executed: seq<Execution>, r: Response) {
    exists e :: e in executed && e.id == r.id && e.result == r.result
  }

  ghost predicate MessagesOk(calls: map<CallId, Call>, st: Stream) {
    && (forall q :: q in st.toCamera ==> Commanded(calls, st, q.id, q.command))
    && (forall e :: e in st.executed ==> Commanded(calls, st, e.id, e.command))
    && (forall r :: r in st.toServer ==> r.id == 0 || Replied(st.executed, r))
  }

  ghost predicate AllMessagesOk(s: State) {
    forall sid :: sid in s.streams ==> MessagesOk(s.calls, s.streams[sid])
  }

  /** What a message refers to stays known. */
  ghost predicate Grows(calls: map<CallId, Call>, st: Stream, calls': map<CallId, Call>, st': Stream) {
    && (forall id :: id in st.owner ==> id in st'.owner && st'.owner[id] == st.owner[id])
    && (forall c :: c in calls ==> c in calls' && calls'[c].command == calls[c].command)
  }

  lemma StillCommanded(calls: map<CallId, Call>, st: Stream, calls': map<CallId, Call>, st': Stream)
    requires Grows(calls, st, calls', st')
    ensures forall id, command :: Commanded(calls, st, id, command) ==> Commanded(calls', st', id, command)
  {
  }

  lemma MessagesFrame(calls: map<CallId, Call>, st: Stream, calls': map<CallId, Call>, st': Stream)
    requires MessagesOk(calls, st) && SameMessages(st, st') && Grows(calls, st, calls', st')
    ensures MessagesOk(calls', st')
  {
    hide Commanded, Grows;
    StillCommanded(calls, st, calls', st');
  }

  lemma KeptGrows(s: State, s': State, sid: StreamId)
    requires Kept(s, s') && sid in s.streams
    ensures Grows(s.calls, s.streams[sid], s'.calls, s'.streams[sid])
  {
    assert SameIds(s.streams[sid], s'.streams[sid]);
  }

  lemma CameraMessages(calls: map<CallId, Call>, st: Stream, result: CommandResult, replied: bool)
    requires MessagesOk(calls, st) && st.toCamera != []
    ensures MessagesOk(calls, CameraTurn(st, result, replied))
  {
    hide Commanded;
    var q, st' := st.toCamera[0], CameraTurn(st, result, replied);
    var e := Execution(q.id, q.command, result);
    assert q in st.toCamera && e in st'.executed;
    StillCommanded(calls, st, calls, st');
    forall r | r in st'.toServer
      ensures r.id == 0 || Replied(st'.executed, r)
    {
      if r == Response(q.id, result) {
        assert Replied(st'.executed, r);
      } else if r.id != 0 {
        StillReplied(st.executed, e, r);
      }
    }
  }

  lemma StillReplied(executed: seq<Execution>, e: Execution, r: Response)
    requires Replied(executed, r)
    ensures Replied(executed + [e], r)
  {
    var d :| d in executed && d.id == r.id && d.result == r.result;
    assert d in executed + [e];
  }

  lemma ReceivedMessages(calls: map<CallId, Call>, st: Stream, pending: map<U32, CallId>)
    requires MessagesOk(calls, st) && st.toServer != []
    ensures MessagesOk(calls, st.(pending := pending, toServer := st.toServer[1..]))
  {
    hide Commanded;
    StillCommanded(calls, st, calls, st.(pending := pending, toServer := st.toServer[1..]));
  }

  lemma LostMessages(calls: map<CallId, Call>, st: Stream, n: nat, m: nat)
    requires MessagesOk(calls, st) && n <= |st.toCamera| && m <= |st.toServer|
    ensures MessagesOk(calls, st.(toCamera := st.toCamera[..n], toServer := st.toServer[..m]))
  {
    hide Commanded;
    StillCommanded(calls, st, calls, st.(toCamera := st.toCamera[..n], toServer := st.toServer[..m]));
  }

  lemma SentMessages(calls: map<CallId, Call>, st: Stream, q: Request)
    requires MessagesOk(calls, st) && Commanded(calls, st, q.id, q.command)
    ensures MessagesOk(calls, st.(toCamera := st.toCamera + [q]))
  {
    hide Commanded;
    StillCommanded(calls, st, calls, st.(toCamera := st.toCamera + [q]));
  }

  lemma SendKeepsMessages(s: State, call: CallId, delivered: bool, reported: bool)
    requires IdsOk(s) && AllMessagesOk(s)
    ensures AllMessagesOk(SendStep(s, call, delivered, reported))
  {
    hide MessagesOk, OwnersOk, RegistryOk, Kept, Grows;
    var s' := SendStep(s, call, delivered, reported);
    SendKeeps(s, call, delivered, reported);
    SameStreams(s, s');
    forall sid | sid in s'.streams
      ensures MessagesOk(s'.calls, s'.streams[sid])
    {
      KeptGrows(s, s', sid);
      assert MessagesOk(s.calls, s.streams[sid]);
      if SameMessages(s.streams[sid], s'.streams[sid]) {
        MessagesFrame(s.calls, s.streams[sid], s'.calls, s'.streams[sid]);
      } else {
        var c := s.calls[call];
        assert CallOk(s.streams, call, c);
        var st' := s.streams[sid].(toCamera := s.streams[sid].toCamera + [Request(c.id, c.command)]);
        SentMessages(s.calls, s.streams[sid], Request(c.id, c.command));
        SameGrows(s.calls, s.streams[sid], s'.calls, s'.streams[sid], st');
        MessagesFrame(s.calls, st', s'.calls, s'.streams[sid]);
      }
    }
  }

  lemma SameStreams(s: State, s': State)
    requires Kept(s, s')
    ensures s'.streams.Keys == s.streams.Keys
  {
  }

  lemma SameGrows(calls: map<CallId, Call>, st: Stream, calls': map<CallId, Call>, st': Stream, mid: Stream)
    requires Grows(calls, st, calls', st') && mid.owner == st.owner
    ensures Grows(calls, mid, calls', st')
  {
  }

  lemma ExecuteKeepsMessages(s: State, sid: StreamId, result: CommandResult, replied: bool)
    requires AllMessagesOk(s)
    ensures AllMessagesOk(ExecuteStep(s, sid, result, replied))
  {
    hide MessagesOk, CameraTurn;
    if sid in s.streams && s.streams[sid].toCamera != [] {
      CameraMessages(s.calls, s.streams[sid], result, replied);
    }
  }

  lemma LoseKeepsMessages(s: State, sid: StreamId, n: nat, m: nat)
    requires AllMessagesOk(s)
    ensures AllMessagesOk(LoseStep(s, sid, n, m))
  {
    hide MessagesOk;
    if sid in s.streams && n <= |s.streams[sid].toCamera| && m <= |s.streams[sid].toServer| {
      LostMessages(s.calls, s.streams[sid], n, m);
    }
  }

  lemma ReceiveKeepsMessages(s: State, sid: StreamId)
    requires AllMessagesOk(s)
    ensures AllMessagesOk(ReceiveStep(s, sid))
  {
    hide MessagesOk, Kept, Grows, Dispatch;
    var s' := ReceiveStep(s, sid);
    ReceiveKeeps(s, sid);
    SameStreams(s, s');
    forall i | i in s'.streams
      ensures MessagesOk(s'.calls, s'.streams[i])
    {
      KeptGrows(s, s', i);
      assert MessagesOk(s.calls, s.streams[i]);
      if SameMessages(s.streams[i], s'.streams[i]) {
        MessagesFrame(s.calls, s.streams[i], s'.calls, s'.streams[i]);
      } else {
        ReceivedMessages(s.calls, s.streams[i], s'.streams[i].pending);
        var st' := s.streams[i].(pending := s'.streams[i].pending, toServer := s.streams[i].toServer[1..]);
        SameGrows(s.calls, s.streams[i], s'.calls, s'.streams[i], st');
        MessagesFrame(s.calls, st', s'.calls, s'.streams[i]);
      }
    }
  }

  lemma AllocateKeepsMessages(s: State, call: CallId)
    requires IdsOk(s) && AllMessagesOk(s) && IdsLast(AllocateStep(s, call))
    ensures AllMessagesOk(AllocateStep(s, call))
  {
    hide MessagesOk, IdsOk, IdsLast;
    if At(s, call, Looked) {
      IssuedBound(s, call);
      FreshId(s, s.calls[call].stream);
      var s' := AllocateStep(s, call);
      forall sid | sid in s'.streams
        ensures MessagesOk(s'.calls, s'.streams[sid])
      {
        MessagesFrame(s.calls, s.streams[sid], s'.calls, s'.streams[sid]);
      }
    }
  }

  lemma SilentKeepsMessages(s: State, step: Step)
    requires AllMessagesOk(s) && Silent(step)
    ensures AllMessagesOk(Advance(s, step))
  {
    hide MessagesOk, Kept, Advance, Grows;
    QuietKeeps(s, step);
    var s' := Advance(s, step);
    forall sid | sid in s'.streams
      ensures MessagesOk(s'.calls, s'.streams[sid])
    {
      KeptGrows(s, s', sid);
      MessagesFrame(s.calls, s.streams[sid], s'.calls, s'.streams[sid]);
    }
  }

  lemma AddedKeepsMessages(s: State, s': State)
    requires AllMessagesOk(s) && s'.streams == s.streams
    requires forall c :: c in s.calls ==> c in s'.calls && s'.calls[c] == s.calls[c]
    ensures AllMessagesOk(s')
  {
    hide MessagesOk;
    forall sid | sid in s'.streams
      ensures MessagesOk(s'.calls, s'.streams[sid])
    {
      MessagesFrame(s.calls, s.streams[sid], s'.calls, s'.streams[sid]);
    }
  }

  lemma ConnectKeepsMessages(s: State, sid: StreamId, key: Key)
    requires AllMessagesOk(s)
    ensures AllMessagesOk(ConnectStep(s, sid, key))
  {
  }

  lemma AdvanceKeepsMessages(s: State, step: Step)
    requires IdsOk(s) && AllMessagesOk(s) && IdsLast(Advance(s, step))
    ensures AllMessagesOk(Advance(s, step))
  {
    hide IdsOk, IdsLast, AllMessagesOk, ConnectStep, LookUpStep, AllocateStep, SendStep, ExecuteStep, ReceiveStep,
         LoseStep, TakesStep,
         RegisterStep, GiveUpStep, LeaveStep, FinishStep, CloseStep, RepliesStep;
    match step
    case Connect(sid, key) => ConnectKeepsMessages(s, sid, key);
    case LookUp(call, key, command) =>
      LookUpAdds(s, call, key, command);
      AddedKeepsMessages(s, LookUpStep(s, call, key, command));
    case ClientTakes(client, request, call) =>
      TakesAdds(s, client, request, call);
      AddedKeepsMessages(s, TakesStep(s, client, request, call));
    case Allocate(call) => AllocateKeepsMessages(s, call);
    case Send(call, delivered, reported) => SendKeepsMessages(s, call, delivered, reported);
    case Execute(sid, result, replied) => ExecuteKeepsMessages(s, sid, result, replied);
    case Receive(sid) => ReceiveKeepsMessages(s, sid);
    case Lose(sid, n, m) => LoseKeepsMessages(s, sid, n, m);
    case _ => SilentKeepsMessages(s, step);
  }
}
