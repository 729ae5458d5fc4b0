/** What becomes of a response that arrives: the call that waits for it has it in hand, in
every interleaving, whatever else is under way. */
module CommandDelivery {
  import opened Bytes
  import opened Commands
  import opened CommandInvariants
  import opened CommandCorrelation
  import opened CommandSlots
  import opened CommandHolders
  import opened CommandRuns

  // ---- what a reader has read ----

  /** The reader of the stream takes its next message in this step. */
  predicate Reads(s: State, step: Step, sid: StreamId) {
    step == Receive(sid) && sid in s.streams && s.streams[sid].readerOpen && s.streams[sid].toServer != []
  }

  /** The responses that the reader of a stream has taken off it, in order. */
  function ReadBy(steps: seq<Step>, sid: StreamId): seq<Response>
    decreases |steps|
  {
    if steps == [] then []
    else
      var before, step := steps[..|steps| - 1], steps[|steps| - 1];
      if Reads(Run(before), step, sid) then ReadBy(before, sid) + [Run(before).streams[sid].toServer[0]]
      else ReadBy(before, sid)
  }

  /** The call has entered its oneshot and has not ended. */
  predicate Entered(c: Call) {
    c.phase == Registered || c.phase == Waiting || c.phase.Leaving?
  }

  ghost predicate HasEntry(s: State, call: CallId)
    requires call in s.calls
  {
    var c := s.calls[call];
    c.stream in s.streams && c.id in s.streams[c.stream].pending && s.streams[c.stream].pending[c.id] == call
  }

  /** The call has in hand what was read under its id, and its entry as long as that is
  nothing. */
  ghost predicate InHand(s: State, read: seq<Response>, call: CallId)
    requires call in s.calls
  {
    var c := s.calls[call];
    && (c.slot == Empty ==> HasEntry(s, call))
    && (forall r :: r in read && r.id == c.id ==> c.slot == Filled(r))
    && (c.slot.Filled? ==> c.slot.response in read)
  }

  ghost predicate AllInHand(steps: seq<Step>) {
    var s := Run(steps);
    forall call :: call in s.calls && Entered(s.calls[call]) ==> InHand(s, ReadBy(steps, s.calls[call].stream), call)
  }

  /** Whatever was read had been carried out. */
  ghost predicate ReadOk(s: State, sid: StreamId, read: seq<Response>) {
    forall r :: r in read ==> r.id == 0 || (sid in s.streams && Replied(s.streams[sid].executed, r))
  }

  // ---- holders and entries ----

  lemma ReleaseKeepsStream(s: State, x: StreamId, h: Holder, sid: StreamId)
    requires sid in s.streams && HoldersOf(Release(s, x, h), sid) != {}
    ensures var s' := Release(s, x, h);
            sid in s'.streams && s'.streams[sid] == s.streams[sid] && HoldersOf(s, sid) != {}
  {
    hide DropSenders;
  }

  lemma EntryKeepsStream(s: State, registered: map<Key, StreamId>, key: Key, sid: StreamId)
    requires sid in s.streams && HoldersOf(ReleaseEntry(s, registered, key), sid) != {}
    ensures var s' := ReleaseEntry(s, registered, key);
            sid in s'.streams && s'.streams[sid] == s.streams[sid] && HoldersOf(s, sid) != {}
  {
    hide Release, HoldersOf;
    if key in registered {
      ReleaseKeepsStream(s, registered[key], Registry, sid);
    }
  }

  /** A state that is still held was not dropped in this step. */
  lemma HeldIsKept(s: State, step: Step, sid: StreamId)
    requires sid in Advance(s, step).streams && HoldersOf(Next(s, step), sid) != {}
    ensures sid in Next(s, step).streams && Next(s, step).streams[sid] == Advance(s, step).streams[sid]
  {
    hide Advance, Release, ReleaseEntry, HoldersOf;
    var s' := Advance(s, step);
    match step
    case Connect(x, key) =>
      if x !in s.streams {
        EntryKeepsStream(Hold(Hold(s', x, Registry), x, Reader), s.cameraCommands, key, sid);
      }
    case Leave(call) =>
      if call in s'.calls && LetGo(s, s', call) != s' {
        ReleaseKeepsStream(s', s'.calls[call].stream, Caller(call), sid);
      }
    case Finish(call) =>
      if call in s'.calls && LetGo(s, s', call) != s' {
        ReleaseKeepsStream(s', s'.calls[call].stream, Caller(call), sid);
      }
    case CloseReader(x) =>
      if x in s.streams && s.streams[x].readerOpen {
        var s1 := ReleaseEntry(s', s.cameraCommands, s.streams[x].key);
        NextIsLighter(s, step);
        StreamThere(s', s1, s.cameraCommands, s.streams[x].key, sid);
        ReleaseKeepsStream(s1, x, Reader, sid);
        EntryKeepsStream(s', s.cameraCommands, s.streams[x].key, sid);
      }
    case _ =>
  }

  lemma StreamThere(s: State, s': State, registered: map<Key, StreamId>, key: Key, sid: StreamId)
    requires sid in s.streams && s' == ReleaseEntry(s, registered, key)
    ensures sid in s'.streams
  {
    EntryIsLighter(s, registered, key);
  }

  /** So letting go leaves every entered call as it is, its entry included. */
  lemma NextKeepsInHand(s: State, step: Step, read: seq<Response>, call: CallId)
    requires HeldOk(Next(s, step)) && call in Advance(s, step).calls && Entered(Advance(s, step).calls[call])
    requires InHand(Advance(s, step), read, call)
    ensures call in Next(s, step).calls && InHand(Next(s, step), read, call)
  {
    hide Advance, Next, IdsOk, PendingsOk;
    var a, b := Advance(s, step), Next(s, step);
    NextIsLighter(s, step);
    assert SlotOk(b.streams, b.calls[call]);
    assert Live(b, call);
    if HasEntry(a, call) {
      HeldIsKept(s, step, a.calls[call].stream);
    }
  }

  // ---- one step ----

  /** The call is as it was, and so is its entry. */
  ghost predicate StandsBy(s: State, s': State, call: CallId)
    requires call in s'.calls
  {
    && call in s.calls && Entered(s.calls[call]) && s'.calls[call].slot == s.calls[call].slot
    && s'.calls[call].id == s.calls[call].id && s'.calls[call].stream == s.calls[call].stream
    && (HasEntry(s, call) ==> HasEntry(s', call))
  }

  lemma StandsByInHand(s: State, s': State, read: seq<Response>, call: CallId)
    requires call in s'.calls && StandsBy(s, s', call)
    requires call in s.calls && Entered(s.calls[call]) ==> InHand(s, read, call)
    ensures InHand(s', read, call)
  {
  }

  lemma CallStepStandsBy(s: State, step: Step, call: CallId)
    requires step.Allocate? || step.Send? || step.GiveUp? || step.Finish?
    requires call in Advance(s, step).calls && Entered(Advance(s, step).calls[call])
    ensures StandsBy(s, Advance(s, step), call)
  {
  }

  lemma StreamStepStandsBy(s: State, step: Step, call: CallId)
    requires step.Connect? || step.Execute? || step.CloseReader? || step.Lose?
    requires call in Advance(s, step).calls && Entered(Advance(s, step).calls[call])
    ensures StandsBy(s, Advance(s, step), call)
  {
  }

  lemma ClientStepStandsBy(s: State, step: Step, call: CallId)
    requires step.LookUp? || step.ClientTakes? || step.ClientReplies?
    requires call in Advance(s, step).calls && Entered(Advance(s, step).calls[call])
    ensures StandsBy(s, Advance(s, step), call)
  {
    hide LookUpStep, TakesStep, RepliesStep;
    match step
    case LookUp(c, key, command) => LookUpAdds(s, c, key, command);
    case ClientTakes(client, request, c) => TakesAdds(s, client, request, c);
    case ClientReplies(client, sent) => RepliesKeep(s, client, sent);
  }

  /** Two calls of one stream have different ids. */
  lemma DifferentIds(s: State, a: CallId, b: CallId)
    requires IdsOk(s) && a in s.calls && b in s.calls && a != b && HasId(s.calls[a]) && HasId(s.calls[b])
    requires s.calls[a].stream == s.calls[b].stream
    ensures s.calls[a].id != s.calls[b].id
  {
    hide OwnersOk, RegistryOk;
    assert CallOk(s.streams, a, s.calls[a]) && CallOk(s.streams, b, s.calls[b]);
  }

  lemma RegisterStandsBy(s: State, x: CallId, call: CallId)
    requires IdsOk(s) && PendingsOk(s) && call != x
    requires call in RegisterStep(s, x).calls && Entered(RegisterStep(s, x).calls[call])
    ensures StandsBy(s, RegisterStep(s, x), call)
  {
    hide IdsOk, PendingsOk, DropSender;
    if At(s, x, Allocated) {
      OwnEntry(s, x);
      if s.calls[call].stream == s.calls[x].stream {
        DifferentIds(s, x, call);
      }
    }
  }

  lemma LeaveStandsBy(s: State, x: CallId, call: CallId)
    requires IdsOk(s) && PendingsOk(s)
    requires call in LeaveStep(s, x).calls && Entered(LeaveStep(s, x).calls[call])
    ensures StandsBy(s, LeaveStep(s, x), call)
  {
    hide IdsOk, PendingsOk, DropSender;
    if x in s.calls && s.calls[x].phase.Leaving? && s.calls[x].stream in s.streams {
      OwnEntry(s, x);
      if s.calls[call].stream == s.calls[x].stream && call != x {
        DifferentIds(s, x, call);
      }
    }
  }

  /** Ids of calls are not that of the ready signal. */
  lemma IdNotZero(s: State, call: CallId)
    requires IdsOk(s) && call in s.calls && HasId(s.calls[call])
    ensures s.calls[call].id != 0 && s.calls[call].stream in s.streams
  {
    hide RegistryOk;
    var c := s.calls[call];
    assert CallOk(s.streams, call, c);
    assert OwnersOk(s.calls, c.stream, s.streams[c.stream]);
  }

  /** Nothing can have been read for a call that has not sent yet. */
  lemma NothingReadYet(s: State, read: seq<Response>, call: CallId)
    requires IdsOk(s) && SlotsOk(s) && SendingOk(s) && At(s, call, Allocated)
    requires ReadOk(s, s.calls[call].stream, read)
    ensures s.calls[call].slot == Empty && forall r :: r in read ==> r.id != s.calls[call].id
  {
    hide IdsOk;
    var c := s.calls[call];
    IdNotZero(s, call);
    assert SlotOk(s.streams, c) && Unsent(s.streams[c.stream], c.id);
  }

  lemma RegisterInHand(s: State, read: seq<Response>, call: CallId)
    requires IdsOk(s) && PendingsOk(s) && SlotsOk(s) && SendingOk(s) && At(s, call, Allocated)
    requires ReadOk(s, s.calls[call].stream, read)
    ensures call in RegisterStep(s, call).calls && InHand(RegisterStep(s, call), read, call)
    ensures RegisterStep(s, call).calls[call].stream == s.calls[call].stream
  {
    hide IdsOk, PendingsOk, SlotsOk, SendingOk, ReadOk, DropSender;
    NothingReadYet(s, read, call);
    OwnEntry(s, call);
  }

  /** One id, one response: whatever was read or is to be read under it is the same. */
  lemma SameResponse(s: State, sid: StreamId, a: Response, b: Response)
    requires SendingOk(s) && sid in s.streams && a.id == b.id
    requires Replied(s.streams[sid].executed, a) && Replied(s.streams[sid].executed, b)
    ensures a == b
  {
    var executed := s.streams[sid].executed;
    assert OnceOk(s.streams[sid]);
    var i :| 0 <= i < |executed| && executed[i].id == a.id && executed[i].result == a.result;
    var j :| 0 <= j < |executed| && executed[j].id == b.id && executed[j].result == b.result;
    assert i == j;
  }

  /** Reading a response: the call that waits for it has it in hand. */
  lemma ReceiveInHand(s: State, sid: StreamId, read: seq<Response>, call: CallId)
    requires IdsOk(s) && PendingsOk(s) && SlotsOk(s) && SendingOk(s) && AllMessagesOk(s)
    requires Reads(s, Receive(sid), sid) && call in s.calls && Entered(s.calls[call]) && s.calls[call].stream == sid
    requires InHand(s, read, call) && ReadOk(s, sid, read)
    ensures var s' := ReceiveStep(s, sid);
            call in s'.calls && InHand(s', read + [s.streams[sid].toServer[0]], call)
  {
    hide IdsOk, SlotsOk, SendingOk, Replied;
    var st, c, r := s.streams[sid], s.calls[call], s.streams[sid].toServer[0];
    IdNotZero(s, call);
    assert MessagesOk(s.calls, st) && PendingOk(st);
    SlotOf(s, call);
    if c.slot.Filled? && r.id == c.id {
      SameResponse(s, sid, c.slot.response, r);
    }
    if r.id in st.pending {
      EntryIsOwn(s, sid, r.id, call);
    }
  }

  lemma EntryIsOwn(s: State, sid: StreamId, id: U32, call: CallId)
    requires IdsOk(s) && PendingsOk(s) && sid in s.streams && id in s.streams[sid].pending
    requires call in s.calls && HasId(s.calls[call]) && s.calls[call].stream == sid
    ensures s.streams[sid].pending[id] == call <==> s.calls[call].id == id
  {
    hide RegistryOk;
    assert PendingOk(s.streams[sid]) && CallOk(s.streams, call, s.calls[call]);
    assert OwnersOk(s.calls, sid, s.streams[sid]);
  }

  /** The other streams' calls do not see it. */
  lemma ReceiveStandsBy(s: State, sid: StreamId, call: CallId)
    requires IdsOk(s) && PendingsOk(s)
    requires call in ReceiveStep(s, sid).calls && Entered(ReceiveStep(s, sid).calls[call])
    requires call in s.calls && (s.calls[call].stream != sid || !Reads(s, Receive(sid), sid))
    ensures StandsBy(s, ReceiveStep(s, sid), call)
  {
    hide IdsOk, PendingsOk;
    if Reads(s, Receive(sid), sid) && s.streams[sid].toServer[0].id in s.streams[sid].pending {
      PendingIsOfStream(s, sid, s.streams[sid].toServer[0].id);
    }
  }

  lemma AdvanceInHand(s: State, step: Step, read: seq<Response>, call: CallId)
    requires HeldOk(s) && AllMessagesOk(s) && SendingOk(s)
    requires call in Advance(s, step).calls && Entered(Advance(s, step).calls[call])
    requires call in s.calls && Entered(s.calls[call]) ==> InHand(s, read, call)
    requires ReadOk(s, Advance(s, step).calls[call].stream, read)
    ensures var sid := Advance(s, step).calls[call].stream;
            var read' := if Reads(s, step, sid) then read + [s.streams[sid].toServer[0]] else read;
            InHand(Advance(s, step), read', call)
  {
    hide IdsOk, PendingsOk, SlotsOk, AllMessagesOk, SendingOk, CallersHold, ConnectStep, LookUpStep, AllocateStep,
         RegisterStep, SendStep, GiveUpStep, LeaveStep, FinishStep, ExecuteStep, ReceiveStep, CloseStep, LoseStep,
         TakesStep, RepliesStep, InHand, StandsBy, Entered, ReadOk;
    match step
    case Receive(x) => ReceiveAnyInHand(s, x, read, call);
    case Register(x) => RegisterAnyInHand(s, x, read, call);
    case _ =>
      OtherStandsBy(s, step, call);
      StandsByInHand(s, Advance(s, step), read, call);
  }

  lemma OtherStandsBy(s: State, step: Step, call: CallId)
    requires IdsOk(s) && PendingsOk(s) && !step.Receive? && !step.Register?
    requires call in Advance(s, step).calls && Entered(Advance(s, step).calls[call])
    ensures StandsBy(s, Advance(s, step), call)
  {
    hide IdsOk, PendingsOk, ConnectStep, LookUpStep, AllocateStep, SendStep, GiveUpStep, LeaveStep, FinishStep,
         ExecuteStep, CloseStep, LoseStep, TakesStep, RepliesStep, StandsBy, Entered;
    if step.Leave? {
      LeaveStandsBy(s, step.call, call);
    } else if step.Allocate? || step.Send? || step.GiveUp? || step.Finish? {
      CallStepStandsBy(s, step, call);
    } else if step.LookUp? || step.ClientTakes? || step.ClientReplies? {
      ClientStepStandsBy(s, step, call);
    } else {
      StreamStepStandsBy(s, step, call);
    }
  }

  lemma ReceiveAnyInHand(s: State, x: StreamId, read: seq<Response>, call: CallId)
    requires HeldOk(s) && AllMessagesOk(s) && SendingOk(s)
    requires call in ReceiveStep(s, x).calls && Entered(ReceiveStep(s, x).calls[call])
    requires call in s.calls && Entered(s.calls[call]) ==> InHand(s, read, call)
    requires ReadOk(s, ReceiveStep(s, x).calls[call].stream, read)
    ensures var sid := ReceiveStep(s, x).calls[call].stream;
            var read' := if Reads(s, Receive(x), sid) then read + [s.streams[sid].toServer[0]] else read;
            InHand(ReceiveStep(s, x), read', call)
  {
    hide IdsOk, PendingsOk, SlotsOk, AllMessagesOk, SendingOk, CallersHold, ReceiveStep, InHand, StandsBy, ReadOk;
    ReceiveKeeps(s, x);
    ReceiveStepFrom(s, x);
    ReceiveEntered(s, x, call);
    if Reads(s, Receive(x), x) && s.calls[call].stream == x {
      ReceiveInHand(s, x, read, call);
    } else {
      ReceiveStandsBy(s, x, call);
      StandsByInHand(s, ReceiveStep(s, x), read, call);
    }
  }

  lemma ReceiveEntered(s: State, x: StreamId, call: CallId)
    requires call in ReceiveStep(s, x).calls && Entered(ReceiveStep(s, x).calls[call])
    ensures call in s.calls && Entered(s.calls[call])
    ensures ReceiveStep(s, x).calls[call].stream == s.calls[call].stream
  {
  }

  lemma RegisterAnyInHand(s: State, x: CallId, read: seq<Response>, call: CallId)
    requires HeldOk(s) && SendingOk(s)
    requires call in RegisterStep(s, x).calls && Entered(RegisterStep(s, x).calls[call])
    requires call in s.calls && Entered(s.calls[call]) ==> InHand(s, read, call)
    requires ReadOk(s, RegisterStep(s, x).calls[call].stream, read)
    ensures InHand(RegisterStep(s, x), read, call)
  {
    hide IdsOk, PendingsOk, SlotsOk, SendingOk, CallersHold, InHand, StandsBy, ReadOk, DropSender;
    RegisterKeeps(s, x);
    if call == x && At(s, x, Allocated) {
      RegisterInHand(s, read, call);
    } else if At(s, x, Allocated) {
      RegisterStandsBy(s, x, call);
      StandsByInHand(s, RegisterStep(s, x), read, call);
    }
  }

  // ---- every run ----

  lemma ExecutedStays(s: State, step: Step, sid: StreamId)
    requires sid in s.streams
    ensures sid in Next(s, step).streams && s.streams[sid].executed <= Next(s, step).streams[sid].executed
  {
    hide Next, Advance;
    NextIsLighter(s, step);
    AdvanceExecuted(s, step, sid);
  }

  lemma AdvanceExecuted(s: State, step: Step, sid: StreamId)
    requires sid in s.streams
    ensures sid in Advance(s, step).streams && s.streams[sid].executed <= Advance(s, step).streams[sid].executed
  {
    hide ConnectStep, LookUpStep, AllocateStep, RegisterStep, SendStep, GiveUpStep, LeaveStep, FinishStep, ExecuteStep,
         ReceiveStep, CloseStep, LoseStep, TakesStep, RepliesStep;
    match step
    case LookUp(call, key, command) => LookUpAdds(s, call, key, command);
    case ClientTakes(client, request, call) => TakesAdds(s, client, request, call);
    case Receive(x) => ReceiveExecuted(s, x, sid);
    case Connect(_, _) => PlainExecuted(s, step, sid);
    case Allocate(_) => PlainExecuted(s, step, sid);
    case Send(_, _, _) => PlainExecuted(s, step, sid);
    case Execute(_, _, _) => PlainExecuted(s, step, sid);
    case Lose(_, _, _) => PlainExecuted(s, step, sid);
    case _ => QuietKeeps(s, step);
  }

  lemma PlainExecuted(s: State, step: Step, sid: StreamId)
    requires sid in s.streams && (step.Connect? || step.Allocate? || step.Send? || step.Execute? || step.Lose?)
    ensures sid in Advance(s, step).streams && s.streams[sid].executed <= Advance(s, step).streams[sid].executed
  {
  }

  lemma ReceiveExecuted(s: State, x: StreamId, sid: StreamId)
    requires sid in s.streams
    ensures sid in ReceiveStep(s, x).streams && ReceiveStep(s, x).streams[sid].executed == s.streams[sid].executed
  {
    hide Dispatch;
  }

  lemma ReadGrowsOk(s: State, step: Step, sid: StreamId, read: seq<Response>)
    requires AllMessagesOk(s) && ReadOk(s, sid, read)
    ensures var read' := if Reads(s, step, sid) then read + [s.streams[sid].toServer[0]] else read;
            ReadOk(Next(s, step), sid, read')
  {
    hide Next;
    if sid in s.streams {
      ExecutedStays(s, step, sid);
      assert MessagesOk(s.calls, s.streams[sid]);
    }
  }

  lemma {:induction false} ReadWasCarriedOut(steps: seq<Step>, sid: StreamId)
    requires IdsLast(Run(steps))
    ensures ReadOk(Run(steps), sid, ReadBy(steps, sid))
    decreases |steps|
  {
    hide Next, ReadOk, IdsLast, HeldOk, AllMessagesOk, SendingOk;
    if steps == [] {
      NothingRead(sid);
    } else {
      var before, step := steps[..|steps| - 1], steps[|steps| - 1];
      IdsLastBefore(Run(before), step);
      ReadWasCarriedOut(before, sid);
      ValidInEveryRun(before);
      ReadGrowsOk(Run(before), step, sid, ReadBy(before, sid));
    }
  }

  lemma NothingRead(sid: StreamId)
    ensures ReadOk(START, sid, [])
  {
  }

  /** In every run each call that has entered its oneshot has in hand what its reader has read
  under its id, and still its entry when that is nothing. */
  lemma {:induction false} InHandInEveryRun(steps: seq<Step>)
    requires IdsLast(Run(steps))
    ensures AllInHand(steps)
    decreases |steps|
  {
    hide Next, Advance, IdsLast, InHand, Entered, ReadOk, HeldOk, AllMessagesOk, SendingOk, Lighter;
    if steps != [] {
      var before, step := steps[..|steps| - 1], steps[|steps| - 1];
      var s := Run(before);
      IdsLastBefore(s, step);
      InHandInEveryRun(before);
      ValidInEveryRun(before);
      ValidInEveryRun(steps);
      NextIsLighter(s, step);
      forall call | call in Run(steps).calls && Entered(Run(steps).calls[call])
        ensures InHand(Run(steps), ReadBy(steps, Run(steps).calls[call].stream), call)
      {
        LighterEntered(Advance(s, step), Next(s, step), call);
        var sid := Advance(s, step).calls[call].stream;
        ReadWasCarriedOut(before, sid);
        if call in s.calls {
          AdvanceStream(s, step, call);
        }
        AdvanceInHand(s, step, ReadBy(before, sid), call);
        NextKeepsInHand(s, step, ReadBy(steps, sid), call);
      }
    }
  }

  lemma LighterEntered(a: State, b: State, call: CallId)
    requires Lighter(a, b) && call in b.calls && Entered(b.calls[call])
    ensures call in a.calls && Entered(a.calls[call]) && a.calls[call].stream == b.calls[call].stream
  {
  }

  /** A call stays with its stream. */
  lemma AdvanceStream(s: State, step: Step, call: CallId)
    requires call in s.calls
    ensures call in Advance(s, step).calls && Advance(s, step).calls[call].stream == s.calls[call].stream
  {
    hide LookUpStep, TakesStep;
    match step
    case LookUp(c, key, command) => LookUpAdds(s, c, key, command);
    case ClientTakes(client, request, c) => TakesAdds(s, client, request, c);
    case Connect(_, _) =>
    case Allocate(_) =>
    case _ => QuietKeeps(s, step);
  }

  // ---- no entry outlives its use ----

  /** The entry is that of a call that has entered and has nothing in hand yet. */
  ghost predicate EntryLive(s: State, sid: StreamId, id: U32)
    requires sid in s.streams && id in s.streams[sid].pending
  {
    var call := s.streams[sid].pending[id];
    call in s.calls && Entered(s.calls[call]) && s.calls[call].slot == Empty
  }

  ghost predicate EntriesLive(s: State) {
    forall sid, id :: sid in s.streams && id in s.streams[sid].pending ==> EntryLive(s, sid, id)
  }

  lemma SendingStepEntries(s: State, step: Step)
    requires EntriesLive(s) && (step.Allocate? || step.Send?)
    ensures EntriesLive(Advance(s, step))
  {
    var s' := Advance(s, step);
    forall sid, id | sid in s'.streams && id in s'.streams[sid].pending
      ensures EntryLive(s', sid, id)
    {
      assert EntryLive(s, sid, id);
    }
  }

  lemma EndingStepEntries(s: State, step: Step)
    requires EntriesLive(s) && (step.GiveUp? || step.Finish?)
    ensures EntriesLive(Advance(s, step))
  {
    var s' := Advance(s, step);
    forall sid, id | sid in s'.streams && id in s'.streams[sid].pending
      ensures EntryLive(s', sid, id)
    {
      assert EntryLive(s, sid, id);
    }
  }

  lemma StreamStepEntries(s: State, step: Step)
    requires EntriesLive(s) && (step.Connect? || step.Execute? || step.CloseReader? || step.Lose?)
    ensures EntriesLive(Advance(s, step))
  {
  }

  lemma ClientStepEntries(s: State, step: Step)
    requires EntriesLive(s) && (step.LookUp? || step.ClientTakes? || step.ClientReplies?)
    ensures EntriesLive(Advance(s, step))
  {
    hide LookUpStep, TakesStep, RepliesStep;
    match step
    case LookUp(c, key, command) => LookUpAdds(s, c, key, command);
    case ClientTakes(client, request, c) => TakesAdds(s, client, request, c);
    case ClientReplies(client, sent) => RepliesKeep(s, client, sent);
  }

  lemma RegisterEntries(s: State, x: CallId)
    requires EntriesLive(s) && IdsOk(s) && PendingsOk(s) && SlotsOk(s) && SendingOk(s)
    ensures EntriesLive(RegisterStep(s, x))
  {
    hide IdsOk, PendingsOk, SlotsOk, SendingOk, DropSender;
    if At(s, x, Allocated) {
      OwnEntry(s, x);
      NoRead(s, s.calls[x].stream);
      NothingReadYet(s, [], x);
    }
  }

  lemma NoRead(s: State, sid: StreamId)
    ensures ReadOk(s, sid, [])
  {
  }

  lemma LeaveEntries(s: State, x: CallId)
    requires EntriesLive(s) && IdsOk(s) && PendingsOk(s)
    ensures EntriesLive(LeaveStep(s, x))
  {
    hide IdsOk, PendingsOk, DropSender;
    if x in s.calls && s.calls[x].phase.Leaving? && s.calls[x].stream in s.streams {
      OwnEntry(s, x);
      forall sid, id | sid in s.streams && id in s.streams[sid].pending && s.streams[sid].pending[id] == x
        ensures sid == s.calls[x].stream && id == s.calls[x].id
      {
        EntryPlace(s, sid, id);
      }
    }
  }

  /** An entry stands where its call says. */
  lemma EntryPlace(s: State, sid: StreamId, id: U32)
    requires IdsOk(s) && PendingsOk(s) && sid in s.streams && id in s.streams[sid].pending
    ensures var call := s.streams[sid].pending[id];
            call in s.calls && s.calls[call].stream == sid && s.calls[call].id == id
  {
    hide RegistryOk, CallOk;
    assert PendingOk(s.streams[sid]) && OwnersOk(s.calls, sid, s.streams[sid]);
    assert OwnedBy(s.calls, sid, id, s.streams[sid].owner[id]);
  }

  lemma ReceiveEntries(s: State, x: StreamId)
    requires EntriesLive(s) && IdsOk(s) && PendingsOk(s)
    ensures EntriesLive(ReceiveStep(s, x))
  {
    hide IdsOk, PendingsOk;
    if Reads(s, Receive(x), x) && s.streams[x].toServer[0].id in s.streams[x].pending {
      var read := s.streams[x].toServer[0].id;
      EntryPlace(s, x, read);
      forall sid, id | sid in s.streams && id in s.streams[sid].pending
                       && s.streams[sid].pending[id] == s.streams[x].pending[read]
        ensures sid == x && id == read
      {
        EntryPlace(s, sid, id);
      }
    }
  }

  lemma AdvanceEntries(s: State, step: Step)
    requires EntriesLive(s) && IdsOk(s) && PendingsOk(s) && SlotsOk(s) && SendingOk(s)
    ensures EntriesLive(Advance(s, step))
  {
    hide EntriesLive, IdsOk, PendingsOk, SlotsOk, SendingOk, ConnectStep, LookUpStep, AllocateStep, RegisterStep,
         SendStep, GiveUpStep, LeaveStep, FinishStep, ExecuteStep, ReceiveStep, CloseStep, LoseStep, TakesStep,
         RepliesStep;
    match step
    case Register(x) => RegisterEntries(s, x);
    case Leave(x) => LeaveEntries(s, x);
    case Receive(x) => ReceiveEntries(s, x);
    case LookUp(_, _, _) => ClientStepEntries(s, step);
    case ClientTakes(_, _, _) => ClientStepEntries(s, step);
    case ClientReplies(_, _) => ClientStepEntries(s, step);
    case Allocate(_) => SendingStepEntries(s, step);
    case Send(_, _, _) => SendingStepEntries(s, step);
    case GiveUp(_) => EndingStepEntries(s, step);
    case Finish(_) => EndingStepEntries(s, step);
    case _ => StreamStepEntries(s, step);
  }

  lemma LighterEntries(a: State, b: State)
    requires EntriesLive(a) && Lighter(a, b) && SlotsOk(b)
    ensures EntriesLive(b)
  {
    forall sid, id | sid in b.streams && id in b.streams[sid].pending
      ensures EntryLive(b, sid, id)
    {
      assert EntryLive(a, sid, id);
      assert SlotOk(b.streams, b.calls[b.streams[sid].pending[id]]);
    }
  }

  lemma {:induction false} EntriesInEveryRun(steps: seq<Step>)
    requires IdsLast(Run(steps))
    ensures EntriesLive(Run(steps))
    decreases |steps|
  {
    hide Next, Advance, IdsLast, EntriesLive, IdsOk, PendingsOk, SlotsOk, CallersHold, AllMessagesOk, SendingOk,
         Lighter;
    if steps == [] {
      NothingEntered();
    } else {
      var before, step := steps[..|steps| - 1], steps[|steps| - 1];
      IdsLastBefore(Run(before), step);
      EntriesInEveryRun(before);
      ValidInEveryRun(before);
      ValidInEveryRun(steps);
      NextIsLighter(Run(before), step);
      AdvanceEntries(Run(before), step);
      LighterEntries(Advance(Run(before), step), Run(steps));
    }
  }

  lemma NothingEntered()
    ensures EntriesLive(START)
  {
  }

  /** In every run the pending entries of a stream are those of its calls that have entered and
  not ended and for which nothing was read: none is missing and none is left behind. */
  lemma PendingExactly(steps: seq<Step>, call: CallId)
    requires IdsLast(Run(steps)) && call in Run(steps).calls && HasId(Run(steps).calls[call])
    ensures var s := Run(steps);
            var c := s.calls[call];
            HasEntry(s, call) <==> Entered(c) && forall r :: r in ReadBy(steps, c.stream) ==> r.id != c.id
  {
    hide Run, IdsOk, PendingsOk, AllMessagesOk, SendingOk, CallersHold;
    var s := Run(steps);
    var c := s.calls[call];
    ValidInEveryRun(steps);
    InHandInEveryRun(steps);
    EntriesInEveryRun(steps);
    assert SlotOk(s.streams, c);
    if HasEntry(s, call) {
      assert EntryLive(s, c.stream, c.id);
    }
  }

  // ---- what a waiting call comes to ----

  /** After every run: a waiting call is answered with a response if and only if that was read
  under its id, and its timeout can end it if and only if none was. */
  lemma AnsweredExactly(steps: seq<Step>, call: CallId)
    requires IdsLast(Run(steps)) && At(Run(steps), call, Waiting)
    ensures var s := Run(steps);
            var c := s.calls[call];
            var finished, late := Next(s, Finish(call)).calls, Next(s, GiveUp(call)).calls;
            && (forall r :: call in finished && finished[call].phase == Ended(Answered(r))
                            <==> r in ReadBy(steps, c.stream) && r.id == c.id)
            && (call in late && late[call].phase == Leaving(TIMED_OUT)
                <==> forall r :: r in ReadBy(steps, c.stream) ==> r.id != c.id)
  {
    hide Run, IdsOk, PendingsOk, AllMessagesOk, SendingOk, CallersHold, HasEntry, Release;
    var s := Run(steps);
    ValidInEveryRun(steps);
    InHandInEveryRun(steps);
    assert SlotOk(s.streams, s.calls[call]);
    FinishPhase(s, call);
    GiveUpPhase(s, call);
  }

  lemma FinishPhase(s: State, call: CallId)
    requires At(s, call, Waiting)
    ensures var calls := Next(s, Finish(call)).calls;
            call in calls && calls[call].phase == match s.calls[call].slot
              case Empty => Waiting
              case Filled(r) => Ended(Answered(r))
              case Dropped => Ended(Failed(DISCONNECTED))
  {
    hide Next, Lighter;
    NextIsLighter(s, Finish(call));
    LighterPhase(Advance(s, Finish(call)), Next(s, Finish(call)), call);
  }

  lemma LighterPhase(a: State, b: State, call: CallId)
    requires Lighter(a, b) && call in a.calls
    ensures call in b.calls && b.calls[call].phase == a.calls[call].phase
  {
  }

  lemma GiveUpPhase(s: State, call: CallId)
    requires At(s, call, Waiting)
    ensures var calls := Next(s, GiveUp(call)).calls;
            call in calls
            && calls[call].phase == if s.calls[call].slot == Empty then Leaving(TIMED_OUT) else Waiting
  {
  }

  lemma RunSnoc(steps: seq<Step>, step: Step, sid: StreamId)
    ensures Run(steps + [step]) == Next(Run(steps), step)
    ensures ReadBy(steps + [step], sid)
         == ReadBy(steps, sid) + if Reads(Run(steps), step, sid) then [Run(steps).streams[sid].toServer[0]] else []
  {
    hide Next;
    var all := steps + [step];
    assert all[..|all| - 1] == steps;
  }

  /** Reading and carrying out give out no id and leave a call where it stands. */
  lemma StreamStepKeeps(s: State, step: Step, call: CallId)
    requires (step.Execute? || step.Receive?) && call in s.calls && IdsLast(s)
    ensures var s' := Next(s, step);
            && IdsLast(s') && call in s'.calls && s'.calls[call].phase == s.calls[call].phase
            && SameCall(s.calls[call], s'.calls[call]) && s'.streams.Keys == s.streams.Keys
  {
    hide Dispatch, SameCall;
    QuietKeeps(s, step);
    KeptFacts(s, Advance(s, step), call);
    PhaseStays(s, step, call);
  }

  lemma KeptFacts(s: State, s': State, call: CallId)
    requires Kept(s, s') && call in s.calls && IdsLast(s)
    ensures IdsLast(s') && call in s'.calls && SameCall(s.calls[call], s'.calls[call])
    ensures s'.streams.Keys == s.streams.Keys
  {
    assert forall sid :: sid in s.streams ==> SameIds(s.streams[sid], s'.streams[sid]);
  }

  lemma PhaseStays(s: State, step: Step, call: CallId)
    requires (step.Execute? || step.Receive?) && call in s.calls
    ensures call in Advance(s, step).calls && Advance(s, step).calls[call].phase == s.calls[call].phase
  {
  }

  /** A response that is read before the timeout answers its caller. */
  lemma ReadIsAnswered(steps: seq<Step>, sid: StreamId, call: CallId)
    requires IdsLast(Run(steps)) && At(Run(steps), call, Waiting) && Reads(Run(steps), Receive(sid), sid)
    requires var c := Run(steps).calls[call]; c.stream == sid && c.id == Run(steps).streams[sid].toServer[0].id
    ensures var s := Run(steps);
            var s' := Next(Next(s, Receive(sid)), Finish(call));
            call in s'.calls && s'.calls[call].phase == Ended(Answered(s.streams[sid].toServer[0]))
  {
    hide Run, Next, ReadBy, IdsLast;
    var s, read := Run(steps), steps + [Receive(sid)];
    RunSnoc(steps, Receive(sid), sid);
    StreamStepKeeps(s, Receive(sid), call);
    AnsweredExactly(read, call);
    assert s.streams[sid].toServer[0] in ReadBy(read, sid);
  }

  /** The camera carries out what is under way to it, with these results, and replies. */
  function Executes(sid: StreamId, results: seq<CommandResult>): (steps: seq<Step>)
    ensures |steps| == |results|
  {
    seq(|results|, i requires 0 <= i < |results| => Execute(sid, results[i], true))
  }

  function Replies(requests: seq<Request>, results: seq<CommandResult>): (replies: seq<Response>)
    requires |requests| == |results|
    ensures |replies| == |results|
  {
    seq(|results|, i requires 0 <= i < |results| => Response(requests[i].id, results[i]))
  }

  /** What is left of a call and its stream after `n` turns of the camera. */
  lemma {:induction false} ExecutesAll(steps: seq<Step>, sid: StreamId, results: seq<CommandResult>, call: CallId)
    requires IdsLast(Run(steps)) && sid in Run(steps).streams && call in Run(steps).calls
    requires |results| <= |Run(steps).streams[sid].toCamera|
    ensures var s, s' := Run(steps), Run(steps + Executes(sid, results));
            && IdsLast(s') && call in s'.calls && s'.calls[call].phase == s.calls[call].phase
            && SameCall(s.calls[call], s'.calls[call]) && sid in s'.streams
            && s'.streams[sid].readerOpen == s.streams[sid].readerOpen
            && s'.streams[sid].toCamera == s.streams[sid].toCamera[|results|..]
            && s'.streams[sid].toServer
               == s.streams[sid].toServer + Replies(s.streams[sid].toCamera[..|results|], results)
    decreases |results|
  {
    hide Run, Next, IdsLast, ReadBy, SameCall;
    var n := |results|;
    if n == 0 {
      assert steps + Executes(sid, results) == steps;
      SameCallSelf(Run(steps).calls[call]);
      assert Replies(Run(steps).streams[sid].toCamera[..0], results) == [];
    } else {
      var init, step := results[..n - 1], Execute(sid, results[n - 1], true);
      ExecutesAll(steps, sid, init, call);
      assert Executes(sid, results) == Executes(sid, init) + [step];
      var before := steps + Executes(sid, init);
      assert before + [step] == steps + Executes(sid, results);
      RunSnoc(before, step, sid);
      StreamStepKeeps(Run(before), step, call);
      SameCallTrans(Run(steps).calls[call], Run(before).calls[call], Run(before + [step]).calls[call]);
      OneTurn(Run(before), sid, results[n - 1]);
      var requests := Run(steps).streams[sid].toCamera;
      var reply := Response(requests[n - 1].id, results[n - 1]);
      assert Replies(requests[..n], results) == Replies(requests[..n - 1], init) + [reply];
    }
  }

  lemma SameCallSelf(c: Call)
    ensures SameCall(c, c)
  {
  }

  lemma SameCallTrans(a: Call, b: Call, c: Call)
    requires SameCall(a, b) && SameCall(b, c)
    ensures SameCall(a, c)
  {
  }

  lemma OneTurn(s: State, sid: StreamId, result: CommandResult)
    requires sid in s.streams && s.streams[sid].toCamera != []
    ensures var s' := Next(s, Execute(sid, result, true));
            var st := s.streams[sid];
            && sid in s'.streams && s'.streams[sid].readerOpen == st.readerOpen
            && s'.streams[sid].toCamera == st.toCamera[1..]
            && s'.streams[sid].toServer == st.toServer + [Response(st.toCamera[0].id, result)]
  {
  }

  lemma {:induction false} ReceivesAll(steps: seq<Step>, sid: StreamId, n: nat, call: CallId)
    requires IdsLast(Run(steps)) && sid in Run(steps).streams && call in Run(steps).calls
    requires Run(steps).streams[sid].readerOpen && n <= |Run(steps).streams[sid].toServer|
    ensures var s, s' := Run(steps), Run(steps + Receives(sid, n));
            && IdsLast(s') && call in s'.calls && s'.calls[call].phase == s.calls[call].phase
            && SameCall(s.calls[call], s'.calls[call]) && sid in s'.streams && s'.streams[sid].readerOpen
            && s'.streams[sid].toServer == s.streams[sid].toServer[n..]
            && ReadBy(steps + Receives(sid, n), sid) == ReadBy(steps, sid) + s.streams[sid].toServer[..n]
    decreases n
  {
    hide Run, Next, IdsLast, ReadBy, SameCall;
    if n == 0 {
      assert steps + Receives(sid, n) == steps;
      SameCallSelf(Run(steps).calls[call]);
      assert ReadBy(steps, sid) + [] == ReadBy(steps, sid);
    } else {
      ReceivesAll(steps, sid, n - 1, call);
      var before := steps + Receives(sid, n - 1);
      assert Receives(sid, n) == Receives(sid, n - 1) + [Receive(sid)];
      assert before + [Receive(sid)] == steps + Receives(sid, n);
      RunSnoc(before, Receive(sid), sid);
      StreamStepKeeps(Run(before), Receive(sid), call);
      SameCallTrans(Run(steps).calls[call], Run(before).calls[call], Run(before + [Receive(sid)]).calls[call]);
      OneRead(Run(before), sid);
      assert Run(steps).streams[sid].toServer[..n]
          == Run(steps).streams[sid].toServer[..n - 1] + [Run(before).streams[sid].toServer[0]];
    }
  }

  lemma OneRead(s: State, sid: StreamId)
    requires Reads(s, Receive(sid), sid)
    ensures var s' := Next(s, Receive(sid));
            && sid in s'.streams && s'.streams[sid].readerOpen
            && s'.streams[sid].toServer == s.streams[sid].toServer[1..]
  {
    hide Dispatch;
  }

  /** From every reachable state in which a call is about to send and its reader runs: if the
  request is sent, the camera carries out what is under way to it and replies, and the reader
  takes what is under way to it, then the call is answered with the camera's result for it. */
  lemma SentIsAnswered(steps: seq<Step>, sid: StreamId, call: CallId, results: seq<CommandResult>)
    requires IdsLast(Run(steps)) && At(Run(steps), call, Registered) && Run(steps).calls[call].stream == sid
    requires Run(steps).streams[sid].readerOpen && |results| == |Run(steps).streams[sid].toCamera| + 1
    ensures var s, st := Run(steps), Run(steps).streams[sid];
            var sent := steps + [Send(call, true, true)] + Executes(sid, results);
            var read := sent + Receives(sid, |st.toServer| + |results|);
            var finished := Run(read + [Finish(call)]).calls;
            call in finished
            && finished[call].phase == Ended(Answered(Response(s.calls[call].id, results[|results| - 1])))
  {
    hide Run, Next, ReadBy, IdsLast;
    var s, st, c := Run(steps), Run(steps).streams[sid], Run(steps).calls[call];
    var sending := steps + [Send(call, true, true)];
    RunSnoc(steps, Send(call, true, true), sid);
    Sending(s, sid, call);
    ExecutesAll(sending, sid, results, call);
    var sent, n := sending + Executes(sid, results), |st.toServer| + |results|;
    ReceivesAll(sent, sid, n, call);
    var read := sent + Receives(sid, n);
    RunSnoc(read, Finish(call), sid);
    AnsweredExactly(read, call);
    var last := Response(c.id, results[|results| - 1]);
    assert Run(sent).streams[sid].toServer[n - 1] == last;
    assert last in Run(sent).streams[sid].toServer[..n];
  }

  lemma Sending(s: State, sid: StreamId, call: CallId)
    requires IdsLast(s) && At(s, call, Registered) && s.calls[call].stream == sid
    ensures var s' := Next(s, Send(call, true, true));
            && IdsLast(s') && At(s', call, Waiting) && s'.calls[call] == s.calls[call].(phase := Waiting)
            && s'.streams[sid].readerOpen == s.streams[sid].readerOpen
            && s'.streams[sid].toServer == s.streams[sid].toServer
            && s'.streams[sid].toCamera
               == s.streams[sid].toCamera + [Request(s.calls[call].id, s.calls[call].command)]
  {
  }
}
