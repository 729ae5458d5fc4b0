/** The command code as its source has it: a state whose map and counter are updated in
place, and the three receive loops. What the machine of `Commands` does in one step of a
loop, the loops here do for a whole inbox; waiting and sending are oracles. */
module CommandLoops {
  import opened Bytes
  import opened Seqs
  import opened Commands
  import opened CommandEntries

  /** What can arrive on a stream; only one of the two is expected at each end. */
  datatype Message = RequestMessage(request: Request) | ResponseMessage(response: Response)

  datatype ClientMessage = ClientRequestMessage(request: ClientRequest) | ClientResponseMessage(response: Response)

  /** The responses of a list of messages, in order. */
  function ResponsesIn(messages: seq<Message>): seq<Response> {
    if messages == [] then []
    else
      var before, m := ResponsesIn(messages[..|messages| - 1]), messages[|messages| - 1];
      if m.ResponseMessage? then before + [m.response] else before
  }

  function RequestsIn(messages: seq<Message>): seq<Request> {
    if messages == [] then []
    else
      var before, m := RequestsIn(messages[..|messages| - 1]), messages[|messages| - 1];
      if m.RequestMessage? then before + [m.request] else before
  }

  function ClientRequestsIn(messages: seq<ClientMessage>): seq<ClientRequest> {
    if messages == [] then []
    else
      var before, m := ClientRequestsIn(messages[..|messages| - 1]), messages[|messages| - 1];
      if m.ClientRequestMessage? then before + [m.request] else before
  }

  /** Dispatching responses one after the other. */
  function DispatchAll(calls: map<CallId, Call>, pending: map<U32, CallId>,
                       responses: seq<Response>): (map<CallId, Call>, map<U32, CallId>)
    decreases |responses|
  {
    if responses == [] then (calls, pending)
    else
      var (calls', pending') := DispatchAll(calls, pending, responses[..|responses| - 1]);
      Dispatch(calls', pending', responses[|responses| - 1])
  }

  lemma OneReceive(s: State, sid: StreamId)
    requires sid in s.streams && s.streams[sid].readerOpen && s.streams[sid].toServer != []
    ensures var st := s.streams[sid];
            var (calls, pending) := Dispatch(s.calls, st.pending, st.toServer[0]);
            Next(s, Receive(sid))
            == s.(streams := s.streams[sid := st.(pending := pending, toServer := st.toServer[1..])], calls := calls)
  {
    hide Dispatch;
  }

  /** The reader's dispatches are the machine's Receive steps. */
  lemma {:induction false} ReaderIsReceiveSteps(s: State, sid: StreamId, n: nat)
    requires sid in s.streams && s.streams[sid].readerOpen && n <= |s.streams[sid].toServer|
    ensures var s' := RunFrom(s, Receives(sid, n));
            var st := s.streams[sid];
            var (calls, pending) := DispatchAll(s.calls, st.pending, st.toServer[..n]);
            s' == s.(streams := s.streams[sid := st.(pending := pending, toServer := st.toServer[n..])], calls := calls)
    decreases n
  {
    hide Dispatch, Next;
    var st := s.streams[sid];
    if n == 0 {
      assert st.toServer[0..] == st.toServer && s.streams[sid := st] == s.streams;
    } else {
      ReaderIsReceiveSteps(s, sid, n - 1);
      OneReceive(RunFrom(s, Receives(sid, n - 1)), sid);
      assert Receives(sid, n)[..n - 1] == Receives(sid, n - 1);
      assert st.toServer[..n][..n - 1] == st.toServer[..n - 1];
      assert st.toServer[n - 1..][1..] == st.toServer[n..];
    }
  }

  // ---- one call from its lookup to its end ----

  /** The camera carries out requests, or is lost with messages under way. */
  ghost predicate CameraSteps(steps: seq<Step>, sid: StreamId) {
    forall step :: step in steps ==> (step.Execute? || step.Lose?) && step.stream == sid
  }

  function AfterSend(s: State, call: CallId, delivered: bool, reported: bool): State {
    Next(Next(Next(s, Allocate(call)), Register(call)), Send(call, delivered, reported))
  }

  /** The call is in this phase, and its stream and its entry are as alive as before. */
  ghost predicate Reached(s: State, s': State, sid: StreamId, call: CallId, phase: Phase) {
    && s'.holders == s.holders && s'.cameraCommands == s.cameraCommands && sid in s.streams && sid in s'.streams
    && SameReader(s.streams[sid], s'.streams[sid])
    && call in s'.calls && s'.calls[call].stream == sid && s'.calls[call].phase == phase
  }

  lemma AllocateReached(s: State, sid: StreamId, call: CallId)
    requires At(s, call, Looked) && s.calls[call].stream == sid
    ensures var s' := Next(s, Allocate(call));
            && Reached(s, s', sid, call, Allocated) && s'.calls[call].id == s.streams[sid].nextId
            && s'.calls == s.calls[call := s.calls[call].(id := s.streams[sid].nextId, phase := Allocated)]
            && s'.streams[sid].nextId == (s.streams[sid].nextId + 1) % TWO_32
            && s'.streams[sid].pending == s.streams[sid].pending
  {
  }

  lemma RegisterReached(s: State, sid: StreamId, call: CallId)
    requires At(s, call, Allocated) && s.calls[call].stream == sid
    ensures var s' := Next(s, Register(call));
            var (calls, pending) := InsertPending(s.calls, s.streams[sid].pending, s.calls[call].id, call);
            && Reached(s, s', sid, call, Registered) && call in calls
            && s'.calls == calls[call := calls[call].(phase := Registered)]
            && s'.streams[sid].nextId == s.streams[sid].nextId && s'.streams[sid].pending == pending
  {
    hide DropSender;
    InsertKeepsCall(s.calls, s.streams[sid].pending, s.calls[call].id, call);
  }

  lemma SendReached(s: State, sid: StreamId, call: CallId, delivered: bool, reported: bool)
    requires At(s, call, Registered) && s.calls[call].stream == sid
    ensures var s' := Next(s, Send(call, delivered, reported));
            var phase := if reported then Waiting else Leaving(SEND_FAILED);
            && Reached(s, s', sid, call, phase) && s'.calls == s.calls[call := s.calls[call].(phase := phase)]
            && s'.streams[sid].nextId == s.streams[sid].nextId && s'.streams[sid].pending == s.streams[sid].pending
  {
  }

  /** The oneshot yields, or the timeout fires. */
  function AfterWaiting(s: State, call: CallId): State {
    if call in s.calls && s.calls[call].slot == Empty then Next(Next(s, GiveUp(call)), Leave(call))
    else Next(s, Finish(call))
  }

  function AfterReader(s: State, sid: StreamId, closes: bool): State {
    if closes then Next(s, CloseReader(sid)) else s
  }

  /** The machine's steps for a whole call: a failed send ends it; otherwise the camera works
  or is lost, the reader takes `n` responses and perhaps ends, and the call finishes or times
  out. */
  function AfterCall(s: State, sid: StreamId, call: CallId, delivered: bool, reported: bool, camera: seq<Step>,
                     n: nat, closes: bool): State
  {
    var s3 := AfterSend(s, call, delivered, reported);
    if !reported then Next(s3, Leave(call))
    else AfterWaiting(AfterReader(RunFrom(RunFrom(s3, camera), Receives(sid, n)), sid, closes), call)
  }

  lemma AfterFailedSend(s: State, sid: StreamId, call: CallId, delivered: bool, camera: seq<Step>, n: nat, closes: bool)
    ensures AfterCall(s, sid, call, delivered, false, camera, n, closes)
        == Next(AfterSend(s, call, delivered, false), Leave(call))
  {
  }

  lemma AfterWait(s: State, sid: StreamId, call: CallId, delivered: bool, camera: seq<Step>, n: nat, closes: bool)
    ensures var s3 := AfterSend(s, call, delivered, true);
            AfterCall(s, sid, call, delivered, true, camera, n, closes)
            == AfterWaiting(AfterReader(RunFrom(RunFrom(s3, camera), Receives(sid, n)), sid, closes), call)
  {
  }

  /** The camera's steps show nowhere but in its messages. */
  lemma {:induction false} CameraElsewhere(s: State, camera: seq<Step>, sid: StreamId)
    requires CameraSteps(camera, sid)
    ensures var s' := RunFrom(s, camera);
            && s'.calls == s.calls && s'.holders == s.holders && s'.cameraCommands == s.cameraCommands
            && s'.streams.Keys == s.streams.Keys
            && (sid in s.streams ==> SameState(s.streams[sid], s'.streams[sid]))
    decreases |camera|
  {
    if camera != [] {
      var before, step := camera[..|camera| - 1], camera[|camera| - 1];
      assert step in camera && forall t :: t in before ==> t in camera;
      CameraElsewhere(s, before, sid);
    }
  }

  predicate SameState(a: Stream, b: Stream) {
    a.nextId == b.nextId && a.pending == b.pending && SameReader(a, b)
  }

  /** The caller's own record keeps its place and phase while others are answered. */
  predicate SamePlace(a: Call, b: Call) {
    a.phase == b.phase && a.stream == b.stream && a.id == b.id
  }

  lemma InsertKeepsCall(calls: map<CallId, Call>, pending: map<U32, CallId>, id: U32, call: CallId)
    requires call in calls
    ensures var (calls', _) := InsertPending(calls, pending, id, call); call in calls' && calls'[call] == calls[call]
  {
  }

  lemma RemoveKeepsCall(calls: map<CallId, Call>, pending: map<U32, CallId>, id: U32, call: CallId)
    requires call in calls
    ensures var (calls', _) := RemovePending(calls, pending, id, call); call in calls' && calls'[call] == calls[call]
  {
  }

  lemma {:induction false} DispatchKeepsCall(calls: map<CallId, Call>, pending: map<U32, CallId>,
                                             responses: seq<Response>, call: CallId)
    requires call in calls
    ensures var (calls', _) := DispatchAll(calls, pending, responses);
            call in calls' && SamePlace(calls[call], calls'[call])
    decreases |responses|
  {
    if responses != [] {
      DispatchKeepsCall(calls, pending, responses[..|responses| - 1], call);
    }
  }

  lemma NothingHeard(s: State, sid: StreamId, pending: map<U32, CallId>)
    ensures RunFrom(s, Receives(sid, 0)) == s && DispatchAll(s.calls, pending, []) == (s.calls, pending)
  {
  }

  /** A holder lets go; with the last one the entries go, their senders dropped. */
  function LetGoOf(calls: map<CallId, Call>, pending: map<U32, CallId>, holders: set<Holder>, h: Holder)
    : (map<CallId, Call>, map<U32, CallId>, set<Holder>)
  {
    var left := holders - {h};
    if left == {} then (DropSenders(calls, pending.Values), map[], left) else (calls, pending, left)
  }

  lemma ReleaseShown(s: State, sid: StreamId, h: Holder)
    requires sid in s.streams
    ensures var s' := Release(s, sid, h);
            && sid in s'.streams && s'.streams[sid].nextId == s.streams[sid].nextId
            && (s'.calls, s'.streams[sid].pending, HoldersOf(s', sid))
               == LetGoOf(s.calls, s.streams[sid].pending, HoldersOf(s, sid), h)
  {
    hide DropSenders;
  }

  lemma DroppingEndsNothing(calls: map<CallId, Call>, dropped: set<CallId>, call: CallId)
    requires call in calls
    ensures var calls' := DropSenders(calls, dropped); call in calls' && calls'[call].phase == calls[call].phase
  {
  }

  lemma FinishShown(s: State, sid: StreamId, call: CallId)
    requires At(s, call, Waiting) && s.calls[call].stream == sid && s.calls[call].slot != Empty
    ensures var raw := FinishStep(s, call);
            && call in raw.calls && raw.calls[call].phase.Ended? && raw.streams == s.streams
            && HoldersOf(raw, sid) == HoldersOf(s, sid) && Next(s, Finish(call)) == Release(raw, sid, Caller(call))
  {
    hide Release;
  }

  lemma LeaveShown(s: State, sid: StreamId, call: CallId)
    requires call in s.calls && s.calls[call].phase.Leaving? && s.calls[call].stream == sid && sid in s.streams
    ensures var raw := LeaveStep(s, call);
            && call in raw.calls && raw.calls[call].phase.Ended? && sid in raw.streams
            && raw.streams[sid].nextId == s.streams[sid].nextId
            && HoldersOf(raw, sid) == HoldersOf(s, sid) && Next(s, Leave(call)) == Release(raw, sid, Caller(call))
  {
    hide Release, DropSender;
    RemoveKeepsCall(s.calls, s.streams[sid].pending, s.calls[call].id, call);
  }

  /** Whoever still waits keeps the state when the reader ends. */
  lemma CloseShown(s: State, sid: StreamId, call: CallId)
    requires sid in s.streams && s.streams[sid].readerOpen && Caller(call) in HoldersOf(s, sid) && EntriesHeld(s)
    ensures var s' := Next(s, CloseReader(sid));
            var key := s.streams[sid].key;
            var entry := if key in s.cameraCommands && s.cameraCommands[key] == sid then {Registry} else {};
            && s'.calls == s.calls && sid in s'.streams
            && s'.streams[sid].nextId == s.streams[sid].nextId && s'.streams[sid].pending == s.streams[sid].pending
            && HoldersOf(s', sid) == HoldersOf(s, sid) - {Reader} - entry
  {
    hide Release;
    var key, s0 := s.streams[sid].key, CloseStep(s, sid);
    if key in s.cameraCommands {
      StillHeld(s0, s.cameraCommands[key], Registry, if s.cameraCommands[key] == sid then Caller(call) else Reader);
      ReleaseHolders(s0, s.cameraCommands[key], Registry, sid);
    }
    var s1 := ReleaseEntry(s0, s.cameraCommands, key);
    StillHeld(s1, sid, Reader, Caller(call));
    ReleaseHolders(s1, sid, Reader, sid);
  }

  lemma StillHeld(s: State, sid: StreamId, h: Holder, other: Holder)
    requires other in HoldersOf(s, sid) && other != h
    ensures var s' := Release(s, sid, h); s'.calls == s.calls && s'.streams == s.streams
  {
    assert other in HoldersOf(s, sid) - {h};
  }

  /** `CameraCommandState`, with the callers whose oneshots its senders lead to and those who
  share it (`Arc`). */
  class CommandState {
    var nextId: U32
    var pending: map<U32, CallId>
    var calls: map<CallId, Call>
    var holders: set<Holder>

    constructor (calls: map<CallId, Call>)
      ensures nextId == 1 && pending == map[] && this.calls == calls && holders == {Registry, Reader}
    {
      nextId, pending, this.calls, holders := 1, map[], calls, {Registry, Reader};
    }

    /** `next_id.fetch_add(1)`: the counter wraps. */
    method FetchId() returns (id: U32)
      modifies this`nextId
      ensures id == old(nextId) && nextId == (old(nextId) + 1) % TWO_32
    {
      id := nextId;
      nextId := if nextId == TWO_32 - 1 then 0 else nextId + 1;
    }

    /** Dropping a sender leaves an empty oneshot without one. */
    method Drop(call: CallId)
      modifies this`calls
      ensures calls == DropSender(old(calls), call)
    {
      if call in calls && calls[call].slot == Empty {
        calls := calls[call := calls[call].(slot := Dropped)];
      }
    }

    method InsertEntry(id: U32, call: CallId)
      modifies this`pending, this`calls
      ensures (calls, pending) == InsertPending(old(calls), old(pending), id, call)
    {
      if id in pending && pending[id] != call {
        Drop(pending[id]);
      }
      pending := pending[id := call];
    }

    method RemoveEntry(id: U32, call: CallId)
      modifies this`pending, this`calls
      ensures (calls, pending) == RemovePending(old(calls), old(pending), id, call)
    {
      if id in pending && pending[id] != call {
        Drop(pending[id]);
      }
      pending := pending - {id};
    }

    method HandleResponse(response: Response)
      modifies this`pending, this`calls
      ensures (calls, pending) == Dispatch(old(calls), old(pending), response)
    {
      if response.id == 0 {
        return;
      }
      if response.id in pending {
        var call := pending[response.id];
        pending := pending - {response.id};
        if call in calls && calls[call].slot == Empty {
          calls := calls[call := calls[call].(slot := Filled(response))];
        }
      }
    }

    /** A holder drops its share; the last one drops the state. */
    method LetGo(h: Holder)
      modifies this`pending, this`calls, this`holders
      ensures (calls, pending, holders) == LetGoOf(old(calls), old(pending), old(holders), h)
    {
      holders := holders - {h};
      if holders == {} {
        calls := DropSenders(calls, pending.Values);
        pending := map[];
      }
    }

    /** What this state shows of the machine's. */
    ghost predicate Shows(s: State, sid: StreamId)
      reads this
    {
      && sid in s.streams && calls == s.calls && holders == HoldersOf(s, sid)
      && nextId == s.streams[sid].nextId && pending == s.streams[sid].pending
    }

    /** The call stands here, and holds the state. */
    ghost predicate Stands(s: State, sid: StreamId, call: CallId, phase: Phase)
      reads this
    {
      Shows(s, sid) && At(s, call, phase) && s.calls[call].stream == sid && Caller(call) in holders
    }

    /** send_command from its lookup on: take an id, enter the oneshot, send, wait. While it
    waits the camera works or is lost (`camera`), the reader, if it still runs, dispatches what
    arrives, and may end (`closes`), with the entry of its camera if that names this stream
    (`registered`). The outcome and what is left of the state are those of the machine's steps
    for this call; if all others are gone the state goes with it. That the caller holds the
    state, and a reader what an entry names, is so in every run (`LiveCallsHold`,
    `EntriesAreHeld`). */
    method SendCommand(ghost s: State, sid: StreamId, call: CallId, delivered: bool, reported: bool,
                       ghost camera: seq<Step>, arriving: seq<Message>, closes: bool, registered: bool)
      returns (outcome: Outcome)
      requires Stands(s, sid, call, Looked) && EntriesHeld(s) && CameraSteps(camera, sid)
      requires var s4 := RunFrom(AfterSend(s, call, delivered, reported), camera);
               reported ==> sid in s4.streams && ResponsesIn(arriving) <= s4.streams[sid].toServer
      requires ResponsesIn(arriving) != [] || closes ==> s.streams[sid].readerOpen
      requires registered <==> Some(sid) == EntryIn(s, s.streams[sid].key)
      modifies this
      ensures var s' := AfterCall(s, sid, call, delivered, reported, camera, |ResponsesIn(arriving)|, closes);
              Shows(s', sid) && HasEnded(s', call) && outcome == OutcomeOf(s', call)
    {
      hide RunFrom, DispatchAll, ResponsesIn, Next, AfterCall;
      ghost var s3, n := AfterSend(s, call, delivered, reported), |ResponsesIn(arriving)|;
      EnterCall(s, sid, call, delivered, reported);
      if !reported {
        EndCall(s3, sid, call);
        AfterFailedSend(s, sid, call, delivered, camera, n, closes);
        return Failed(SEND_FAILED);
      }
      ghost var s4 := RunFrom(s3, camera);
      CameraElsewhere(s3, camera, sid);
      Hear(s4, sid, call, arriving);
      ghost var s5 := RunFrom(s4, Receives(sid, n));
      if closes {
        ReaderEnds(s5, sid, call, registered);
      }
      outcome := Await(AfterReader(s5, sid, closes), sid, call);
      AfterWait(s, sid, call, delivered, camera, n, closes);
    }

    /** From the id to the send. */
    method EnterCall(ghost s: State, sid: StreamId, call: CallId, delivered: bool, reported: bool)
      requires Stands(s, sid, call, Looked)
      modifies this
      ensures var s3 := AfterSend(s, call, delivered, reported);
              var phase := if reported then Waiting else Leaving(SEND_FAILED);
              Stands(s3, sid, call, phase) && Reached(s, s3, sid, call, phase)
    {
      hide Next;
      RegisterCall(s, sid, call);
      calls := calls[call := calls[call].(phase := if reported then Waiting else Leaving(SEND_FAILED))];
      SendReached(Next(Next(s, Allocate(call)), Register(call)), sid, call, delivered, reported);
    }

    /** The id is taken and the oneshot entered. */
    method RegisterCall(ghost s: State, sid: StreamId, call: CallId)
      requires Stands(s, sid, call, Looked)
      modifies this
      ensures var s2 := Next(Next(s, Allocate(call)), Register(call));
              Stands(s2, sid, call, Registered) && Reached(s, s2, sid, call, Registered)
    {
      hide DropSender, Next, InsertPending;
      ghost var s1 := Next(s, Allocate(call));
      AllocateReached(s, sid, call);
      var id := FetchId();
      calls := calls[call := calls[call].(id := id, phase := Allocated)];
      InsertKeepsCall(calls, pending, id, call);
      InsertEntry(id, call);
      calls := calls[call := calls[call].(phase := Registered)];
      RegisterReached(s1, sid, call);
    }

    /** The reader dispatches what arrives while the call waits. */
    method Hear(ghost s: State, sid: StreamId, call: CallId, arriving: seq<Message>)
      requires Stands(s, sid, call, Waiting)
      requires ResponsesIn(arriving) <= s.streams[sid].toServer
      requires ResponsesIn(arriving) != [] ==> s.streams[sid].readerOpen
      modifies this
      ensures var s' := RunFrom(s, Receives(sid, |ResponsesIn(arriving)|));
              && Stands(s', sid, call, Waiting) && s'.holders == s.holders && s'.cameraCommands == s.cameraCommands
              && SameReader(s.streams[sid], s'.streams[sid])
    {
      hide DispatchAll, ResponsesIn;
      ghost var n := |ResponsesIn(arriving)|;
      ReadResponses(arriving);
      if n == 0 {
        NothingHeard(s, sid, s.streams[sid].pending);
      } else {
        ReaderIsReceiveSteps(s, sid, n);
        assert ResponsesIn(arriving) == s.streams[sid].toServer[..n];
        DispatchKeepsCall(s.calls, s.streams[sid].pending, ResponsesIn(arriving), call);
      }
    }

    /** The reader ends while the call waits. */
    method ReaderEnds(ghost s: State, sid: StreamId, call: CallId, registered: bool)
      requires Stands(s, sid, call, Waiting) && s.streams[sid].readerOpen && EntriesHeld(s)
      requires registered <==> Some(sid) == EntryIn(s, s.streams[sid].key)
      modifies this
      ensures Stands(Next(s, CloseReader(sid)), sid, call, Waiting)
    {
      hide Next, DropSenders;
      CloseShown(s, sid, call);
      assert Caller(call) in holders - {Registry} - {Reader};
      if registered {
        LetGo(Registry);
      }
      LetGo(Reader);
    }

    /** The wait for the oneshot, or for the timeout. */
    method Await(ghost s: State, sid: StreamId, call: CallId) returns (outcome: Outcome)
      requires Stands(s, sid, call, Waiting)
      modifies this
      ensures var s' := AfterWaiting(s, call);
              Shows(s', sid) && HasEnded(s', call) && outcome == OutcomeOf(s', call)
    {
      hide Release, DropSenders;
      if calls[call].slot == Empty {
        calls := calls[call := calls[call].(phase := Leaving(TIMED_OUT))];
        EndCall(Next(s, GiveUp(call)), sid, call);
        return Failed(TIMED_OUT);
      }
      FinishShown(s, sid, call);
      outcome := if calls[call].slot.Filled? then Answered(calls[call].slot.response) else Failed(DISCONNECTED);
      calls := calls[call := calls[call].(phase := Ended(outcome))];
      EndHold(FinishStep(s, call), sid, call);
    }

    /** A caller that gives up removes its entry and ends. */
    method EndCall(ghost s: State, sid: StreamId, call: CallId)
      requires Shows(s, sid) && call in s.calls && s.calls[call].phase.Leaving? && s.calls[call].stream == sid
      modifies this
      ensures Shows(Next(s, Leave(call)), sid)
      ensures var s' := Next(s, Leave(call));
              HasEnded(s', call) && OutcomeOf(s', call) == Failed(s.calls[call].phase.message)
    {
      hide DropSender, Release, Next;
      LeaveShown(s, sid, call);
      var id := calls[call].id;
      RemoveKeepsCall(calls, pending, id, call);
      RemoveEntry(id, call);
      calls := calls[call := calls[call].(phase := Ended(Failed(calls[call].phase.message)))];
      EndHold(LeaveStep(s, call), sid, call);
    }

    /** An ended caller lets go. */
    method EndHold(ghost s: State, sid: StreamId, call: CallId)
      requires Shows(s, sid) && call in s.calls && s.calls[call].phase.Ended?
      modifies this
      ensures var s' := Release(s, sid, Caller(call));
              Shows(s', sid) && HasEnded(s', call) && OutcomeOf(s', call) == s.calls[call].phase.outcome
    {
      hide Release, DropSenders;
      ReleaseShown(s, sid, Caller(call));
      DroppingEndsNothing(calls, pending.Values, call);
      LetGo(Caller(call));
    }

    /** The reader loop: responses are dispatched in order, requests ignored. */
    method ReadResponses(inbox: seq<Message>)
      modifies this`pending, this`calls
      ensures (calls, pending) == DispatchAll(old(calls), old(pending), ResponsesIn(inbox))
    {
      hide Dispatch;
      for i := 0 to |inbox|
        invariant (calls, pending) == DispatchAll(old(calls), old(pending), ResponsesIn(inbox[..i]))
      {
        assert inbox[..i + 1][..i] == inbox[..i];
        match inbox[i] {
          case ResponseMessage(response) =>
            SnocParts(ResponsesIn(inbox[..i]), response);
            HandleResponse(response);
          case RequestMessage(_) =>
        }
      }
      assert inbox[..|inbox|] == inbox;
    }
  }

  /** The replies of a camera to its first `n` requests: each under the id of its request. */
  ghost predicate RepliesTo(requests: seq<Request>, n: nat, execute: (nat, Command) -> CommandResult,
                            replies: seq<Response>)
  {
    && n <= |requests| && |replies| == n
    && forall i | 0 <= i < n :: replies[i] == Response(requests[i].id, execute(i, requests[i].command))
  }

  /** handle_commands on the camera: one reply per request, in order, up to the first reply
  that cannot be sent; `executed` counts the commands carried out. */
  method HandleCommands(inbox: seq<Message>, execute: (nat, Command) -> CommandResult, canSend: nat -> bool)
    returns (replies: seq<Response>, executed: nat)
    ensures RepliesTo(RequestsIn(inbox), |replies|, execute, replies)
    ensures forall i | 0 <= i < |replies| :: canSend(i)
    ensures |replies| == |RequestsIn(inbox)| == executed
        || (executed == |replies| + 1 <= |RequestsIn(inbox)| && !canSend(|replies|))
  {
    replies, executed := [], 0;
    for i := 0 to |inbox|
      invariant executed == |replies| == |RequestsIn(inbox[..i])|
      invariant RepliesTo(RequestsIn(inbox[..i]), executed, execute, replies)
      invariant forall k | 0 <= k < |replies| :: canSend(k)
    {
      assert inbox[..i + 1][..i] == inbox[..i];
      match inbox[i] {
        case RequestMessage(request) =>
          var result := execute(executed, request.command);
          executed := executed + 1;
          if !canSend(|replies|) {
            RequestsPrefix(inbox, i + 1);
            return;
          }
          replies := replies + [Response(request.id, result)];
        case ResponseMessage(_) =>
      }
    }
    assert inbox[..|inbox|] == inbox;
  }

  /** Later messages do not change what came before. */
  lemma {:induction false} RequestsPrefix(inbox: seq<Message>, i: nat)
    requires i <= |inbox|
    ensures RequestsIn(inbox[..i]) <= RequestsIn(inbox)
    decreases |inbox|
  {
    if i < |inbox| {
      RequestsPrefix(inbox[..|inbox| - 1], i);
      assert inbox[..|inbox| - 1][..i] == inbox[..i];
    } else {
      assert inbox[..i] == inbox;
    }
  }

  /** The replies of a client loop to its first `n` requests. */
  ghost predicate AnswersTo(requests: seq<ClientRequest>, n: nat, call: (nat, Key, Command) -> Outcome,
                            replies: seq<Response>)
  {
    && n <= |requests| && |replies| == n
    && forall i | 0 <= i < n :: replies[i] == Reply(requests[i], CallOutcome(requests[i], i, call))
  }

  function CallOutcome(request: ClientRequest, i: nat, call: (nat, Key, Command) -> Outcome): Outcome {
    match request.target
    case None => Failed(INVALID_KEY)
    case Some(key) => call(i, key, request.command)
  }

  lemma {:induction false} ClientRequestsPrefix(inbox: seq<ClientMessage>, i: nat)
    requires i <= |inbox|
    ensures ClientRequestsIn(inbox[..i]) <= ClientRequestsIn(inbox)
    decreases |inbox|
  {
    if i < |inbox| {
      ClientRequestsPrefix(inbox[..|inbox| - 1], i);
      assert inbox[..|inbox| - 1][..i] == inbox[..i];
    } else {
      assert inbox[..i] == inbox;
    }
  }

  /** handle_client_commands: each request is parsed, forwarded and answered under the
  client's own id before the next is taken; a reply that cannot be sent ends the loop. */
  method HandleClientCommands(inbox: seq<ClientMessage>, call: (nat, Key, Command) -> Outcome, canSend: nat -> bool)
    returns (replies: seq<Response>)
    ensures AnswersTo(ClientRequestsIn(inbox), |replies|, call, replies)
    ensures forall i | 0 <= i < |replies| :: canSend(i)
    ensures |replies| == |ClientRequestsIn(inbox)| || (|replies| < |ClientRequestsIn(inbox)| && !canSend(|replies|))
  {
    replies := [];
    for i := 0 to |inbox|
      invariant |replies| == |ClientRequestsIn(inbox[..i])|
      invariant AnswersTo(ClientRequestsIn(inbox[..i]), |replies|, call, replies)
      invariant forall k | 0 <= k < |replies| :: canSend(k)
    {
      assert inbox[..i + 1][..i] == inbox[..i];
      match inbox[i] {
        case ClientResponseMessage(_) =>
        case ClientRequestMessage(request) =>
          var response;
          match request.target {
            case None => response := Response(request.id, Error(INVALID_KEY));
            case Some(key) =>
              var outcome := call(|replies|, key, request.command);
              match outcome {
                case Answered(answer) => response := Response(request.id, answer.result);
                case Failed(message) => response := Response(request.id, Error(message));
              }
          }
          if !canSend(|replies|) {
            ClientRequestsPrefix(inbox, i + 1);
            return;
          }
          replies := replies + [response];
      }
    }
    assert inbox[..|inbox|] == inbox;
  }
}
