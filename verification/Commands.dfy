/** Command routing (crates/kodama/src/server/router.rs:458-623 and the camera end,
apps/kodama-firmware/src/camera.rs:660-685) as a machine of interleaved atomic steps.

Any number of callers, client loops, camera streams and stream readers run at once; each
step is what one of them does between two points where others can be seen. Commands and
their values are opaque numbers. A step out of turn does nothing. */
module Commands {
  import opened Bytes

  type Key = nat
  type StreamId = nat
  type CallId = nat
  type ClientId = nat
  type Command = nat

  datatype CommandResult = Value(value: nat) | Error(message: string)

  datatype Request = Request(id: U32, command: Command)

  datatype Response = Response(id: U32, result: CommandResult)

  /** One command carried out by a camera. */
  datatype Execution = Execution(id: U32, command: Command, result: CommandResult)

  /** A camera's command stream: the shared `CameraCommandState`, the messages under way in
  the two directions, what the camera has carried out, and (for reasoning only) how many
  ids were given out and to which call. */
  datatype Stream = Stream(
    key: Key,
    nextId: U32,
    pending: map<U32, CallId>,
    readerOpen: bool,
    toCamera: seq<Request>,
    toServer: seq<Response>,
    executed: seq<Execution>,
    issued: nat,
    owner: map<U32, CallId>)

  /** The receiving end of a call's oneshot channel. */
  datatype Slot = Empty | Filled(response: Response) | Dropped

  datatype Outcome = Answered(response: Response) | Failed(message: string)

  /** How far a call of send_command has come. `Leaving` is past a failed send or a timeout,
  with its pending entry still to be removed. */
  datatype Phase = Looked | Allocated | Registered | Waiting | Leaving(message: string) | Ended(outcome: Outcome)

  datatype Call = Call(key: Key, command: Command, stream: StreamId, id: U32, slot: Slot, phase: Phase)

  /** A request of a client; the target is none when its key does not parse. */
  datatype ClientRequest = ClientRequest(id: U32, target: Option<Key>, command: Command)

  /** A client loop: the requests it took, the call that each became, the responses sent. */
  datatype Client = Client(requests: seq<ClientRequest>, calls: seq<CallId>, responses: seq<Response>, open: bool)

  /** Who keeps the `CameraCommandState` of a stream alive: the registry, the stream's reader,
  and each caller from its lookup to its end. */
  datatype Holder = Registry | Reader | Caller(call: CallId)

  /** `refused` holds the calls that found no command channel. */
  datatype State = State(
    streams: map<StreamId, Stream>,
    cameraCommands: map<Key, StreamId>,
    calls: map<CallId, Call>,
    refused: set<CallId>,
    clients: map<ClientId, Client>,
    holders: map<StreamId, set<Holder>>)

  const START := State(map[], map[], map[], {}, map[], map[])

  const NO_CHANNEL := "Camera has no command channel"
  const DISCONNECTED := "Camera disconnected while waiting for response"
  const TIMED_OUT := "Command timed out"
  const SEND_FAILED := "Failed to send command"
  const INVALID_KEY := "Invalid camera key"

  /** The ready signal that a camera sends first. */
  const READY := Response(0, Value(0))

  datatype Step =
    | Connect(stream: StreamId, key: Key)
    | LookUp(call: CallId, key: Key, command: Command)
    | Allocate(call: CallId)
    | Register(call: CallId)
    | Send(call: CallId, delivered: bool, reported: bool)
    | GiveUp(call: CallId)
    | Leave(call: CallId)
    | Finish(call: CallId)
    | Execute(stream: StreamId, result: CommandResult, replied: bool)
    | Receive(stream: StreamId)
    | CloseReader(stream: StreamId)
    | Lose(stream: StreamId, toCamera: nat, toServer: nat)
    | ClientTakes(client: ClientId, request: ClientRequest, call: CallId)
    | ClientReplies(client: ClientId, sent: bool)

  // ---- the shared state of a stream ----

  /** `pending.insert`: an entry already there is overwritten, its sender dropped. */
  function InsertPending(calls: map<CallId, Call>, pending: map<U32, CallId>, id: U32, call: CallId)
    : (map<CallId, Call>, map<U32, CallId>)
  {
    (if id in pending && pending[id] != call then DropSender(calls, pending[id]) else calls, pending[id := call])
  }

  /** `pending.remove` by a caller that gives up: the sender found there is dropped. */
  function RemovePending(calls: map<CallId, Call>, pending: map<U32, CallId>, id: U32, call: CallId)
    : (map<CallId, Call>, map<U32, CallId>)
  {
    (if id in pending && pending[id] != call then DropSender(calls, pending[id]) else calls, pending - {id})
  }

  function DropSender(calls: map<CallId, Call>, call: CallId): map<CallId, Call> {
    if call in calls && calls[call].slot == Empty then calls[call := calls[call].(slot := Dropped)] else calls
  }

  /** The reader's dispatch of one response. */
  function Dispatch(calls: map<CallId, Call>, pending: map<U32, CallId>, response: Response)
    : (map<CallId, Call>, map<U32, CallId>)
  {
    if response.id == 0 || response.id !in pending then (calls, pending)
    else (FillSlot(calls, pending[response.id], response), pending - {response.id})
  }

  function FillSlot(calls: map<CallId, Call>, call: CallId, response: Response): map<CallId, Call> {
    if call in calls && calls[call].slot == Empty then calls[call := calls[call].(slot := Filled(response))] else calls
  }

  // ---- steps ----

  /** A call is in this phase, and its stream is known. */
  predicate At(s: State, call: CallId, phase: Phase) {
    call in s.calls && s.calls[call].phase == phase && s.calls[call].stream in s.streams
  }

  function SetPhase(s: State, call: CallId, phase: Phase): State
    requires call in s.calls
  {
    s.(calls := s.calls[call := s.calls[call].(phase := phase)])
  }

  /** register_camera_commands: a new stream takes the place of an older one of its camera. */
  function ConnectStep(s: State, sid: StreamId, key: Key): State {
    if sid in s.streams then s
    else s.(streams := s.streams[sid := Stream(key, 1, map[], true, [], [READY], [], 0, map[])],
            cameraCommands := s.cameraCommands[key := sid])
  }

  /** send_command takes the camera's stream, or fails at once. */
  function LookUpStep(s: State, call: CallId, key: Key, command: Command): State {
    if call in s.calls || call in s.refused then s
    else if key !in s.cameraCommands then s.(refused := s.refused + {call})
    else s.(calls := s.calls[call := Call(key, command, s.cameraCommands[key], 0, Empty, Looked)])
  }

  /** `next_id.fetch_add`. */
  function AllocateStep(s: State, call: CallId): State {
    if !At(s, call, Looked) then s
    else
      var sid, c := s.calls[call].stream, s.calls[call];
      var st := s.streams[sid];
      s.(streams := s.streams[sid := st.(nextId := (st.nextId + 1) % TWO_32, issued := st.issued + 1,
                                         owner := st.owner[st.nextId := call])],
         calls := s.calls[call := c.(id := st.nextId, phase := Allocated)])
  }

  function RegisterStep(s: State, call: CallId): State {
    if !At(s, call, Allocated) then s
    else
      var sid := s.calls[call].stream;
      var st := s.streams[sid];
      var (calls, pending) := InsertPending(s.calls, st.pending, s.calls[call].id, call);
      SetPhase(s.(streams := s.streams[sid := st.(pending := pending)], calls := calls), call, Registered)
  }

  /** The request is written, or the send reports an error, whether or not the request
  went out. */
  function SendStep(s: State, call: CallId, delivered: bool, reported: bool): State {
    if !At(s, call, Registered) then s
    else
      var sid, c := s.calls[call].stream, s.calls[call];
      var st := s.streams[sid];
      var s' := if delivered || reported
                then s.(streams := s.streams[sid := st.(toCamera := st.toCamera + [Request(c.id, c.command)])])
                else s;
      SetPhase(s', call, if reported then Waiting else Leaving(SEND_FAILED))
  }

  /** The timeout fires; a response that is already there wins. */
  function GiveUpStep(s: State, call: CallId): State {
    if At(s, call, Waiting) && s.calls[call].slot == Empty then SetPhase(s, call, Leaving(TIMED_OUT)) else s
  }

  /** A caller that failed to send or timed out removes its pending entry and ends. */
  function LeaveStep(s: State, call: CallId): State {
    if call !in s.calls || !s.calls[call].phase.Leaving? || s.calls[call].stream !in s.streams then s
    else
      var sid, c := s.calls[call].stream, s.calls[call];
      var st := s.streams[sid];
      var (calls, pending) := RemovePending(s.calls, st.pending, c.id, call);
      SetPhase(s.(streams := s.streams[sid := st.(pending := pending)], calls := calls), call,
          Ended(Failed(c.phase.message)))
  }

  /** The oneshot yields. */
  function FinishStep(s: State, call: CallId): State {
    if !At(s, call, Waiting) then s
    else
      match s.calls[call].slot
      case Empty => s
      case Filled(response) => SetPhase(s, call, Ended(Answered(response)))
      case Dropped => SetPhase(s, call, Ended(Failed(DISCONNECTED)))
  }

  /** The camera takes a request, carries it out and replies, unless the reply fails. */
  function CameraTurn(st: Stream, result: CommandResult, replied: bool): Stream
    requires st.toCamera != []
  {
    var q := st.toCamera[0];
    st.(toCamera := st.toCamera[1..],
        executed := st.executed + [Execution(q.id, q.command, result)],
        toServer := if replied then st.toServer + [Response(q.id, result)] else st.toServer)
  }

  function ExecuteStep(s: State, sid: StreamId, result: CommandResult, replied: bool): State {
    if sid !in s.streams || s.streams[sid].toCamera == [] then s
    else s.(streams := s.streams[sid := CameraTurn(s.streams[sid], result, replied)])
  }

  /** The stream's reader dispatches the next response. */
  function ReceiveStep(s: State, sid: StreamId): State {
    if sid !in s.streams || !s.streams[sid].readerOpen || s.streams[sid].toServer == [] then s
    else
      var st := s.streams[sid];
      var (calls, pending) := Dispatch(s.calls, st.pending, st.toServer[0]);
      s.(streams := s.streams[sid := st.(pending := pending, toServer := st.toServer[1..])], calls := calls)
  }

  /** The reader ends and removes its camera's entry, whichever stream that names. */
  function CloseStep(s: State, sid: StreamId): State {
    if sid !in s.streams || !s.streams[sid].readerOpen then s
    else s.(streams := s.streams[sid := s.streams[sid].(readerOpen := false)],
            cameraCommands := s.cameraCommands - {s.streams[sid].key})
  }

  /** A broken connection loses the latest messages of both directions. */
  function LoseStep(s: State, sid: StreamId, n: nat, m: nat): State {
    if sid !in s.streams || n > |s.streams[sid].toCamera| || m > |s.streams[sid].toServer| then s
    else
      var st := s.streams[sid];
      s.(streams := s.streams[sid := st.(toCamera := st.toCamera[..n], toServer := st.toServer[..m])])
  }

  // ---- clients ----

  predicate HasEnded(s: State, call: CallId) {
    call in s.refused || (call in s.calls && s.calls[call].phase.Ended?)
  }

  function OutcomeOf(s: State, call: CallId): Outcome {
    if call in s.calls && s.calls[call].phase.Ended? then s.calls[call].phase.outcome else Failed(NO_CHANNEL)
  }

  /** What a client is told: its own id, with the camera's result or the error. */
  function Reply(request: ClientRequest, outcome: Outcome): Response {
    if request.target.None? then Response(request.id, Error(INVALID_KEY))
    else match outcome
      case Answered(response) => Response(request.id, response.result)
      case Failed(message) => Response(request.id, Error(message))
  }

  predicate Idle(cl: Client) {
    cl.open && |cl.requests| == |cl.responses|
  }

  predicate Busy(cl: Client) {
    cl.open && |cl.responses| < |cl.requests| && |cl.calls| == |cl.requests|
  }

  function ClientOf(s: State, client: ClientId): Client {
    if client in s.clients then s.clients[client] else Client([], [], [], true)
  }

  /** The client loop takes its next request: it becomes a call, or is refused for its key. */
  function TakesStep(s: State, client: ClientId, request: ClientRequest, call: CallId): State {
    var cl := ClientOf(s, client);
    if !Idle(cl) || call in s.calls || call in s.refused then s
    else
      var cl' := cl.(requests := cl.requests + [request], calls := cl.calls + [call]);
      var s' := s.(clients := s.clients[client := cl']);
      match request.target
      case None => s'.(refused := s'.refused + {call})
      case Some(key) => LookUpStep(s', call, key, request.command)
  }

  /** The client loop replies once the call has ended; a failed send ends the loop. */
  function RepliesStep(s: State, client: ClientId, sent: bool): State {
    var cl := ClientOf(s, client);
    if !Busy(cl) || !HasEnded(s, cl.calls[|cl.responses|]) then s
    else if !sent then s.(clients := s.clients[client := cl.(open := false)])
    else
      var reply := Reply(cl.requests[|cl.responses|], OutcomeOf(s, cl.calls[|cl.responses|]));
      s.(clients := s.clients[client := cl.(responses := cl.responses + [reply])])
  }

  /** What a step does to streams, calls and clients. */
  function Advance(s: State, step: Step): State {
    match step
    case Connect(sid, key) => ConnectStep(s, sid, key)
    case LookUp(call, key, command) => LookUpStep(s, call, key, command)
    case Allocate(call) => AllocateStep(s, call)
    case Register(call) => RegisterStep(s, call)
    case Send(call, delivered, reported) => SendStep(s, call, delivered, reported)
    case GiveUp(call) => GiveUpStep(s, call)
    case Leave(call) => LeaveStep(s, call)
    case Finish(call) => FinishStep(s, call)
    case Execute(sid, result, replied) => ExecuteStep(s, sid, result, replied)
    case Receive(sid) => ReceiveStep(s, sid)
    case CloseReader(sid) => CloseStep(s, sid)
    case Lose(sid, n, m) => LoseStep(s, sid, n, m)
    case ClientTakes(client, request, call) => TakesStep(s, client, request, call)
    case ClientReplies(client, sent) => RepliesStep(s, client, sent)
  }

  // ---- the lifetime of a stream's state ----

  function HoldersOf(s: State, sid: StreamId): set<Holder> {
    if sid in s.holders then s.holders[sid] else {}
  }

  function Hold(s: State, sid: StreamId, h: Holder): State {
    s.(holders := s.holders[sid := HoldersOf(s, sid) + {h}])
  }

  function DropSenders(calls: map<CallId, Call>, dropped: set<CallId>): map<CallId, Call> {
    map call | call in calls ::
      if call in dropped && calls[call].slot == Empty then calls[call].(slot := Dropped) else calls[call]
  }

  /** The state goes, and with it the pending senders. */
  function DropState(s: State, sid: StreamId): State
    requires sid in s.streams
  {
    var st := s.streams[sid];
    s.(streams := s.streams[sid := st.(pending := map[])], calls := DropSenders(s.calls, st.pending.Values))
  }

  /** A holder lets go; the last one drops the state. */
  function Release(s: State, sid: StreamId, h: Holder): State {
    var left := HoldersOf(s, sid) - {h};
    var s' := s.(holders := s.holders[sid := left]);
    if left == {} && sid in s.streams then DropState(s', sid) else s'
  }

  /** The registry's entry for a camera is overwritten or removed. */
  function ReleaseEntry(s: State, registered: map<Key, StreamId>, key: Key): State {
    if key in registered then Release(s, registered[key], Registry) else s
  }

  /** A call that has just found its stream holds the stream's state. */
  function TakeHold(before: State, s: State, call: CallId): State {
    if call in s.calls && call !in before.calls then Hold(s, s.calls[call].stream, Caller(call)) else s
  }

  /** A call that has just ended lets go of it. */
  function LetGo(before: State, s: State, call: CallId): State {
    if call in before.calls && !before.calls[call].phase.Ended? && call in s.calls && s.calls[call].phase.Ended?
    then Release(s, s.calls[call].stream, Caller(call))
    else s
  }

  /** One atomic step. */
  function Next(s: State, step: Step): State {
    var s' := Advance(s, step);
    match step
    case Connect(sid, key) =>
      if sid in s.streams then s'
      else ReleaseEntry(Hold(Hold(s', sid, Registry), sid, Reader), s.cameraCommands, key)
    case LookUp(call, _, _) => TakeHold(s, s', call)
    case ClientTakes(_, _, call) => TakeHold(s, s', call)
    case Leave(call) => LetGo(s, s', call)
    case Finish(call) => LetGo(s, s', call)
    case CloseReader(sid) =>
      if sid !in s.streams || !s.streams[sid].readerOpen then s'
      else Release(ReleaseEntry(s', s.cameraCommands, s.streams[sid].key), sid, Reader)
    case _ => s'
  }

  function RunFrom(s: State, steps: seq<Step>): State
    decreases |steps|
  {
    if steps == [] then s else Next(RunFrom(s, steps[..|steps| - 1]), steps[|steps| - 1])
  }

  function Run(steps: seq<Step>): State {
    RunFrom(START, steps)
  }

  /** The reader of a stream takes `n` messages. */
  function Receives(sid: StreamId, n: nat): (steps: seq<Step>)
    ensures |steps| == n
  {
    seq(n, i => Receive(sid))
  }
}
