/** The client loops of the command machine, end to end: one reply per request, in order,
with the camera's own result or the reason there is none. */
module CommandClients {
  import opened Bytes
  import opened Commands
  import opened CommandInvariants
  import opened CommandSlots
  import opened CommandHolders
  import opened CommandRuns

  /** The call stands for the request: its target is unparsable or unknown, or the call is
  for that camera and that command. */
  ghost predicate StandsFor(s: State, call: CallId, request: ClientRequest) {
    if call in s.calls
    then request.target == Some(s.calls[call].key) && request.command == s.calls[call].command
    else call in s.refused
  }

  /** The i-th response answers the i-th request, by how its call ended. */
  ghost predicate Answers(s: State, cl: Client, i: nat)
    requires i < |cl.responses| && i < |cl.requests| && i < |cl.calls|
  {
    HasEnded(s, cl.calls[i]) && cl.responses[i] == Reply(cl.requests[i], OutcomeOf(s, cl.calls[i]))
  }

  ghost predicate ClientOk(s: State, cl: Client) {
    && |cl.calls| == |cl.requests|
    && |cl.responses| <= |cl.requests| <= |cl.responses| + 1
    && (forall i | 0 <= i < |cl.requests| :: StandsFor(s, cl.calls[i], cl.requests[i]))
    && (forall i | 0 <= i < |cl.responses| :: Answers(s, cl, i))
  }

  ghost predicate ClientsOk(s: State) {
    forall client :: client in s.clients ==> ClientOk(s, s.clients[client])
  }

  // ---- the other steps ----

  /** Calls keep their camera and command, and ended calls their outcome. */
  ghost predicate CallsStay(s: State, s': State) {
    && (forall call, request :: StandsFor(s, call, request) ==> StandsFor(s', call, request))
    && (forall call :: HasEnded(s, call) ==> HasEnded(s', call) && OutcomeOf(s', call) == OutcomeOf(s, call))
  }

  lemma ClientFrame(s: State, s': State, cl: Client)
    requires ClientOk(s, cl) && CallsStay(s, s')
    ensures ClientOk(s', cl)
  {
    hide StandsFor, HasEnded, OutcomeOf, Reply;
    forall i | 0 <= i < |cl.responses|
      ensures Answers(s', cl, i)
    {
      assert Answers(s, cl, i);
    }
  }

  /** Where a call stands is kept by every step. */
  lemma AdvanceKeepsStanding(s: State, step: Step, call: CallId, request: ClientRequest)
    requires Apart(s) && StandsFor(s, call, request)
    ensures StandsFor(Advance(s, step), call, request)
  {
    AdvanceKeepsRefused(s, step);
    AdvanceKeepsCalls(s, step);
    hide Advance;
  }

  lemma AdvanceKeepsCalls(s: State, step: Step)
    ensures var s' := Advance(s, step);
            forall call :: call in s.calls ==> call in s'.calls && SameTarget(s.calls[call], s'.calls[call])
  {
    hide LookUpStep, TakesStep, Kept;
    if Quiet(step) {
      QuietKeeps(s, step);
      KeptTargets(s, Advance(s, step));
    } else {
      match step
      case LookUp(call, key, command) => LookUpAdds(s, call, key, command);
      case ClientTakes(client, request, call) => TakesAdds(s, client, request, call);
      case _ =>
    }
  }

  predicate SameTarget(a: Call, b: Call) {
    a.key == b.key && a.command == b.command
  }

  lemma KeptTargets(s: State, s': State)
    requires Kept(s, s')
    ensures forall call :: call in s.calls ==> call in s'.calls && SameTarget(s.calls[call], s'.calls[call])
  {
  }

  lemma AdvanceKeepsCallsStay(s: State, step: Step)
    requires Apart(s)
    ensures CallsStay(s, Advance(s, step))
  {
    hide Advance, StandsFor, HasEnded, OutcomeOf, Apart;
    forall call, request | StandsFor(s, call, request)
      ensures StandsFor(Advance(s, step), call, request)
    {
      AdvanceKeepsStanding(s, step, call, request);
    }
    forall call | HasEnded(s, call)
      ensures HasEnded(Advance(s, step), call) && OutcomeOf(Advance(s, step), call) == OutcomeOf(s, call)
    {
      AdvanceKeepsOutcome(s, step, call);
    }
  }

  lemma ClientsElsewhere(s: State, step: Step)
    requires !step.ClientTakes? && !step.ClientReplies?
    ensures Advance(s, step).clients == s.clients
  {
    hide InsertPending, RemovePending, Dispatch, CameraTurn;
  }

  // ---- the client steps ----

  lemma TakenClients(s: State, client: ClientId, request: ClientRequest, call: CallId)
    ensures var s', cl := TakesStep(s, client, request, call), ClientOf(s, client);
            var cl' := cl.(requests := cl.requests + [request], calls := cl.calls + [call]);
            s'.clients == s.clients
            || (s'.clients == s.clients[client := cl'] && Idle(cl) && StandsFor(s', call, request))
  {
  }

  lemma TakesKeepsClients(s: State, client: ClientId, request: ClientRequest, call: CallId)
    requires Apart(s) && ClientsOk(s)
    ensures ClientsOk(TakesStep(s, client, request, call))
  {
    hide TakesStep, ClientOk, StandsFor, CallsStay, Apart;
    var s', cl := TakesStep(s, client, request, call), ClientOf(s, client);
    AdvanceKeepsCallsStay(s, ClientTakes(client, request, call));
    TakenClients(s, client, request, call);
    NewClientOk(s);
    forall i | i in s'.clients
      ensures ClientOk(s', s'.clients[i])
    {
      if s'.clients != s.clients && i == client {
        ClientFrame(s, s', cl);
        TakenOk(s', cl, request, call);
      } else {
        ClientFrame(s, s', s.clients[i]);
      }
    }
  }

  lemma NewClientOk(s: State)
    ensures ClientOk(s, Client([], [], [], true))
  {
  }

  lemma TakenOk(s: State, cl: Client, request: ClientRequest, call: CallId)
    requires ClientOk(s, cl) && Idle(cl) && StandsFor(s, call, request)
    ensures ClientOk(s, cl.(requests := cl.requests + [request], calls := cl.calls + [call]))
  {
    hide StandsFor, HasEnded, OutcomeOf, Reply;
    var cl' := cl.(requests := cl.requests + [request], calls := cl.calls + [call]);
    forall i | 0 <= i < |cl'.responses|
      ensures Answers(s, cl', i)
    {
      assert Answers(s, cl, i);
    }
  }

  lemma RepliedOk(s: State, cl: Client)
    requires ClientOk(s, cl) && Busy(cl) && HasEnded(s, cl.calls[|cl.responses|])
    ensures var reply := Reply(cl.requests[|cl.responses|], OutcomeOf(s, cl.calls[|cl.responses|]));
            ClientOk(s, cl.(responses := cl.responses + [reply]))
    ensures ClientOk(s, cl.(open := false))
  {
    hide StandsFor, HasEnded, OutcomeOf, Reply;
    var reply := Reply(cl.requests[|cl.responses|], OutcomeOf(s, cl.calls[|cl.responses|]));
    var cl' := cl.(responses := cl.responses + [reply]);
    forall i | 0 <= i < |cl'.responses|
      ensures Answers(s, cl', i)
    {
      if i < |cl.responses| {
        assert Answers(s, cl, i);
      }
    }
    assert forall i | 0 <= i < |cl.responses| :: Answers(s, cl, i) ==> Answers(s, cl.(open := false), i);
  }

  lemma RepliesKeepsClients(s: State, client: ClientId, sent: bool)
    requires Apart(s) && ClientsOk(s)
    ensures ClientsOk(RepliesStep(s, client, sent))
  {
    hide ClientOk, CallsStay, Apart, Busy, HasEnded, OutcomeOf, Reply;
    var s', cl := RepliesStep(s, client, sent), ClientOf(s, client);
    AdvanceKeepsCallsStay(s, ClientReplies(client, sent));
    RepliesKeep(s, client, sent);
    if client in s.clients && Busy(cl) && BusyBound(cl) && HasEnded(s, cl.calls[|cl.responses|]) {
      RepliedOk(s, cl);
    }
    NobodyBusy();
    forall i | i in s'.clients
      ensures ClientOk(s', s'.clients[i])
    {
      if i in s.clients && s'.clients[i] == s.clients[i] {
        ClientFrame(s, s', s.clients[i]);
      } else {
        ClientFrame(s, s', s'.clients[i]);
      }
    }
  }

  predicate BusyBound(cl: Client) {
    |cl.responses| < |cl.calls| && |cl.responses| < |cl.requests|
  }

  lemma NobodyBusy()
    ensures !Busy(Client([], [], [], true))
    ensures forall cl :: Busy(cl) ==> BusyBound(cl)
  {
  }

  lemma NothingRefused()
    ensures Apart(START)
  {
  }

  lemma AdvanceKeepsClients(s: State, step: Step)
    requires Apart(s) && ClientsOk(s)
    ensures ClientsOk(Advance(s, step))
  {
    hide Apart, ClientOk, CallsStay, ConnectStep, LookUpStep, AllocateStep, RegisterStep, SendStep, GiveUpStep,
         LeaveStep, FinishStep,
         ExecuteStep, ReceiveStep, CloseStep, LoseStep, TakesStep, RepliesStep;
    match step
    case ClientTakes(client, request, call) => TakesKeepsClients(s, client, request, call);
    case ClientReplies(client, sent) => RepliesKeepsClients(s, client, sent);
    case _ =>
      AdvanceKeepsCallsStay(s, step);
      ClientsElsewhere(s, step);
      forall i | i in s.clients
        ensures ClientOk(Advance(s, step), s.clients[i])
      {
        ClientFrame(s, Advance(s, step), s.clients[i]);
      }
  }

  lemma LighterClients(s: State, s': State)
    requires ClientsOk(s) && Lighter(s, s')
    ensures ClientsOk(s')
  {
    hide ClientOk, CallsStay, Lighter;
    LighterCalls(s, s');
    forall i | i in s'.clients
      ensures ClientOk(s', s'.clients[i])
    {
      SameClients(s, s');
      ClientFrame(s, s', s.clients[i]);
    }
  }

  lemma SameClients(s: State, s': State)
    requires Lighter(s, s')
    ensures s'.clients == s.clients
  {
  }

  lemma LighterCalls(s: State, s': State)
    requires Lighter(s, s')
    ensures CallsStay(s, s')
  {
  }

  lemma NextKeepsClients(s: State, step: Step)
    requires Apart(s) && ClientsOk(s)
    ensures ClientsOk(Next(s, step))
  {
    hide Apart, ClientsOk, Lighter, Advance, Next;
    AdvanceKeepsClients(s, step);
    NextIsLighter(s, step);
    LighterClients(Advance(s, step), Next(s, step));
  }

  lemma {:induction false} ClientsInEveryRun(steps: seq<Step>)
    ensures ClientsOk(Run(steps)) && Apart(Run(steps))
    decreases |steps|
  {
    hide Apart, ClientOk, Next;
    if steps != [] {
      var before, step := Run(steps[..|steps| - 1]), steps[|steps| - 1];
      ClientsInEveryRun(steps[..|steps| - 1]);
      NextKeepsRefused(before, step);
      NextKeepsClients(before, step);
    } else {
      NothingRefused();
    }
  }

  // ---- end to end ----

  function IdsOf(responses: seq<Response>): seq<U32> {
    seq(|responses|, i requires 0 <= i < |responses| => responses[i].id)
  }

  function RequestIds(requests: seq<ClientRequest>): seq<U32> {
    seq(|requests|, i requires 0 <= i < |requests| => requests[i].id)
  }

  /** In every run, the ids a client has had back are a prefix of those it sent, in order,
  behind by one request at most. */
  lemma RepliesFollowRequests(steps: seq<Step>, client: ClientId)
    requires client in Run(steps).clients
    ensures var cl := Run(steps).clients[client];
            IdsOf(cl.responses) <= RequestIds(cl.requests) && |cl.requests| <= |cl.responses| + 1
  {
    hide Run, StandsFor, OutcomeOf, HasEnded;
    ClientsInEveryRun(steps);
    var s, cl := Run(steps), Run(steps).clients[client];
    assert ClientOk(s, cl);
    forall i | 0 <= i < |cl.responses|
      ensures cl.responses[i].id == cl.requests[i].id
    {
      assert Answers(s, cl, i);
    }
  }

  /** A result that came from a camera: the named camera carried out that very command, on
  one of its streams, exactly once under the id it was sent with. */
  ghost predicate FromCamera(s: State, request: ClientRequest, result: CommandResult) {
    exists sid, id, i :: DoneAt(s, request, result, sid, id, i)
  }

  ghost predicate DoneAt(s: State, request: ClientRequest, result: CommandResult, sid: StreamId, id: U32, i: nat) {
    && sid in s.streams && request.target == Some(s.streams[sid].key)
    && CarriedOutOnce(s.streams[sid].executed, i, id, request.command, result)
  }

  predicate Explains(result: CommandResult) {
    result == Error(INVALID_KEY) || result == Error(NO_CHANNEL) || result == Error(TIMED_OUT)
        || result == Error(SEND_FAILED)
  }

  /** End to end: each response a client gets is the result that the camera it named gave to
  that very command, or one of the server's four errors. */
  lemma ClientsGetTheirAnswers(steps: seq<Step>, client: ClientId, i: nat)
    requires IdsLast(Run(steps)) && client in Run(steps).clients && i < |Run(steps).clients[client].responses|
    ensures |Run(steps).clients[client].responses| <= |Run(steps).clients[client].requests|
    ensures var s := Run(steps);
            var cl := s.clients[client];
            FromCamera(s, cl.requests[i], cl.responses[i].result) || Explains(cl.responses[i].result)
  {
    hide Run, CarriedOutOnce, Valid;
    var s, cl := Run(steps), Run(steps).clients[client];
    ClientsInEveryRun(steps);
    assert ClientOk(s, cl) && Answers(s, cl, i) && StandsFor(s, cl.calls[i], cl.requests[i]);
    var call := cl.calls[i];
    if call in s.calls && s.calls[call].phase.Ended? {
      var c := s.calls[call];
      match c.phase.outcome
      case Answered(response) =>
        AnswersAreCorrelated(steps, call, response);
        var k :| CarriedOutOnce(s.streams[c.stream].executed, k, c.id, c.command, response.result);
        assert DoneAt(s, cl.requests[i], response.result, c.stream, c.id, k);
      case Failed(message) => FailuresAreKnown(steps, call);
    }
  }

  // ---- why calls fail ----

  predicate KnownFailure(c: Call) {
    && (c.phase.Leaving? ==> c.phase.message == TIMED_OUT || c.phase.message == SEND_FAILED)
    && (c.phase.Ended? && c.phase.outcome.Failed?
        ==> c.phase.outcome.message == TIMED_OUT || c.phase.outcome.message == SEND_FAILED
            || c.phase.outcome.message == DISCONNECTED)
  }

  ghost predicate KnownFailures(calls: map<CallId, Call>) {
    forall call :: call in calls ==> KnownFailure(calls[call])
  }

  lemma AdvanceKeepsKnown(s: State, step: Step)
    requires KnownFailures(s.calls)
    ensures KnownFailures(Advance(s, step).calls)
  {
    hide KnownFailures, ConnectStep, LookUpStep, RegisterStep, LeaveStep, ExecuteStep, ReceiveStep, CloseStep, LoseStep,
         TakesStep,
         RepliesStep, AllocateStep, SendStep, GiveUpStep, FinishStep;
    match step
    case LookUp(call, key, command) =>
      LookUpAdds(s, call, key, command);
      AddedKnown(s, LookUpStep(s, call, key, command));
    case ClientTakes(client, request, call) =>
      TakesAdds(s, client, request, call);
      AddedKnown(s, TakesStep(s, client, request, call));
    case ClientReplies(client, sent) => RepliesKeep(s, client, sent);
    case Register(call) => EntryKnown(s, call);
    case Leave(call) => EntryKnown(s, call);
    case Receive(sid) => ReceiveKnown(s, sid);
    case Connect(_, _) => OnlyStreams(s, step);
    case Execute(_, _, _) => OnlyStreams(s, step);
    case CloseReader(_) => OnlyStreams(s, step);
    case Lose(_, _, _) => OnlyStreams(s, step);
    case _ => CallKnown(s, step);
  }

  lemma AddedKnown(s: State, s': State)
    requires KnownFailures(s.calls)
    requires forall c :: c in s.calls ==> c in s'.calls && s'.calls[c] == s.calls[c]
    requires forall c :: c in s'.calls && c !in s.calls ==> FreshCall(s, s'.calls[c])
    ensures KnownFailures(s'.calls)
  {
  }

  lemma DropKnown(calls: map<CallId, Call>, call: CallId)
    requires KnownFailures(calls)
    ensures KnownFailures(DropSender(calls, call))
  {
  }

  lemma EntryKnown(s: State, call: CallId)
    requires KnownFailures(s.calls)
    ensures KnownFailures(RegisterStep(s, call).calls) && KnownFailures(LeaveStep(s, call).calls)
  {
    hide DropSender;
    if call in s.calls && s.calls[call].stream in s.streams {
      var st, id := s.streams[s.calls[call].stream], s.calls[call].id;
      if id in st.pending {
        DropKnown(s.calls, st.pending[id]);
        DropPhase(s.calls, st.pending[id], call);
      }
    }
  }

  lemma ReceiveKnown(s: State, sid: StreamId)
    requires KnownFailures(s.calls)
    ensures KnownFailures(ReceiveStep(s, sid).calls)
  {
  }

  lemma CallKnown(s: State, step: Step)
    requires KnownFailures(s.calls) && (step.Allocate? || step.Send? || step.GiveUp? || step.Finish?)
    ensures KnownFailures(Advance(s, step).calls)
  {
  }

  lemma NextKeepsKnown(s: State, step: Step)
    requires KnownFailures(s.calls)
    ensures KnownFailures(Next(s, step).calls)
  {
    hide Advance, Next;
    AdvanceKeepsKnown(s, step);
    NextIsLighter(s, step);
  }

  lemma {:induction false} KnownInEveryRun(steps: seq<Step>)
    ensures KnownFailures(Run(steps).calls)
    decreases |steps|
  {
    hide Next, KnownFailure;
    if steps != [] {
      KnownInEveryRun(steps[..|steps| - 1]);
      NextKeepsKnown(Run(steps[..|steps| - 1]), steps[|steps| - 1]);
    }
  }

  /** A call that fails timed out or could not be sent. */
  lemma FailuresAreKnown(steps: seq<Step>, call: CallId)
    requires IdsLast(Run(steps)) && call in Run(steps).calls
    requires Run(steps).calls[call].phase.Ended? && Run(steps).calls[call].phase.outcome.Failed?
    ensures var message := Run(steps).calls[call].phase.outcome.message;
            message == TIMED_OUT || message == SEND_FAILED
  {
    hide Run;
    KnownInEveryRun(steps);
    NeverDisconnected(steps, call);
    assert KnownFailure(Run(steps).calls[call]);
  }
}
