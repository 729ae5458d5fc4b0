/** What holds in every run of the command machine, whatever the interleaving of callers,
client loops, cameras, readers, timeouts, late responses, losses and reconnections. */
module CommandRuns {
  import opened Bytes
  import opened Commands
  import opened CommandInvariants
  import opened CommandCorrelation
  import opened CommandSlots
  import opened CommandHolders

  // ---- correlation ----

  ghost predicate Valid(s: State) {
    HeldOk(s) && AllMessagesOk(s) && SendingOk(s)
  }

  lemma StartIsValid()
    ensures Valid(START)
  {
  }

  lemma NextKeepsValid(s: State, step: Step)
    requires Valid(s) && IdsLast(Next(s, step))
    ensures Valid(Next(s, step))
  {
    hide IdsOk, PendingsOk, AllMessagesOk, SlotsOk, SendingOk, CallersHold, IdsLast, Next;
    NextKeepsHeld(s, step);
    NextKeepsMessages(s, step);
    NextKeepsSending(s, step);
  }

  /** Streams never give ids back. */
  ghost predicate IssuedGrows(a: map<StreamId, Stream>, b: map<StreamId, Stream>) {
    forall sid :: sid in a ==> sid in b && a[sid].issued <= b[sid].issued
  }

  lemma AdvanceIssuedGrows(s: State, step: Step)
    ensures IssuedGrows(s.streams, Advance(s, step).streams)
  {
    hide LookUpStep, TakesStep;
    match step
    case Connect(_, _) =>
    case LookUp(call, key, command) => LookUpAdds(s, call, key, command);
    case ClientTakes(client, request, call) => TakesAdds(s, client, request, call);
    case Allocate(_) =>
    case _ =>
      QuietKeeps(s, step);
      KeptIssued(s, Advance(s, step));
  }

  lemma KeptIssued(s: State, s': State)
    requires Kept(s, s')
    ensures IssuedGrows(s.streams, s'.streams)
  {
    forall sid | sid in s.streams
      ensures sid in s'.streams && s.streams[sid].issued <= s'.streams[sid].issued
    {
      assert SameIds(s.streams[sid], s'.streams[sid]);
    }
  }

  lemma IdsLastBefore(s: State, step: Step)
    requires IdsLast(Next(s, step))
    ensures IdsLast(s)
  {
    hide Next, Advance, Lighter, Kept;
    var s' := Advance(s, step);
    AdvanceIssuedGrows(s, step);
    NextIsLighter(s, step);
    LighterKept(s', Next(s, step));
    KeptIssued(s', Next(s, step));
  }

  lemma {:induction false} ValidInEveryRun(steps: seq<Step>)
    requires IdsLast(Run(steps))
    ensures Valid(Run(steps))
    decreases |steps|
  {
    hide Valid, IdsLast, Next;
    if steps == [] {
      StartIsValid();
    } else {
      var before, step := steps[..|steps| - 1], steps[|steps| - 1];
      IdsLastBefore(Run(before), step);
      ValidInEveryRun(before);
      NextKeepsValid(Run(before), step);
    }
  }

  /** A call that is answered gets what its camera did for that very command: the stream is
  one of the camera it named, and there the command was carried out under the call's id,
  with this result, and nothing else was carried out under that id. */
  lemma AnswersAreCorrelated(steps: seq<Step>, call: CallId, response: Response)
    requires IdsLast(Run(steps)) && call in Run(steps).calls
    requires Run(steps).calls[call].phase == Ended(Answered(response))
    ensures var s := Run(steps);
            var c := s.calls[call];
            && response.id == c.id && c.stream in s.streams && s.streams[c.stream].key == c.key
            && exists i :: CarriedOutOnce(s.streams[c.stream].executed, i, c.id, c.command, response.result)
  {
    hide Run, OwnersOk, RegistryOk, PendingsOk, AllMessagesOk;
    ValidInEveryRun(steps);
    var s := Run(steps);
    var c := s.calls[call];
    assert CallOk(s.streams, call, c) && SlotOk(s.streams, c);
    var executed := s.streams[c.stream].executed;
    var i :| 0 <= i < |executed| && executed[i] == Execution(c.id, c.command, response.result);
    assert OnceOk(s.streams[c.stream]);
    assert CarriedOutOnce(executed, i, c.id, c.command, response.result);
  }

  predicate CarriedOutOnce(executed: seq<Execution>, i: nat, id: U32, command: Command, result: CommandResult) {
    && i < |executed| && executed[i] == Execution(id, command, result)
    && forall j | 0 <= j < |executed| && executed[j].id == id :: j == i
  }

  /** A pending entry is that of the one call holding the id, and ids lie between 1 and the
  number given out. */
  lemma PendingIdsAreDistinct(steps: seq<Step>, sid: StreamId, id: U32)
    requires IdsLast(Run(steps)) && sid in Run(steps).streams && id in Run(steps).streams[sid].pending
    ensures var s := Run(steps);
            var st := s.streams[sid];
            && 0 < id <= st.issued && (st.issued + 1 < TWO_32 ==> id < st.nextId)
            && st.pending[id] in s.calls && s.calls[st.pending[id]].stream == sid && s.calls[st.pending[id]].id == id
            && forall call :: OwnedBy(s.calls, sid, id, call) ==> call == st.pending[id]
  {
    hide Run, RegistryOk, AllMessagesOk, SlotsOk, SendingOk;
    ValidInEveryRun(steps);
    var s := Run(steps);
    assert OwnersOk(s.calls, sid, s.streams[sid]) && PendingOk(s.streams[sid]);
    assert OwnedBy(s.calls, sid, id, s.streams[sid].owner[id]);
    assert forall call :: call in s.calls ==> CallOk(s.streams, call, s.calls[call]);
  }

  /** In every run a caller between its lookup and its end holds the state of its stream,
  whether or not the camera, its reader or its registry entry are still there. */
  lemma LiveCallsHold(steps: seq<Step>, call: CallId)
    requires IdsLast(Run(steps)) && Live(Run(steps), call)
    ensures var s := Run(steps); Caller(call) in HoldersOf(s, s.calls[call].stream)
  {
    hide Run, IdsOk, PendingsOk, AllMessagesOk, SlotsOk, SendingOk;
    ValidInEveryRun(steps);
  }

  /** So while ids last no waiting caller ever sees its sender dropped, neither by another
  call's entry nor because the state went: the "Camera disconnected" error does not occur,
  and the caller of a lost camera waits for its timeout. */
  lemma NeverDisconnected(steps: seq<Step>, call: CallId)
    requires IdsLast(Run(steps)) && call in Run(steps).calls
    ensures Run(steps).calls[call].phase != Ended(Failed(DISCONNECTED))
    ensures Live(Run(steps), call) ==> !Run(steps).calls[call].slot.Dropped?
  {
    hide Run, IdsOk, PendingsOk, AllMessagesOk, SendingOk, CarriedOut, CallersHold;
    ValidInEveryRun(steps);
    assert SlotOk(Run(steps).streams, Run(steps).calls[call]);
  }

  /** In every run, wrapped or not, the next id counts the ids given out from 1, modulo
  2^32: command number 2^32 of a stream gets 0, the id of the ready signal, which readers
  ignore, and the one after it starts to repeat ids. */
  lemma {:induction false} NextIdInEveryRun(steps: seq<Step>)
    ensures AllFollow(Run(steps))
    decreases |steps|
  {
    hide Next, IdFollows;
    if steps != [] {
      NextIdInEveryRun(steps[..|steps| - 1]);
      NextIdFollows(Run(steps[..|steps| - 1]), steps[|steps| - 1]);
    }
  }

  predicate IdFollows(st: Stream) {
    st.nextId == (st.issued + 1) % TWO_32
  }

  ghost predicate AllFollow(s: State) {
    forall sid :: sid in s.streams ==> IdFollows(s.streams[sid])
  }

  lemma AdvanceIdFollows(s: State, step: Step)
    requires AllFollow(s)
    ensures AllFollow(Advance(s, step))
  {
    hide LookUpStep, TakesStep;
    match step
    case Connect(_, _) =>
    case LookUp(call, key, command) => LookUpAdds(s, call, key, command);
    case ClientTakes(client, request, call) => TakesAdds(s, client, request, call);
    case Allocate(call) =>
    case _ =>
      QuietKeeps(s, step);
      KeptFollows(s, Advance(s, step));
  }

  lemma NextIdFollows(s: State, step: Step)
    requires AllFollow(s)
    ensures AllFollow(Next(s, step))
  {
    hide Advance, Next, AllFollow, Lighter, Kept;
    AdvanceIdFollows(s, step);
    NextIsLighter(s, step);
    LighterKept(Advance(s, step), Next(s, step));
    KeptFollows(Advance(s, step), Next(s, step));
  }

  lemma KeptFollows(s: State, s': State)
    requires Kept(s, s') && AllFollow(s)
    ensures AllFollow(s')
  {
    assert forall sid :: sid in s.streams ==> SameIds(s.streams[sid], s'.streams[sid]);
  }

  // ---- a call ends once ----

  /** Ended calls stay as they ended. */
  ghost predicate EndedKept(a: map<CallId, Call>, b: map<CallId, Call>) {
    forall call :: call in a ==> call in b && (a[call].phase.Ended? ==> a[call].phase == b[call].phase)
  }

  lemma DropKeepsEnded(calls: map<CallId, Call>, call: CallId)
    ensures EndedKept(calls, DropSender(calls, call))
  {
  }

  lemma FillKeepsEnded(calls: map<CallId, Call>, call: CallId, response: Response)
    ensures EndedKept(calls, FillSlot(calls, call, response))
  {
  }

  lemma PhaseKeepsEnded(a: map<CallId, Call>, b: map<CallId, Call>, call: CallId, c: Call)
    requires EndedKept(a, b) && (call in a ==> !a[call].phase.Ended?)
    ensures EndedKept(a, b[call := c])
  {
  }

  lemma RegisterKeepsEnded(s: State, call: CallId)
    ensures EndedKept(s.calls, RegisterStep(s, call).calls)
  {
    hide EndedKept, DropSender;
    SameEnded(s.calls);
    if At(s, call, Allocated) {
      var st, id := s.streams[s.calls[call].stream], s.calls[call].id;
      if id in st.pending {
        DropKeepsEnded(s.calls, st.pending[id]);
        DropPhase(s.calls, st.pending[id], call);
      }
      PhaseKeepsEnded(s.calls, InsertPending(s.calls, st.pending, id, call).0, call, RegisterStep(s, call).calls[call]);
    }
  }

  lemma LeaveKeepsEnded(s: State, call: CallId)
    ensures EndedKept(s.calls, LeaveStep(s, call).calls)
  {
    hide EndedKept, DropSender;
    SameEnded(s.calls);
    if call in s.calls && s.calls[call].phase.Leaving? && s.calls[call].stream in s.streams {
      var st, c := s.streams[s.calls[call].stream], s.calls[call];
      if c.id in st.pending {
        DropKeepsEnded(s.calls, st.pending[c.id]);
        DropPhase(s.calls, st.pending[c.id], call);
      }
      PhaseKeepsEnded(s.calls, RemovePending(s.calls, st.pending, c.id, call).0, call, LeaveStep(s, call).calls[call]);
    }
  }

  lemma SameEnded(calls: map<CallId, Call>)
    ensures EndedKept(calls, calls)
  {
  }

  lemma ReceiveKeepsEnded(s: State, sid: StreamId)
    ensures EndedKept(s.calls, ReceiveStep(s, sid).calls)
  {
    hide EndedKept, FillSlot;
    SameEnded(s.calls);
    if sid in s.streams && s.streams[sid].toServer != [] {
      var response := s.streams[sid].toServer[0];
      if response.id in s.streams[sid].pending {
        FillKeepsEnded(s.calls, s.streams[sid].pending[response.id], response);
      }
    }
  }

  lemma CallKeepsEnded(s: State, step: Step)
    requires step.Allocate? || step.Send? || step.GiveUp? || step.Finish?
    ensures EndedKept(s.calls, Advance(s, step).calls)
  {
    hide EndedKept;
    SameEnded(s.calls);
    var call := step.call;
    if call in s.calls && !s.calls[call].phase.Ended? {
      PhaseKeepsEnded(s.calls, s.calls, call, Advance(s, step).calls[call]);
    }
  }

  lemma OnlyStreams(s: State, step: Step)
    requires step.Connect? || step.Execute? || step.CloseReader? || step.Lose?
    ensures Advance(s, step).calls == s.calls && Advance(s, step).refused == s.refused
  {
  }

  lemma AdvanceKeepsEnded(s: State, step: Step)
    ensures EndedKept(s.calls, Advance(s, step).calls) && s.refused <= Advance(s, step).refused
  {
    AdvanceKeepsRefused(s, step);
    hide EndedKept, ConnectStep, LookUpStep, AllocateStep, RegisterStep, SendStep, GiveUpStep, LeaveStep, FinishStep,
         ExecuteStep, ReceiveStep, CloseStep, LoseStep, TakesStep, RepliesStep;
    SameEnded(s.calls);
    match step
    case LookUp(call, key, command) =>
      LookUpAdds(s, call, key, command);
      AddedKeepsEnded(s.calls, LookUpStep(s, call, key, command).calls);
    case ClientTakes(client, request, call) =>
      TakesAdds(s, client, request, call);
      AddedKeepsEnded(s.calls, TakesStep(s, client, request, call).calls);
    case ClientReplies(client, sent) => RepliesKeep(s, client, sent);
    case Register(call) => RegisterKeepsEnded(s, call);
    case Leave(call) => LeaveKeepsEnded(s, call);
    case Receive(sid) => ReceiveKeepsEnded(s, sid);
    case Connect(_, _) => OnlyStreams(s, step);
    case Execute(_, _, _) => OnlyStreams(s, step);
    case CloseReader(_) => OnlyStreams(s, step);
    case Lose(_, _, _) => OnlyStreams(s, step);
    case _ => CallKeepsEnded(s, step);
  }

  lemma AddedKeepsEnded(a: map<CallId, Call>, b: map<CallId, Call>)
    requires forall c :: c in a ==> c in b && b[c] == a[c]
    ensures EndedKept(a, b)
  {
  }

  /** A refused call is never also a live one. */
  predicate Apart(s: State) {
    forall call :: call in s.refused ==> call !in s.calls
  }

  lemma AdvanceKeepsRefused(s: State, step: Step)
    ensures s.refused <= Advance(s, step).refused
    ensures Apart(s) ==> Apart(Advance(s, step))
  {
    hide InsertPending, RemovePending, Dispatch, CameraTurn, Reply, OutcomeOf, HasEnded, Busy, Idle;
    if Quiet(step) {
      QuietRefused(s, step);
    }
  }

  lemma QuietRefused(s: State, step: Step)
    requires Quiet(step)
    ensures Advance(s, step).refused == s.refused && Advance(s, step).calls.Keys == s.calls.Keys
  {
    hide RegisterStep, LeaveStep, ReceiveStep, FinishStep, RepliesStep, SendStep, GiveUpStep, ExecuteStep, CloseStep,
         LoseStep;
    QuietKeeps(s, step);
    match step
    case Register(call) => RegisterRefused(s, call);
    case Leave(call) => RegisterRefused(s, call);
    case Receive(sid) => ReceiveRefused(s, sid);
    case Finish(call) => PhaseRefused(s, call);
    case GiveUp(call) => PhaseRefused(s, call);
    case Send(call, delivered, reported) => SendRefused(s, call, delivered, reported);
    case ClientReplies(client, sent) => RepliesKeep(s, client, sent);
    case _ => OnlyStreams(s, step);
  }

  lemma RegisterRefused(s: State, call: CallId)
    ensures RegisterStep(s, call).refused == s.refused && LeaveStep(s, call).refused == s.refused
  {
    hide DropSender;
  }

  lemma ReceiveRefused(s: State, sid: StreamId)
    ensures ReceiveStep(s, sid).refused == s.refused
  {
    hide Dispatch;
  }

  lemma PhaseRefused(s: State, call: CallId)
    ensures FinishStep(s, call).refused == s.refused && GiveUpStep(s, call).refused == s.refused
  {
  }

  lemma SendRefused(s: State, call: CallId, delivered: bool, reported: bool)
    ensures SendStep(s, call, delivered, reported).refused == s.refused
  {
  }

  lemma NextKeepsRefused(s: State, step: Step)
    ensures s.refused <= Next(s, step).refused
    ensures Apart(s) ==> Apart(Next(s, step))
  {
    hide Advance, Next;
    AdvanceKeepsRefused(s, step);
    NextIsLighter(s, step);
  }

  lemma NextKeepsEnded(s: State, step: Step)
    ensures EndedKept(s.calls, Next(s, step).calls)
  {
    hide Advance, Next;
    AdvanceKeepsEnded(s, step);
    NextIsLighter(s, step);
  }

  lemma AdvanceKeepsOutcome(s: State, step: Step, call: CallId)
    requires Apart(s) && HasEnded(s, call)
    ensures HasEnded(Advance(s, step), call) && OutcomeOf(Advance(s, step), call) == OutcomeOf(s, call)
  {
    hide Advance;
    AdvanceKeepsRefused(s, step);
    AdvanceKeepsEnded(s, step);
  }

  lemma NextKeepsOutcome(s: State, step: Step, call: CallId)
    requires Apart(s) && HasEnded(s, call)
    ensures HasEnded(Next(s, step), call) && OutcomeOf(Next(s, step), call) == OutcomeOf(s, call)
  {
    hide Next;
    NextKeepsRefused(s, step);
    NextKeepsEnded(s, step);
  }

  lemma {:induction false} RunKeepsApart(steps: seq<Step>)
    ensures Apart(Run(steps))
    decreases |steps|
  {
    hide Next;
    if steps != [] {
      RunKeepsApart(steps[..|steps| - 1]);
      NextKeepsRefused(Run(steps[..|steps| - 1]), steps[|steps| - 1]);
    }
  }

  /** A call ends at most once: however the run goes on, it stays ended, with that outcome. */
  lemma {:induction false} CallsEndOnce(s: State, more: seq<Step>, call: CallId)
    requires Apart(s) && HasEnded(s, call)
    ensures Apart(RunFrom(s, more))
    ensures HasEnded(RunFrom(s, more), call) && OutcomeOf(RunFrom(s, more), call) == OutcomeOf(s, call)
    decreases |more|
  {
    hide Next, Apart, HasEnded, OutcomeOf;
    if more != [] {
      var before, step := more[..|more| - 1], more[|more| - 1];
      CallsEndOnce(s, before, call);
      NextKeepsRefused(RunFrom(s, before), step);
      NextKeepsOutcome(RunFrom(s, before), step, call);
    }
  }

  /** From any reachable state. */
  lemma EndedCallsStay(steps: seq<Step>, more: seq<Step>, call: CallId)
    requires HasEnded(Run(steps), call)
    ensures HasEnded(RunFrom(Run(steps), more), call)
    ensures OutcomeOf(RunFrom(Run(steps), more), call) == OutcomeOf(Run(steps), call)
  {
    hide HasEnded, OutcomeOf, Apart, Run;
    RunKeepsApart(steps);
    CallsEndOnce(Run(steps), more, call);
  }
}
