/** Which stream a camera's commands go to, after any run: the registry read off the steps. */
module CommandEntries {
  import opened Bytes
  import opened Commands
  import opened CommandInvariants
  import opened CommandHolders

  // ---- the registry, told by the steps alone ----

  /** The camera of a stream: that of the first connection under the stream's id. */
  function CameraOf(steps: seq<Step>, sid: StreamId): Option<Key>
    decreases |steps|
  {
    if steps == [] then None
    else
      var before, step := steps[..|steps| - 1], steps[|steps| - 1];
      if step.Connect? && step.stream == sid && CameraOf(before, sid).None? then Some(step.key)
      else CameraOf(before, sid)
  }

  /** The stream connected, and its reader has not ended since. */
  predicate ReaderRuns(steps: seq<Step>, sid: StreamId)
    decreases |steps|
  {
    steps != [] &&
    var before, step := steps[..|steps| - 1], steps[|steps| - 1];
    if step.Connect? && step.stream == sid && CameraOf(before, sid).None? then true
    else ReaderRuns(before, sid) && step != CloseReader(sid)
  }

  /** The step connects the camera by a new stream. */
  predicate Connects(before: seq<Step>, step: Step, key: Key) {
    step.Connect? && step.key == key && CameraOf(before, step.stream).None?
  }

  /** The step ends a reader that ran, of any stream of the camera. */
  predicate EndsReader(before: seq<Step>, step: Step, key: Key) {
    step.CloseReader? && ReaderRuns(before, step.stream) && CameraOf(before, step.stream) == Some(key)
  }

  /** The camera's latest connection, unless a reader of any of its streams ended after it. */
  function LatestEntry(steps: seq<Step>, key: Key): Option<StreamId>
    decreases |steps|
  {
    if steps == [] then None
    else
      var before, step := steps[..|steps| - 1], steps[|steps| - 1];
      if Connects(before, step, key) then Some(step.stream)
      else if EndsReader(before, step, key) then None
      else LatestEntry(before, key)
  }

  // ---- the same, read off the state ----

  function KeyIn(s: State, sid: StreamId): Option<Key> {
    if sid in s.streams then Some(s.streams[sid].key) else None
  }

  predicate OpenIn(s: State, sid: StreamId) {
    sid in s.streams && s.streams[sid].readerOpen
  }

  function EntryIn(s: State, key: Key): Option<StreamId> {
    if key in s.cameraCommands then Some(s.cameraCommands[key]) else None
  }

  /** Neither keys, readers nor entries changed. */
  ghost predicate SameRegistry(s: State, s': State) {
    && s'.cameraCommands == s.cameraCommands && s'.streams.Keys == s.streams.Keys
    && forall sid :: sid in s.streams ==> SameReader(s.streams[sid], s'.streams[sid])
  }

  predicate SameReader(a: Stream, b: Stream) {
    a.key == b.key && a.readerOpen == b.readerOpen
  }

  lemma LighterRegistry(s: State, s': State)
    requires Lighter(s, s')
    ensures SameRegistry(s, s')
  {
  }

  lemma RegistryTrans(a: State, b: State, c: State)
    requires SameRegistry(a, b) && SameRegistry(b, c)
    ensures SameRegistry(a, c)
  {
  }

  lemma CallStepRegistry(s: State, step: Step)
    requires step.Allocate? || step.Register? || step.Leave? || step.Receive?
    ensures SameRegistry(s, Advance(s, step))
  {
    hide InsertPending, RemovePending, Dispatch;
  }

  lemma PlainStepRegistry(s: State, step: Step)
    requires step.Send? || step.GiveUp? || step.Finish? || step.Execute? || step.Lose?
    ensures SameRegistry(s, Advance(s, step))
  {
  }

  lemma LookUpRegistry(s: State, call: CallId, key: Key, command: Command)
    ensures SameRegistry(s, LookUpStep(s, call, key, command))
  {
  }

  lemma TakesRegistry(s: State, client: ClientId, request: ClientRequest, call: CallId)
    ensures SameRegistry(s, TakesStep(s, client, request, call))
  {
    hide LookUpStep, Idle;
    var cl := ClientOf(s, client);
    var taken := cl.(requests := cl.requests + [request], calls := cl.calls + [call]);
    if request.target.Some? {
      LookUpRegistry(s.(clients := s.clients[client := taken]), call, request.target.value, request.command);
    }
  }

  lemma ClientStepRegistry(s: State, step: Step)
    requires step.LookUp? || step.ClientTakes? || step.ClientReplies?
    ensures SameRegistry(s, Advance(s, step))
  {
    hide SameRegistry, LookUpStep, TakesStep, RepliesStep;
    match step
    case LookUp(call, key, command) => LookUpRegistry(s, call, key, command);
    case ClientTakes(client, request, call) => TakesRegistry(s, client, request, call);
    case ClientReplies(client, sent) => RepliesRegistry(s, client, sent);
  }

  lemma RepliesRegistry(s: State, client: ClientId, sent: bool)
    ensures SameRegistry(s, RepliesStep(s, client, sent))
  {
    hide RepliesStep;
    RepliesKeep(s, client, sent);
  }

  /** Only a connection or a reader's end touches keys, readers and entries. */
  lemma OthersKeepRegistry(s: State, step: Step)
    requires !step.Connect? && !step.CloseReader?
    ensures SameRegistry(s, Next(s, step))
  {
    hide SameRegistry, Advance, Next, Lighter;
    NextIsLighter(s, step);
    LighterRegistry(Advance(s, step), Next(s, step));
    if step.LookUp? || step.ClientTakes? || step.ClientReplies? {
      ClientStepRegistry(s, step);
    } else if step.Allocate? || step.Register? || step.Leave? || step.Receive? {
      CallStepRegistry(s, step);
    } else {
      PlainStepRegistry(s, step);
    }
    RegistryTrans(s, Advance(s, step), Next(s, step));
  }

  /** What a step makes of one stream and one entry. */
  predicate Registered(s: State, step: Step, s': State, sid: StreamId, key: Key) {
    var connects := step.Connect? && KeyIn(s, step.stream).None?;
    var ends := step.CloseReader? && OpenIn(s, step.stream) && KeyIn(s, step.stream) == Some(key);
    var entry := if connects && step.key == key then Some(step.stream) else if ends then None else EntryIn(s, key);
    && KeyIn(s', sid) == (if connects && step.stream == sid then Some(step.key) else KeyIn(s, sid))
    && OpenIn(s', sid) == ((connects && step.stream == sid) || (OpenIn(s, sid) && step != CloseReader(sid)))
    && EntryIn(s', key) == entry
  }

  lemma AdvanceRegisters(s: State, step: Step, sid: StreamId, key: Key)
    requires step.Connect? || step.CloseReader?
    ensures Registered(s, step, Advance(s, step), sid, key)
  {
  }

  lemma RegisteredFrame(s: State, step: Step, a: State, b: State, sid: StreamId, key: Key)
    requires Registered(s, step, a, sid, key) && SameRegistry(a, b)
    ensures Registered(s, step, b, sid, key)
  {
  }

  lemma NextRegisters(s: State, step: Step, sid: StreamId, key: Key)
    ensures Registered(s, step, Next(s, step), sid, key)
  {
    hide Next, Advance, Lighter;
    if step.Connect? || step.CloseReader? {
      hide Registered, SameRegistry;
      NextIsLighter(s, step);
      LighterRegistry(Advance(s, step), Next(s, step));
      AdvanceRegisters(s, step, sid, key);
      RegisteredFrame(s, step, Advance(s, step), Next(s, step), sid, key);
    } else {
      OthersKeepRegistry(s, step);
    }
  }

  /** After every run the steps tell each stream's camera and reader, and each camera's
  entry: it names the camera's latest connection, unless a reader of any stream of the camera
  ended after it; then, or if it never connected, there is none. */
  lemma {:induction false} EntryInEveryRun(steps: seq<Step>, sid: StreamId, key: Key)
    ensures CameraOf(steps, sid) == KeyIn(Run(steps), sid) && ReaderRuns(steps, sid) == OpenIn(Run(steps), sid)
    ensures var s := Run(steps);
            LatestEntry(steps, key) == if key in s.cameraCommands then Some(s.cameraCommands[key]) else None
    decreases |steps|
  {
    hide Next;
    if steps != [] {
      var before, step := steps[..|steps| - 1], steps[|steps| - 1];
      EntryInEveryRun(before, sid, key);
      NextRegisters(Run(before), step, sid, key);
      if step.Connect? || step.CloseReader? {
        EntryInEveryRun(before, step.stream, key);
      }
    }
  }

  /** Every connection of the camera was followed by the end of a reader of the camera. */
  ghost predicate CutOff(steps: seq<Step>, key: Key) {
    forall i :: 0 <= i < |steps| && ConnectsAt(steps, i, key) ==> EndsAfter(steps, i, key)
  }

  predicate ConnectsAt(steps: seq<Step>, i: nat, key: Key) {
    i < |steps| && Connects(steps[..i], steps[i], key)
  }

  predicate EndsAt(steps: seq<Step>, i: nat, key: Key) {
    i < |steps| && EndsReader(steps[..i], steps[i], key)
  }

  ghost predicate EndsAfter(steps: seq<Step>, i: nat, key: Key) {
    exists j: nat :: i < j && EndsAt(steps, j, key)
  }

  lemma SameBefore(steps: seq<Step>, i: nat, key: Key)
    requires i < |steps| - 1
    ensures ConnectsAt(steps, i, key) == ConnectsAt(steps[..|steps| - 1], i, key)
    ensures EndsAt(steps, i, key) == EndsAt(steps[..|steps| - 1], i, key)
  {
    hide Connects, EndsReader;
    assert steps[..|steps| - 1][..i] == steps[..i];
  }

  lemma CutOffStep(steps: seq<Step>, before: seq<Step>, n: nat, key: Key)
    requires |steps| == n + 1 && |before| == n
    requires forall i: nat :: i < n ==> ConnectsAt(steps, i, key) == ConnectsAt(before, i, key)
    requires forall i: nat :: i < n ==> EndsAt(steps, i, key) == EndsAt(before, i, key)
    ensures ConnectsAt(steps, n, key) ==> !CutOff(steps, key)
    ensures EndsAt(steps, n, key) && !ConnectsAt(steps, n, key) ==> CutOff(steps, key)
    ensures !EndsAt(steps, n, key) && !ConnectsAt(steps, n, key) ==> (CutOff(steps, key) <==> CutOff(before, key))
  {
    hide Connects, EndsReader;
    if !EndsAt(steps, n, key) && !ConnectsAt(steps, n, key) {
      forall i: nat | i < n
        ensures EndsAfter(steps, i, key) <==> EndsAfter(before, i, key)
      {
        SameEnds(steps, before, i, n, key);
      }
    }
  }

  lemma SameEnds(steps: seq<Step>, before: seq<Step>, i: nat, n: nat, key: Key)
    requires |steps| == n + 1 && |before| == n && !EndsAt(steps, n, key)
    requires forall j: nat :: j < n ==> EndsAt(steps, j, key) == EndsAt(before, j, key)
    ensures EndsAfter(steps, i, key) <==> EndsAfter(before, i, key)
  {
    hide EndsReader;
    if EndsAfter(steps, i, key) {
      var j: nat :| i < j && EndsAt(steps, j, key);
      assert EndsAt(before, j, key);
    }
    if EndsAfter(before, i, key) {
      var j: nat :| i < j && EndsAt(before, j, key);
      assert EndsAt(steps, j, key);
    }
  }

  lemma {:induction false} NoEntryExactly(steps: seq<Step>, key: Key)
    ensures LatestEntry(steps, key).None? <==> CutOff(steps, key)
    decreases |steps|
  {
    hide Connects, EndsReader, ConnectsAt, EndsAt;
    if steps != [] {
      var n := |steps| - 1;
      var before := steps[..n];
      NoEntryExactly(before, key);
      LastStep(steps, key);
      forall i: nat | i < n
        ensures ConnectsAt(steps, i, key) == ConnectsAt(before, i, key)
        ensures EndsAt(steps, i, key) == EndsAt(before, i, key)
      {
        SameBefore(steps, i, key);
      }
      CutOffStep(steps, before, n, key);
    }
  }

  lemma LastStep(steps: seq<Step>, key: Key)
    requires steps != []
    ensures var n := |steps| - 1;
            && ConnectsAt(steps, n, key) == Connects(steps[..n], steps[n], key)
            && EndsAt(steps, n, key) == EndsReader(steps[..n], steps[n], key)
            && !(ConnectsAt(steps, n, key) && EndsAt(steps, n, key))
  {
  }

  /** A call that comes after the run is refused if and only if a reader of its camera ended
  after the camera's latest connection, or it never connected; otherwise it goes to that
  latest connection, whose reader still runs. */
  lemma RefusedExactly(steps: seq<Step>, call: CallId, key: Key, command: Command)
    requires call !in Run(steps).calls && call !in Run(steps).refused
    ensures var s' := Next(Run(steps), LookUp(call, key, command));
            && (HasEnded(s', call) <==> CutOff(steps, key))
            && (CutOff(steps, key) ==> OutcomeOf(s', call) == Failed(NO_CHANNEL))
            && (!CutOff(steps, key) ==> call in s'.calls && Some(s'.calls[call].stream) == LatestEntry(steps, key))
            && (!CutOff(steps, key) ==> ReaderRuns(steps, s'.calls[call].stream))
  {
    hide Run, CutOff, ReadersHold, EntriesHeld;
    EntryInEveryRun(steps, 0, key);
    NoEntryExactly(steps, key);
    if !CutOff(steps, key) {
      EntryInEveryRun(steps, LatestEntry(steps, key).value, key);
      EntriesAreHeld(steps);
    }
  }

  // ---- entries are held ----

  /** Each entry names a stream of its camera whose reader runs. */
  ghost predicate EntriesOpen(s: State) {
    forall key :: key in s.cameraCommands
      ==> OpenIn(s, s.cameraCommands[key]) && KeyIn(s, s.cameraCommands[key]) == Some(key)
  }

  /** A reader holds the state of its stream. */
  ghost predicate ReadersHold(s: State) {
    forall sid :: OpenIn(s, sid) ==> Reader in HoldersOf(s, sid)
  }

  lemma NextKeepsEntriesOpen(s: State, step: Step)
    requires EntriesOpen(s)
    ensures EntriesOpen(Next(s, step))
  {
    hide Next;
    var s' := Next(s, step);
    forall key | key in s'.cameraCommands
      ensures OpenIn(s', s'.cameraCommands[key]) && KeyIn(s', s'.cameraCommands[key]) == Some(key)
    {
      NextRegisters(s, step, s'.cameraCommands[key], key);
    }
  }

  lemma ReleaseHolders(s: State, x: StreamId, h: Holder, sid: StreamId)
    ensures HoldersOf(Release(s, x, h), sid) == if x == sid then HoldersOf(s, sid) - {h} else HoldersOf(s, sid)
  {
    hide DropSenders;
  }

  lemma EntryHolders(s: State, registered: map<Key, StreamId>, key: Key, sid: StreamId)
    requires Reader in HoldersOf(s, sid)
    ensures Reader in HoldersOf(ReleaseEntry(s, registered, key), sid)
  {
    hide Release;
    if key in registered {
      ReleaseHolders(s, registered[key], Registry, sid);
    }
  }

  /** Only its own end makes a reader let go. */
  lemma NextKeepsReader(s: State, step: Step, sid: StreamId)
    requires Reader in HoldersOf(s, sid) && step != CloseReader(sid)
    ensures Reader in HoldersOf(Next(s, step), sid)
  {
    hide Advance, Release, ReleaseEntry;
    AdvanceFrom(s, step);
    var s' := Advance(s, step);
    match step
    case Connect(x, key) => EntryHolders(Hold(Hold(s', x, Registry), x, Reader), s.cameraCommands, key, sid);
    case Leave(call) => LetGoHolders(s, s', call, sid);
    case Finish(call) => LetGoHolders(s, s', call, sid);
    case CloseReader(x) =>
      if x in s.streams {
        EntryHolders(s', s.cameraCommands, s.streams[x].key, sid);
        ReleaseHolders(ReleaseEntry(s', s.cameraCommands, s.streams[x].key), x, Reader, sid);
      }
    case _ =>
  }

  lemma LetGoHolders(before: State, s: State, call: CallId, sid: StreamId)
    requires Reader in HoldersOf(s, sid)
    ensures Reader in HoldersOf(LetGo(before, s, call), sid)
  {
    hide Release;
    if call in s.calls {
      ReleaseHolders(s, s.calls[call].stream, Caller(call), sid);
    }
  }

  lemma ConnectHolds(s: State, sid: StreamId, key: Key)
    requires sid !in s.streams
    ensures Reader in HoldersOf(Next(s, Connect(sid, key)), sid)
  {
    hide Advance, Release, ReleaseEntry;
    EntryHolders(Hold(Hold(Advance(s, Connect(sid, key)), sid, Registry), sid, Reader), s.cameraCommands, key, sid);
  }

  lemma NextKeepsReadersHold(s: State, step: Step)
    requires ReadersHold(s)
    ensures ReadersHold(Next(s, step))
  {
    hide Next, HoldersOf;
    var s' := Next(s, step);
    forall sid | OpenIn(s', sid)
      ensures Reader in HoldersOf(s', sid)
    {
      NextRegisters(s, step, sid, 0);
      if OpenIn(s, sid) {
        NextKeepsReader(s, step, sid);
      } else {
        ConnectHolds(s, sid, step.key);
      }
    }
  }

  /** What an entry names is held by a reader too. */
  ghost predicate EntriesHeld(s: State) {
    forall key :: key in s.cameraCommands ==> Reader in HoldersOf(s, s.cameraCommands[key])
  }

  /** In every run each entry names a stream of its camera whose reader runs and holds the
  stream's state; so removing an entry never drops a state. */
  lemma {:induction false} EntriesAreHeld(steps: seq<Step>)
    ensures EntriesOpen(Run(steps)) && ReadersHold(Run(steps)) && EntriesHeld(Run(steps))
    decreases |steps|
  {
    hide Next, EntriesOpen, ReadersHold, EntriesHeld;
    if steps == [] {
      NothingHeld();
    } else {
      EntriesAreHeld(steps[..|steps| - 1]);
      NextKeepsEntriesOpen(Run(steps[..|steps| - 1]), steps[|steps| - 1]);
      NextKeepsReadersHold(Run(steps[..|steps| - 1]), steps[|steps| - 1]);
    }
    OpenIsHeld(Run(steps));
  }

  lemma OpenIsHeld(s: State)
    requires EntriesOpen(s) && ReadersHold(s)
    ensures EntriesHeld(s)
  {
  }

  lemma NothingHeld()
    ensures EntriesOpen(START) && ReadersHold(START)
  {
  }

  // ---- what a reader's end does to its camera's entry ----

  /** After a run, closing the reader of a stream removes the entry of its camera, whichever
  stream that names, as there is no generation to compare. Until the camera connects again,
  however long the run goes on, every new call to it is refused, even though a newer stream
  of it may be open. */
  lemma StaleReaderCutsOff(steps: seq<Step>, sid: StreamId, more: seq<Step>, call: CallId, command: Command)
    requires var s := Run(steps); sid in s.streams && s.streams[sid].readerOpen
    requires forall step :: step in more && step.Connect? ==> step.key != Run(steps).streams[sid].key
    ensures var s := Run(steps);
            var key, s' := s.streams[sid].key, RunFrom(Next(s, CloseReader(sid)), more);
            && key !in s'.cameraCommands
            && (call !in s'.calls ==> HasEnded(Next(s', LookUp(call, key, command)), call)
                                      && OutcomeOf(Next(s', LookUp(call, key, command)), call) == Failed(NO_CHANNEL))
  {
    hide Run, RunFrom, Next;
    var s := Run(steps);
    var key := s.streams[sid].key;
    ClosingUnregisters(s, sid);
    StaysUnregistered(Next(s, CloseReader(sid)), more, key);
    if call !in RunFrom(Next(s, CloseReader(sid)), more).calls {
      RefusedWithoutEntry(RunFrom(Next(s, CloseReader(sid)), more), call, key, command);
    }
  }

  lemma ClosingUnregisters(s: State, sid: StreamId)
    requires sid in s.streams && s.streams[sid].readerOpen
    ensures Next(s, CloseReader(sid)).cameraCommands == s.cameraCommands - {s.streams[sid].key}
  {
    hide Next;
    NextIsLighter(s, CloseReader(sid));
  }

  lemma RefusedWithoutEntry(s: State, call: CallId, key: Key, command: Command)
    requires key !in s.cameraCommands && call !in s.calls
    ensures HasEnded(Next(s, LookUp(call, key, command)), call)
    ensures OutcomeOf(Next(s, LookUp(call, key, command)), call) == Failed(NO_CHANNEL)
  {
  }

  /** Only a connection of the camera puts its entry back. */
  lemma EntryFromConnect(s: State, step: Step, key: Key)
    requires key !in s.cameraCommands && (step.Connect? ==> step.key != key)
    ensures key !in Next(s, step).cameraCommands
  {
    hide Next, LookUpStep, TakesStep, Kept;
    NextIsLighter(s, step);
    match step
    case Connect(_, _) =>
    case LookUp(call, k, command) => LookUpAdds(s, call, k, command);
    case ClientTakes(client, request, call) => TakesAdds(s, client, request, call);
    case Allocate(_) =>
    case _ =>
      QuietKeeps(s, step);
      KeptEntries(s, Advance(s, step), key);
  }

  lemma KeptEntries(s: State, s': State, key: Key)
    requires Kept(s, s') && key !in s.cameraCommands
    ensures key !in s'.cameraCommands
  {
  }

  lemma {:induction false} StaysUnregistered(s: State, more: seq<Step>, key: Key)
    requires key !in s.cameraCommands
    requires forall step :: step in more && step.Connect? ==> step.key != key
    ensures key !in RunFrom(s, more).cameraCommands
    decreases |more|
  {
    hide Next;
    if more != [] {
      var before, step := more[..|more| - 1], more[|more| - 1];
      assert step in more && forall t :: t in before ==> t in more;
      StaysUnregistered(s, before, key);
      EntryFromConnect(RunFrom(s, before), step, key);
    }
  }

  /** Such a run: a camera reconnects before its old reader ends, and loses its new entry. */
  lemma ReconnectLosesEntry(key: Key)
    ensures var s := Run([Connect(0, key), Connect(1, key)]);
            && s.cameraCommands == map[key := 1] && s.streams[1].readerOpen
            && Next(s, CloseReader(0)).cameraCommands == map[]
  {
    var steps := [Connect(0, key), Connect(1, key)];
    assert steps[..1] == [Connect(0, key)] && steps[..1][..0] == [];
    assert RunFrom(START, []) == START;
    assert RunFrom(START, steps[..1]) == Next(START, Connect(0, key));
    assert map[key := 0][key := 1] == map[key := 1];
    assert map[key := 1] - {key} == map[];
  }
}
