/** What the fMP4 muxer hands on and when it feeds its process, call by call: a reference that
knows the bytes only, and no flags. */
module Fmp4Runs {
  import opened Bytes
  import opened Seqs
  import opened Fmp4

  // ---- the reference ----

  /** One FFmpeg process: the payloads it was fed and the bytes it gave. */
  datatype Life = Life(fed: seq<Fed>, taken: seq<Byte>)

  datatype Lives = Lives(current: Option<Life>, ended: seq<Life>)

  function EndLife(l: Lives): Lives {
    if l.current.None? then l else Lives(None, l.ended + [l.current.value])
  }

  /** A frame reaches a process: the one that runs, or a new one if the frame is a keyframe. */
  predicate Reaches(l: Lives, isKeyframe: bool, o: Oracle) {
    if l.current.Some? then !o.exited else isKeyframe && o.starts
  }

  function Reached(l: Lives): Life {
    if l.current.Some? then l.current.value else Life([], [])
  }

  /** Its payload is fed if the input is open; the output is taken, and ends the process if it is
  at its end and the init segment was handed on before. */
  function LivesStep(l: Lives, e: Event): Lives {
    match e
    case ResetAll => EndLife(l)
    case MuxFrame(payload, isKeyframe, o) =>
      if !Reaches(l, isKeyframe, o) then if l.current.Some? then EndLife(l) else l
      else
        var life := Reached(l);
        if !o.inputOpen then EndLife(l.(current := Some(life)))
        else
          var fed := Life(life.fed + [Fed(payload, isKeyframe)], life.taken + Flatten(o.chunks));
          var l' := l.(current := Some(fed));
          if o.outputEnded && BoxEnd(life.taken, MOOV).Some? then EndLife(l') else l'
  }

  function LivesAfter(events: seq<Event>): Lives {
    if events == [] then Lives(None, []) else LivesStep(LivesAfter(events[..|events| - 1]), events[|events| - 1])
  }

  function NonEmpty(bytes: seq<Byte>): Option<seq<Byte>> {
    if bytes == [] then None else Some(bytes)
  }

  /** What a call returns: new bytes as media once the first moov box of all bytes is through;
  with that box, everything up to its end as the init segment and the rest as media; before
  it, nothing. */
  function Returned(l: Lives, isKeyframe: bool, o: Oracle): MuxResult {
    if !Reaches(l, isKeyframe, o) || !o.inputOpen then MuxResult(None, None)
    else
      var before := Reached(l).taken;
      var all := before + Flatten(o.chunks);
      if BoxEnd(before, MOOV).Some? then MuxResult(None, NonEmpty(Flatten(o.chunks)))
      else match BoxEnd(all, MOOV)
        case None => MuxResult(None, None)
        case Some(e) => MuxResult(Some(all[..e]), NonEmpty(all[e..]))
  }

  // ---- the muxer follows it ----

  function LifeOf(p: Process): Life {
    Life(p.fed, p.taken)
  }

  function EndedLives(ended: seq<(Process, seq<Byte>)>): (lives: seq<Life>)
    ensures |lives| == |ended|
  {
    seq(|ended|, i requires 0 <= i < |ended| => LifeOf(ended[i].0))
  }

  function LivesOf(s: State): Lives {
    Lives(if s.mux.running then Some(LifeOf(s.process)) else None, EndedLives(s.ended))
  }

  /** A running process never waits for a keyframe. */
  ghost predicate Fine(s: State) {
    Valid(s) && (s.mux.running ==> !s.mux.needsKeyframe)
  }

  lemma EndFine(s: State)
    requires Fine(s)
    ensures Fine(End(s)) && LivesOf(End(s)) == EndLife(LivesOf(s))
  {
    hide Valid;
    EndKeepsValid(s);
    EndLives(s);
  }

  lemma EndLives(s: State)
    ensures LivesOf(End(s)) == EndLife(LivesOf(s))
  {
    if s.mux.running {
      assert EndedLives(s.ended + [(s.process, s.mux.pendingInit)]) == EndedLives(s.ended) + [LifeOf(s.process)];
    }
  }

  /** The flags say what the bytes say. */
  lemma FlagsAreBytes(s: State)
    requires Valid(s)
    ensures s.mux.initSent <==> BoxEnd(s.process.taken, MOOV).Some?
    ensures !s.mux.initSent ==> s.mux.pendingInit == s.process.taken
  {
    hide BoxEnd;
    if s.process.out == [] {
      NoBytes();
      assert [] + s.mux.pendingInit == s.mux.pendingInit;
    }
  }

  lemma CollectReturns(s: State, o: Oracle)
    requires Valid(s) && s.mux.running
    ensures var before, all := s.process.taken, s.process.taken + Flatten(o.chunks);
            Collect(s, o).result ==
            if BoxEnd(before, MOOV).Some? then MuxResult(None, NonEmpty(Flatten(o.chunks)))
            else match BoxEnd(all, MOOV)
              case None => MuxResult(None, None)
              case Some(e) => MuxResult(Some(all[..e]), NonEmpty(all[e..]))
  {
    hide BoxEnd, Valid, Flatten, Segments;
    FlagsAreBytes(s);
    var all := s.process.taken + Flatten(o.chunks);
    if BoxEnd(all, MOOV).Some? {
      BoxEndBound(all, BoxEnd(all, MOOV).value);
    }
  }

  lemma CollectLives(s: State, o: Oracle)
    requires Valid(s) && s.mux.running
    ensures var life := Life(s.process.fed, s.process.taken + Flatten(o.chunks));
            var l := LivesOf(s).(current := Some(life));
            LivesOf(Collect(s, o).state)
            == if o.outputEnded && BoxEnd(s.process.taken, MOOV).Some? then EndLife(l) else l
  {
    hide BoxEnd, Valid, Flatten, Segments, EndedLives, TakeInit, TakeMedia, End;
    FlagsAreBytes(s);
    if s.mux.initSent {
      var r := TakeMedia(Flatten(o.chunks));
      var s' := s.(process := s.process.(taken := s.process.taken + Flatten(o.chunks),
                                         out := s.process.out + Segments(r)));
      EndLives(s');
    }
  }

  /** The state right after the payload is fed. */
  function Feeding(s: State, payload: seq<Byte>, isKeyframe: bool): State {
    var process := if s.mux.running then s.process else NEW_PROCESS;
    s.(mux := s.mux.(running := true, needsKeyframe := false),
       process := process.(fed := process.fed + [Fed(payload, isKeyframe)]))
  }

  lemma FeedingValid(s: State, payload: seq<Byte>, isKeyframe: bool)
    requires Fine(s) && (s.mux.running || isKeyframe)
    ensures Valid(Feeding(s, payload, isKeyframe))
  {
    hide Conserved;
    NothingTaken();
    FeedConserved(if s.mux.running then s.process else NEW_PROCESS, s.mux.pendingInit, Fed(payload, isKeyframe));
  }

  /** A call, without the flag that makes it wait for a keyframe. */
  lemma MuxCases(s: State, payload: seq<Byte>, isKeyframe: bool, o: Oracle)
    requires Fine(s)
    ensures var r := MuxStep(s, payload, isKeyframe, o);
            var s1 := s.(mux := s.mux.(running := true, needsKeyframe := false));
            var idle := s.(mux := s.mux.(needsKeyframe := r.state.mux.needsKeyframe));
            r == if !Reaches(LivesOf(s), isKeyframe, o) then Muxed(if s.mux.running then End(s) else idle, NOTHING)
                 else if o.inputOpen then Collect(Feeding(s, payload, isKeyframe), o)
                 else Muxed(End(s1), NOTHING)
  {
    hide End, Collect, Conserved;
    if !s.mux.running {
      NotRunning(s);
    }
  }

  lemma NotRunning(s: State)
    requires Valid(s) && !s.mux.running
    ensures s.process == NEW_PROCESS && !s.mux.initSent && s.mux.pendingInit == []
  {
  }

  /** One call follows the reference. */
  lemma MuxFollows(s: State, payload: seq<Byte>, isKeyframe: bool, o: Oracle)
    requires Fine(s)
    ensures var r := MuxStep(s, payload, isKeyframe, o);
            && Fine(r.state) && r.result == Returned(LivesOf(s), isKeyframe, o)
            && LivesOf(r.state) == LivesStep(LivesOf(s), MuxFrame(payload, isKeyframe, o))
  {
    hide MuxStep, End, Collect, Valid, BoxEnd, Flatten, EndedLives;
    MuxCases(s, payload, isKeyframe, o);
    MuxFine(s, payload, isKeyframe, o);
    EndLives(s);
    EndLives(s.(mux := s.mux.(running := true, needsKeyframe := false)));
    if Reaches(LivesOf(s), isKeyframe, o) {
      FeedingValid(s, payload, isKeyframe);
      var fed := Feeding(s, payload, isKeyframe);
      CollectReturns(fed, o);
      CollectLives(fed, o);
      if !s.mux.running {
        NotRunning(s);
      }
    }
  }

  lemma MuxFine(s: State, payload: seq<Byte>, isKeyframe: bool, o: Oracle)
    requires Fine(s)
    ensures Fine(MuxStep(s, payload, isKeyframe, o).state)
  {
    hide Valid, TakeInit, TakeMedia, Segments, Flatten;
    MuxKeepsValid(s, payload, isKeyframe, o);
  }

  lemma {:induction false} RunFollows(events: seq<Event>)
    ensures Fine(Run(events)) && LivesOf(Run(events)) == LivesAfter(events)
    decreases |events|
  {
    hide Fine, MuxStep, End, LivesStep;
    if events == [] {
      FreshFollows();
    } else {
      var before := events[..|events| - 1];
      RunFollows(before);
      match events[|events| - 1] {
        case MuxFrame(payload, isKeyframe, o) => MuxFollows(Run(before), payload, isKeyframe, o);
        case ResetAll =>
          EndFine(Run(before));
          ResetEnds(LivesAfter(before));
      }
    }
  }

  lemma ResetEnds(l: Lives)
    ensures LivesStep(l, ResetAll) == EndLife(l)
  {
  }

  lemma FreshFollows()
    ensures Fine(FRESH) && LivesOf(FRESH) == Lives(None, [])
  {
    NothingTaken();
  }

  /** After every run, what the next call returns, and which processes there are then, with
  what they were fed and gave, is that of the reference: a running process with an open input
  is fed every frame, a new one is started by keyframes only, and each returns the init
  segment up to its first moov box once that is complete and everything after as media. */
  lemma CallsFollowReference(events: seq<Event>, payload: seq<Byte>, isKeyframe: bool, o: Oracle)
    ensures var next := MuxStep(Run(events), payload, isKeyframe, o);
            && next.result == Returned(LivesAfter(events), isKeyframe, o)
            && LivesOf(next.state) == LivesStep(LivesAfter(events), MuxFrame(payload, isKeyframe, o))
  {
    hide MuxStep, LivesStep, Returned, Run, LivesAfter;
    RunFollows(events);
    MuxFollows(Run(events), payload, isKeyframe, o);
  }

  // ---- per process, over the results ----

  /** What the calls of process number `n` returned, in order. */
  function HandedOn(events: seq<Event>, n: nat): seq<Segment>
    decreases |events|
  {
    if events == [] then []
    else
      var before, e := events[..|events| - 1], events[|events| - 1];
      if e.MuxFrame? && |LivesAfter(before).ended| == n
      then HandedOn(before, n) + Segments(MuxStep(Run(before), e.payload, e.isKeyframe, e.oracle).result)
      else HandedOn(before, n)
  }

  /** The log of process number `n`, and the bytes of it that are held back or were lost. */
  function ProcessLog(s: State, n: nat): (Process, seq<Byte>)
    requires n <= |s.ended|
  {
    if n < |s.ended| then s.ended[n] else (s.process, s.mux.pendingInit)
  }

  function OutOf(s: State, n: nat): seq<Segment> {
    if n < |s.ended| then s.ended[n].0.out else if n == |s.ended| then s.process.out else []
  }

  lemma EndOut(s: State, n: nat)
    requires Valid(s)
    ensures OutOf(End(s), n) == OutOf(s, n) && |s.ended| <= |End(s).ended|
  {
  }

  lemma CollectOut(s: State, o: Oracle, n: nat)
    requires Valid(s) && s.mux.running
    ensures OutOf(Collect(s, o).state, n)
         == OutOf(s, n) + if n == |s.ended| then Segments(Collect(s, o).result) else []
  {
    hide BoxEnd, Conserved, Flatten, Segments, TakeInit, TakeMedia;
    if s.mux.initSent {
      var r := TakeMedia(Flatten(o.chunks));
      var s' := s.(process := s.process.(taken := s.process.taken + Flatten(o.chunks),
                                         out := s.process.out + Segments(r)));
      assert OutOf(s', n) == OutOf(s, n) + if n == |s.ended| then Segments(r) else [];
    }
  }

  lemma MuxOut(s: State, payload: seq<Byte>, isKeyframe: bool, o: Oracle, n: nat)
    requires Fine(s)
    ensures var r := MuxStep(s, payload, isKeyframe, o);
            OutOf(r.state, n) == OutOf(s, n) + if n == |s.ended| then Segments(r.result) else []
  {
    hide MuxStep, End, Collect, Conserved;
    MuxCases(s, payload, isKeyframe, o);
    EndOut(s, n);
    assert Segments(NOTHING) == [];
    if Reaches(LivesOf(s), isKeyframe, o) {
      FeedingValid(s, payload, isKeyframe);
      if o.inputOpen {
        CollectOut(Feeding(s, payload, isKeyframe), o, n);
      } else {
        StartedOut(s, n);
      }
    }
  }

  lemma StartedOut(s: State, n: nat)
    requires Valid(s)
    ensures OutOf(End(s.(mux := s.mux.(running := true, needsKeyframe := false))), n) == OutOf(s, n)
  {
  }

  lemma {:induction false} HandedOnIsOut(events: seq<Event>, n: nat)
    ensures HandedOn(events, n) == OutOf(Run(events), n)
    decreases |events|
  {
    hide Conserved, MuxStep, End, Segments, LivesStep;
    if events != [] {
      var before := events[..|events| - 1];
      HandedOnIsOut(before, n);
      RunFollows(before);
      match events[|events| - 1] {
        case MuxFrame(payload, isKeyframe, o) => MuxOut(Run(before), payload, isKeyframe, o, n);
        case ResetAll => EndOut(Run(before), n);
      }
    }
  }

  /** The results of each process's calls conserve its bytes: the segments handed on and what
  is held back are the bytes that it gave, the init segment comes once and first, up to the first
  moov box, and nothing is handed on without one. */
  lemma ResultsConserveBytes(events: seq<Event>, n: nat)
    requires n <= |Run(events).ended|
    ensures var log := ProcessLog(Run(events), n);
            var out := HandedOn(events, n);
            && BytesOf(out) + log.1 == log.0.taken && InitFirst(out)
            && (out == [] <==> BoxEnd(log.0.taken, MOOV).None?)
            && (out != [] ==> log.1 == [] && BoxEnd(log.0.taken, MOOV) == Some(|out[0].bytes|))
            && (log.0.fed != [] ==> log.0.fed[0].isKeyframe)
    ensures var l := LivesAfter(events);
            LifeOf(ProcessLog(Run(events), n).0)
            == if n < |l.ended| then l.ended[n] else Reached(l)
  {
    hide BoxEnd, BytesOf, InitFirst, LivesStep, MuxStep;
    HandedOnIsOut(events, n);
    RunFollows(events);
    ByteConservation(events);
    var s := Run(events);
    if n < |s.ended| {
      assert s.ended[n] in s.ended;
    }
  }
}
