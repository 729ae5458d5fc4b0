/** The fragmented-MP4 muxer (crates/kodama/src/web/fmp4.rs).

FFmpeg is an oracle: each call is told whether the process had exited, whether it
could be started, whether its input was open, and which chunks its output gave. The
log records, for every process, what it was fed, what was taken from its output and
what was handed on. */
module Fmp4 {
  import opened Bytes
  import opened Seqs

  // ---- the box walk ----

  function BoxSize(data: seq<Byte>, pos: nat): nat
    requires pos + 4 <= |data|
  {
    FromBigEndian(data[pos..pos + 4])
  }

  /** find_box_end from a box boundary on: the end of the first top-level box of the
  given type, if every box up to it is complete. */
  function BoxEndFrom(data: seq<Byte>, boxType: seq<Byte>, pos: nat): (r: Option<nat>)
    ensures r.Some? ==> pos + 8 <= r.value <= |data|
    decreases |data| - pos
  {
    if pos + 8 > |data| then None
    else
      var size := BoxSize(data, pos);
      if size < 8 || pos + size > |data| then None
      else if data[pos + 4..pos + 8] == boxType then Some(pos + size)
      else BoxEndFrom(data, boxType, pos + size)
  }

  function BoxEnd(data: seq<Byte>, boxType: seq<Byte>): Option<nat> {
    BoxEndFrom(data, boxType, 0)
  }

  const MOOV: seq<Byte> := [0x6d, 0x6f, 0x6f, 0x76]

  /** find_box_end. */
  method FindBoxEnd(data: seq<Byte>, boxType: seq<Byte>) returns (r: Option<nat>)
    ensures r == BoxEnd(data, boxType)
  {
    var pos := 0;
    while pos + 8 <= |data|
      invariant BoxEndFrom(data, boxType, pos) == BoxEnd(data, boxType)
      decreases |data| - pos
    {
      var size := BoxSize(data, pos);
      if size < 8 || pos + size > |data| {
        return None;
      }
      if data[pos + 4..pos + 8] == boxType {
        return Some(pos + size);
      }
      pos := pos + size;
    }
    return None;
  }

  /** A boundary that was found stays where it is when more bytes arrive, and does
  not depend on the bytes after it. */
  lemma {:induction false} BoxEndStable(data: seq<Byte>, more: seq<Byte>, boxType: seq<Byte>, pos: nat)
    requires BoxEndFrom(data, boxType, pos).Some?
    ensures BoxEndFrom(data + more, boxType, pos) == BoxEndFrom(data, boxType, pos)
    decreases |data| - pos
  {
    var size := BoxSize(data, pos);
    assert (data + more)[pos..pos + 4] == data[pos..pos + 4];
    assert (data + more)[pos + 4..pos + 8] == data[pos + 4..pos + 8];
    if data[pos + 4..pos + 8] != boxType {
      BoxEndStable(data, more, boxType, pos + size);
    }
  }

  /** A box as section 4.2 of ISO/IEC 14496-12 writes it, with a 32-bit size. */
  datatype Box = Box(boxType: seq<Byte>, body: seq<Byte>) {
    predicate WellFormed() {
      |boxType| == 4 && 8 + |body| < TWO_32
    }

    function ToBytes(): seq<Byte> {
      BigEndian(8 + |body|, 4) + boxType + body
    }
  }

  function Boxes(bs: seq<Box>): seq<Byte> {
    if bs == [] then [] else bs[0].ToBytes() + Boxes(bs[1..])
  }

  lemma HeaderSlices(pre: seq<Byte>, size: seq<Byte>, boxType: seq<Byte>, body: seq<Byte>, rest: seq<Byte>)
    requires |size| == 4 && |boxType| == 4
    ensures var data := pre + (size + boxType + body) + rest;
            data[|pre|..|pre| + 4] == size && data[|pre| + 4..|pre| + 8] == boxType
  {
  }

  lemma BoxHeader(pre: seq<Byte>, b: Box, rest: seq<Byte>)
    requires b.WellFormed()
    ensures var data := pre + b.ToBytes() + rest;
            && |pre| + 8 <= |data|
            && BoxSize(data, |pre|) == |b.ToBytes()| == 8 + |b.body|
            && data[|pre| + 4..|pre| + 8] == b.boxType
  {
    hide BigEndian, FromBigEndian;
    Widths();
    BigEndianRoundTrip(8 + |b.body|, 4);
    HeaderSlices(pre, BigEndian(8 + |b.body|, 4), b.boxType, b.body, rest);
  }

  /** One box of the walk. */
  lemma WalkStep(data: seq<Byte>, boxType: seq<Byte>, pos: nat, size: nat)
    requires pos + 8 <= pos + size <= |data| && BoxSize(data, pos) == size
    ensures BoxEndFrom(data, boxType, pos) ==
            if data[pos + 4..pos + 8] == boxType then Some(pos + size) else BoxEndFrom(data, boxType, pos + size)
  {
  }

  /** The walk over boxes written one after another ends behind the first box of the
  type, whatever follows it. */
  lemma {:induction false} WalkFindsBox(pre: seq<Byte>, bs: seq<Box>, rest: seq<Byte>, boxType: seq<Byte>)
    requires bs != [] && forall b :: b in bs ==> b.WellFormed()
    requires bs[|bs| - 1].boxType == boxType && forall i | 0 <= i < |bs| - 1 :: bs[i].boxType != boxType
    ensures BoxEndFrom(pre + Boxes(bs) + rest, boxType, |pre|) == Some(|pre| + |Boxes(bs)|)
    decreases |bs|
  {
    hide BoxSize, BoxEndFrom, Box.ToBytes, Box.WellFormed;
    var b, tail := bs[0], Boxes(bs[1..]);
    assert b in bs;
    Regroup(pre, b.ToBytes(), tail, rest);
    BoxHeader(pre, b, tail + rest);
    WalkStep(pre + b.ToBytes() + (tail + rest), boxType, |pre|, |b.ToBytes()|);
    if |bs| == 1 {
      assert tail == [];
    } else {
      WalkFindsBox(pre + b.ToBytes(), bs[1..], rest, boxType);
    }
  }

  lemma Regroup(a: seq<Byte>, b: seq<Byte>, c: seq<Byte>, d: seq<Byte>)
    ensures a + (b + c) + d == a + b + (c + d) == (a + b) + c + d
  {
  }

  // ---- the muxer, on values ----

  datatype Muxer = Muxer(running: bool, initSent: bool, needsKeyframe: bool, pendingInit: seq<Byte>)

  /** Fmp4Muxer::default. */
  const IDLE := Muxer(false, false, false, [])

  const RESET := Muxer(false, false, true, [])

  /** What a call finds: an exited process, a start that works, an open input, the
  chunks available on the output, and whether the output then is at its end. */
  datatype Oracle = Oracle(exited: bool, starts: bool, inputOpen: bool, chunks: seq<seq<Byte>>, outputEnded: bool)

  datatype MuxResult = MuxResult(initSegment: Option<seq<Byte>>, mediaSegment: Option<seq<Byte>>)

  const NOTHING := MuxResult(None, None)

  datatype Fed = Fed(payload: seq<Byte>, isKeyframe: bool)

  datatype Segment = Init(bytes: seq<Byte>) | Media(bytes: seq<Byte>)

  /** The life of one FFmpeg process. */
  datatype Process = Process(fed: seq<Fed>, taken: seq<Byte>, out: seq<Segment>)

  const NEW_PROCESS := Process([], [], [])

  function BytesOf(out: seq<Segment>): seq<Byte> {
    if out == [] then [] else BytesOf(out[..|out| - 1]) + out[|out| - 1].bytes
  }

  /** Segments in the order in which a result hands them on. */
  function Segments(r: MuxResult): seq<Segment> {
    (if r.initSegment.Some? then [Init(r.initSegment.value)] else []) +
    (if r.mediaSegment.Some? then [Media(r.mediaSegment.value)] else [])
  }

  datatype Emitted = Emitted(pendingInit: seq<Byte>, initSent: bool, result: MuxResult)

  /** The bytes just read from the output, before the init segment is complete. */
  function TakeInit(pendingInit: seq<Byte>, bytes: seq<Byte>): Emitted {
    var pending := pendingInit + bytes;
    match BoxEnd(pending, MOOV)
    case None => Emitted(pending, false, NOTHING)
    case Some(e) =>
      Emitted([], true, MuxResult(Some(pending[..e]), if e < |pending| then Some(pending[e..]) else None))
  }

  function TakeMedia(bytes: seq<Byte>): MuxResult {
    MuxResult(None, if bytes == [] then None else Some(bytes))
  }

  /** The muxer with the log of its processes; an ended process keeps the bytes that
  were taken from it and never handed on. */
  datatype State = State(mux: Muxer, process: Process, ended: seq<(Process, seq<Byte>)>)

  const FRESH := State(IDLE, NEW_PROCESS, [])

  function End(s: State): State {
    State(RESET, NEW_PROCESS, if s.mux.running then s.ended + [(s.process, s.mux.pendingInit)] else s.ended)
  }

  datatype Muxed = Muxed(state: State, result: MuxResult)

  /** mux_frame up to the point where the payload is fed; `None` when the call ends
  before it. */
  function Admit(s: State, isKeyframe: bool, o: Oracle): (State, bool) {
    if s.mux.running && o.exited then (End(s), false)
    else if s.mux.needsKeyframe && !isKeyframe then (s, false)
    else
      var s1 := s.(mux := s.mux.(needsKeyframe := false));
      if s.mux.running then (s1, true)
      else if !isKeyframe || !o.starts then (s1, false)
      else (s1.(mux := s1.mux.(running := true), process := NEW_PROCESS), true)
  }

  /** The output side of mux_frame. */
  function Collect(s: State, o: Oracle): Muxed {
    var bytes := Flatten(o.chunks);
    if !s.mux.initSent then
      var e := TakeInit(s.mux.pendingInit, bytes);
      Muxed(s.(mux := s.mux.(pendingInit := e.pendingInit, initSent := e.initSent),
               process := s.process.(taken := s.process.taken + bytes, out := s.process.out + Segments(e.result))),
            e.result)
    else
      var r := TakeMedia(bytes);
      var s' := s.(process := s.process.(taken := s.process.taken + bytes, out := s.process.out + Segments(r)));
      Muxed(if o.outputEnded then End(s') else s', r)
  }

  /** mux_frame. */
  function MuxStep(s: State, payload: seq<Byte>, isKeyframe: bool, o: Oracle): Muxed {
    var (s1, admitted) := Admit(s, isKeyframe, o);
    if !admitted then Muxed(s1, NOTHING)
    else if !o.inputOpen then Muxed(End(s1), NOTHING)
    else Collect(s1.(process := s1.process.(fed := s1.process.fed + [Fed(payload, isKeyframe)])), o)
  }

  /** A run: frames, and resets from outside after a lag. */
  datatype Event = MuxFrame(payload: seq<Byte>, isKeyframe: bool, oracle: Oracle) | ResetAll

  function Run(events: seq<Event>): State {
    if events == [] then FRESH
    else
      var s := Run(events[..|events| - 1]);
      match events[|events| - 1]
      case MuxFrame(payload, isKeyframe, o) => MuxStep(s, payload, isKeyframe, o).state
      case ResetAll => End(s)
  }

  // ---- byte conservation ----

  /** An init segment first, if anything, and nothing but media after it. */
  predicate InitFirst(out: seq<Segment>) {
    out == [] || (out[0].Init? && forall i | 0 < i < |out| :: out[i].Media?)
  }

  /** What one process promises, with `unsent` the bytes not handed on: they and the
  segments together are the bytes taken; the init segment ends at the first
  top-level moov box of everything taken; the first payload was a keyframe. */
  predicate Conserved(p: Process, unsent: seq<Byte>) {
    && BytesOf(p.out) + unsent == p.taken
    && InitFirst(p.out)
    && (p.out == [] ==> BoxEnd(p.taken, MOOV) == None)
    && (p.out != [] ==> unsent == [] && BoxEnd(p.taken, MOOV) == Some(|p.out[0].bytes|))
    && (p.fed != [] ==> p.fed[0].isKeyframe)
  }

  ghost predicate Valid(s: State) {
    && Conserved(s.process, s.mux.pendingInit)
    && (s.mux.initSent <==> s.process.out != [])
    && (!s.mux.running ==> !s.mux.initSent && s.mux.pendingInit == [] && s.process == NEW_PROCESS)
    && (s.mux.running ==> s.process.fed != [])
    && forall e :: e in s.ended ==> Conserved(e.0, e.1)
  }

  lemma BytesOfSnoc(out: seq<Segment>, g: Segment)
    ensures BytesOf(out + [g]) == BytesOf(out) + g.bytes
  {
    SnocParts(out, g);
  }

  lemma {:induction false} BytesOfHead(out: seq<Segment>)
    requires out != []
    ensures |BytesOf(out)| >= |out[0].bytes| && BytesOf(out)[..|out[0].bytes|] == out[0].bytes
    decreases |out|
  {
    if |out| == 1 {
      assert BytesOf(out[..0]) == [];
    } else {
      BytesOfHead(out[..|out| - 1]);
    }
  }

  lemma NothingTaken()
    ensures Conserved(NEW_PROCESS, [])
  {
    assert BoxEnd([], MOOV) == None;
  }

  lemma InitConserved(p: Process, pending: seq<Byte>, bytes: seq<Byte>)
    requires Conserved(p, pending) && p.out == []
    ensures var e := TakeInit(pending, bytes);
            var p' := p.(taken := p.taken + bytes, out := p.out + Segments(e.result));
            Conserved(p', e.pendingInit) && (e.initSent <==> p'.out != [])
  {
    hide BoxEnd, BytesOf;
    var all := pending + bytes;
    NoBytes();
    assert [] + pending == pending;
    match BoxEnd(all, MOOV) {
      case None => assert [] + all == all && [] + Segments(NOTHING) == [];
      case Some(e) =>
        BoxEndBound(all, e);
        var first, rest := Init(all[..e]), Media(all[e..]);
        BytesOfSnoc([], first);
        BytesOfSnoc([first], rest);
        assert [] + [first] == [first] && [first] + [rest] == [first, rest];
        assert [] + all[..e] == all[..e] && all[..e] + all[e..] == all && all + [] == all;
        assert p.out + Segments(TakeInit(pending, bytes).result) == if e < |all| then [first, rest] else [first];
    }
  }

  lemma NoBytes()
    ensures BytesOf([]) == []
  {
  }

  lemma BoxEndBound(data: seq<Byte>, e: nat)
    requires BoxEnd(data, MOOV) == Some(e)
    ensures 8 <= e <= |data|
  {
  }

  lemma MediaConserved(p: Process, bytes: seq<Byte>)
    requires Conserved(p, []) && p.out != []
    ensures Conserved(p.(taken := p.taken + bytes, out := p.out + Segments(TakeMedia(bytes))), [])
  {
    hide BoxEnd, BytesOf;
    MoovStays(p.taken, bytes);
    assert BytesOf(p.out) + [] == BytesOf(p.out);
    if bytes == [] {
      assert p.out + Segments(TakeMedia(bytes)) == p.out && p.taken + bytes == p.taken;
    } else {
      BytesOfSnoc(p.out, Media(bytes));
      assert Segments(TakeMedia(bytes)) == [Media(bytes)];
      assert p.taken + bytes + [] == p.taken + bytes;
    }
  }

  lemma MoovStays(data: seq<Byte>, more: seq<Byte>)
    requires BoxEnd(data, MOOV).Some?
    ensures BoxEnd(data + more, MOOV) == BoxEnd(data, MOOV)
  {
    BoxEndStable(data, more, MOOV, 0);
  }

  lemma EndKeepsValid(s: State)
    requires Valid(s)
    ensures Valid(End(s))
  {
    hide Conserved;
    NothingTaken();
  }

  lemma CollectKeepsValid(s: State, o: Oracle)
    requires Valid(s) && s.mux.running
    ensures Valid(Collect(s, o).state)
  {
    hide Conserved, End, Flatten, TakeInit, TakeMedia, Segments;
    var bytes := Flatten(o.chunks);
    if !s.mux.initSent {
      InitConserved(s.process, s.mux.pendingInit, bytes);
    } else {
      PendingEmpty(s);
      MediaConserved(s.process, bytes);
      MediaAppends(s.process.out, bytes);
      var s' := s.(process := s.process.(taken := s.process.taken + bytes,
                                         out := s.process.out + Segments(TakeMedia(bytes))));
      EndKeepsValid(s');
    }
  }

  lemma PendingEmpty(s: State)
    requires Valid(s) && s.mux.initSent
    ensures s.mux.pendingInit == []
  {
  }

  lemma MediaAppends(out: seq<Segment>, bytes: seq<Byte>)
    requires out != []
    ensures out + Segments(TakeMedia(bytes)) != []
  {
  }

  lemma FeedConserved(p: Process, pending: seq<Byte>, f: Fed)
    requires Conserved(p, pending) && (p.fed == [] ==> f.isKeyframe)
    ensures Conserved(p.(fed := p.fed + [f]), pending)
  {
  }

  lemma MuxKeepsValid(s: State, payload: seq<Byte>, isKeyframe: bool, o: Oracle)
    requires Valid(s)
    ensures Valid(MuxStep(s, payload, isKeyframe, o).state)
  {
    hide Conserved, End, Collect;
    EndKeepsValid(s);
    NothingTaken();
    var (s1, admitted) := Admit(s, isKeyframe, o);
    if admitted {
      FeedConserved(s1.process, s1.mux.pendingInit, Fed(payload, isKeyframe));
      var s2 := s1.(process := s1.process.(fed := s1.process.fed + [Fed(payload, isKeyframe)]));
      if o.inputOpen {
        CollectKeepsValid(s2, o);
      } else {
        EndConserves(s1);
      }
    }
  }

  /** A process that never got its first payload ends with nothing taken. */
  lemma EndConserves(s: State)
    requires Conserved(s.process, s.mux.pendingInit) && forall e :: e in s.ended ==> Conserved(e.0, e.1)
    ensures Valid(End(s))
  {
    NothingTaken();
  }

  /** fMP4 byte conservation, over every run of frames, process failures and resets:
  for the current process and every earlier one, init segment, media segments and
  pending bytes are exactly the bytes taken from its output; the init segment comes
  once and first, and ends at the first moov box of all its output; the first
  payload fed was a keyframe. */
  lemma {:induction false} ByteConservation(events: seq<Event>)
    ensures Valid(Run(events))
    ensures var s := Run(events);
            && Conserved(s.process, s.mux.pendingInit)
            && forall e :: e in s.ended ==> Conserved(e.0, e.1)
    decreases |events|
  {
    hide Conserved, MuxStep, End;
    if events == [] {
      NothingTaken();
    } else {
      ByteConservation(events[..|events| - 1]);
      var s := Run(events[..|events| - 1]);
      match events[|events| - 1] {
        case MuxFrame(payload, isKeyframe, o) => MuxKeepsValid(s, payload, isKeyframe, o);
        case ResetAll => EndKeepsValid(s);
      }
    }
  }

  /** So the init segment is a prefix of the bytes taken, up to the moov box. */
  lemma InitIsPrefix(p: Process, unsent: seq<Byte>)
    requires Conserved(p, unsent) && p.out != []
    ensures p.out[0].bytes <= p.taken && BoxEnd(p.taken, MOOV) == Some(|p.out[0].bytes|)
  {
    BytesOfHead(p.out);
  }

  // ---- the muxer in place ----

  class Fmp4Muxer {
    var running: bool
    var initSent: bool
    var needsKeyframe: bool
    var pendingInit: seq<Byte>
    ghost var process: Process
    ghost var ended: seq<(Process, seq<Byte>)>

    ghost function Log(): State
      reads this
    {
      State(Muxer(running, initSent, needsKeyframe, pendingInit), process, ended)
    }

    constructor ()
      ensures Log() == FRESH
    {
      running, initSent, needsKeyframe, pendingInit := false, false, false, [];
      process, ended := NEW_PROCESS, [];
    }

    /** reset. */
    method Reset()
      modifies this
      ensures Log() == End(old(Log()))
    {
      if running {
        ended := ended + [(process, pendingInit)];
      }
      running := false;
      initSent := false;
      needsKeyframe := true;
      pendingInit := [];
      process := NEW_PROCESS;
    }

    method Mux(payload: seq<Byte>, isKeyframe: bool, o: Oracle) returns (result: MuxResult)
      modifies this
      ensures Muxed(Log(), result) == MuxStep(old(Log()), payload, isKeyframe, o)
    {
      hide BoxEnd, Flatten;
      result := NOTHING;
      if running && o.exited {
        Reset();
        return;
      }
      if needsKeyframe {
        if !isKeyframe {
          return;
        }
        needsKeyframe := false;
      }
      if !running {
        if !isKeyframe || !o.starts {
          return;
        }
        running := true;
        process := NEW_PROCESS;
      }
      if !o.inputOpen {
        Reset();
        return;
      }
      process := process.(fed := process.fed + [Fed(payload, isKeyframe)]);
      result := ReadOutput(o);
    }

    /** Read all available output. */
    method ReadOutput(o: Oracle) returns (result: MuxResult)
      modifies this
      ensures Muxed(Log(), result) == Collect(old(Log()), o)
    {
      hide BoxEnd;
      result := NOTHING;
      if !initSent {
        pendingInit := ReceiveAll(pendingInit, o.chunks);
        ghost var all := pendingInit;
        if pendingInit != [] {
          var moovEnd := FindBoxEnd(pendingInit, MOOV);
          if moovEnd.Some? {
            BoxEndBound(pendingInit, moovEnd.value);
            result := result.(initSegment := Some(pendingInit[..moovEnd.value]));
            initSent := true;
            if moovEnd.value < |pendingInit| {
              result := result.(mediaSegment := Some(pendingInit[moovEnd.value..]));
            }
            pendingInit := [];
          }
        } else {
          NoBoxInNothing();
        }
        process := process.(taken := process.taken + Flatten(o.chunks), out := process.out + Segments(result));
      } else {
        var combined := ReceiveAll([], o.chunks);
        assert combined == Flatten(o.chunks);
        if combined != [] {
          result := result.(mediaSegment := Some(combined));
        }
        process := process.(taken := process.taken + combined, out := process.out + Segments(result));
        if o.outputEnded {
          Reset();
        }
      }
    }
  }

  /** try_recv until the output has nothing more for now. */
  method ReceiveAll(start: seq<Byte>, chunks: seq<seq<Byte>>) returns (all: seq<Byte>)
    ensures all == start + Flatten(chunks)
  {
    all := start;
    assert chunks[..0] == [];
    for i := 0 to |chunks|
      invariant all == start + Flatten(chunks[..i])
    {
      FlattenSnoc(chunks[..i], chunks[i]);
      ConcatAssoc(start, Flatten(chunks[..i]), chunks[i]);
      assert chunks[..i + 1] == chunks[..i] + [chunks[i]];
      all := all + chunks[i];
    }
    assert chunks[..|chunks|] == chunks;
  }

  lemma NoBoxInNothing()
    ensures BoxEnd([], MOOV) == None
  {
  }
}
