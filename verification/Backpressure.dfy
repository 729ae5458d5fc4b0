/** The sender that buffers when its channel is full
(crates/kodama/src/transport/mux/muxer.rs:196-254).

The channel is a bounded queue whose receiver drains it, or goes away, at any
moment. One call of `send` is summed up by two outcomes of that race: how many
buffered frames the channel took, and whether it then took the new frame. */
module Backpressure {
  import opened Bytes
  import opened Frames
  import opened FrameBuffers

  // ---- one send, on values ----

  datatype Sender = Sender(accepted: seq<Frame>, buffer: seq<Frame>, dropped: seq<Frame>)

  /** A popped frame that the channel refuses goes back in at the tail. */
  function Rotate(s: seq<Frame>): (r: seq<Frame>)
    ensures multiset(r) == multiset(s) && |r| == |s|
  {
    if s == [] then []
    else
      assert s == [s[0]] + s[1..];
      s[1..] + [s[0]]
  }

  /** A send during which the channel took `taken` buffered frames and then either
  took the new frame or not. */
  function SendStep(st: Sender, capacity: nat, f: Frame, taken: nat, direct: bool): Sender
    requires taken <= |st.buffer|
  {
    var accepted, buffer := st.accepted + st.buffer[..taken], Rotate(st.buffer[taken..]);
    if direct then Sender(accepted + [f], buffer, st.dropped)
    else
      var p := PushFrame(buffer, capacity, f);
      Sender(accepted, p.kept, st.dropped + p.dropped)
  }

  ghost function Total(st: Sender): multiset<Frame> {
    multiset(st.accepted) + multiset(st.buffer) + multiset(st.dropped)
  }

  lemma SendConserves(st: Sender, capacity: nat, f: Frame, taken: nat, direct: bool)
    requires taken <= |st.buffer|
    ensures Total(SendStep(st, capacity, f, taken, direct)) == Total(st) + multiset{f}
  {
    hide PushFrame, Rotate;
    CutTotal(st.buffer, taken);
    var buffer := Rotate(st.buffer[taken..]);
    PushConserves(buffer, capacity, f);
    var accepted := st.accepted + st.buffer[..taken];
    assert multiset(accepted) == multiset(st.accepted) + multiset(st.buffer[..taken]);
    if direct {
      assert multiset(accepted + [f]) == multiset(accepted) + multiset{f};
    } else {
      var p := PushFrame(buffer, capacity, f);
      assert multiset(st.dropped + p.dropped) == multiset(st.dropped) + multiset(p.dropped);
      assert multiset(p.kept) + multiset(p.dropped) == multiset(st.buffer[taken..]) + multiset{f};
      Exchange(multiset(accepted), multiset(p.kept), multiset(p.dropped), multiset(st.buffer[taken..]),
          multiset(st.dropped), f);
    }
  }

  lemma Exchange(a: multiset<Frame>, kept: multiset<Frame>, drop: multiset<Frame>, rest: multiset<Frame>,
                 dropped: multiset<Frame>, f: Frame)
    requires kept + drop == rest + multiset{f}
    ensures a + kept + (dropped + drop) == a + rest + dropped + multiset{f}
  {
    assert a + kept + (dropped + drop) == a + dropped + (kept + drop);
  }

  lemma CutTotal(s: seq<Frame>, k: nat)
    requires k <= |s|
    ensures multiset(s) == multiset(s[..k]) + multiset(s[k..])
  {
    assert s == s[..k] + s[k..];
  }

  /** One send in a run: the frame, and the two outcomes of the race. */
  datatype Event = Event(frame: Frame, taken: nat, direct: bool)

  function Run(capacity: nat, events: seq<Event>): Sender
    decreases |events|
  {
    if events == [] then Sender([], [], [])
    else
      var st, e := Run(capacity, events[..|events| - 1]), events[|events| - 1];
      SendStep(st, capacity, e.frame, Min(e.taken, |st.buffer|), e.direct)
  }

  function Given(events: seq<Event>): seq<Frame> {
    if events == [] then [] else Given(events[..|events| - 1]) + [events[|events| - 1].frame]
  }

  /** What the buffer never exceeds; with no capacity at all it still holds one
  keyframe. */
  predicate Bounded(buffer: seq<Frame>, capacity: nat) {
    && |buffer| <= Max(capacity, 1)
    && (capacity == 0 ==> forall f | f in buffer :: f.IsKeyframe())
  }

  lemma PushStaysBounded(buffer: seq<Frame>, capacity: nat, f: Frame)
    requires Bounded(buffer, capacity)
    ensures Bounded(PushFrame(buffer, capacity, f).kept, capacity)
  {
  }

  /** Frame conservation under backpressure, over every run: each frame given to
  `send` is in the channel, in the buffer or among the dropped, as often as it was
  given. */
  lemma {:induction false} FrameConservation(capacity: nat, events: seq<Event>)
    ensures Total(Run(capacity, events)) == multiset(Given(events))
    ensures Bounded(Run(capacity, events).buffer, capacity)
    decreases |events|
  {
    hide PushFrame, SendStep, Total, Bounded;
    if events == [] {
      RunBase(capacity);
    } else {
      var init, e := events[..|events| - 1], events[|events| - 1];
      var st := Run(capacity, init);
      FrameConservation(capacity, init);
      SendConserves(st, capacity, e.frame, Min(e.taken, |st.buffer|), e.direct);
      SendStaysBounded(st, capacity, e.frame, Min(e.taken, |st.buffer|), e.direct);
    }
  }

  lemma RunBase(capacity: nat)
    ensures Total(Sender([], [], [])) == multiset([]) && Bounded([], capacity)
  {
  }

  lemma SendStaysBounded(st: Sender, capacity: nat, f: Frame, taken: nat, direct: bool)
    requires taken <= |st.buffer| && Bounded(st.buffer, capacity)
    ensures Bounded(SendStep(st, capacity, f, taken, direct).buffer, capacity)
  {
    hide PushFrame;
    var buffer := Rotate(st.buffer[taken..]);
    assert forall x | x in buffer :: x in st.buffer;
    PushStaysBounded(buffer, capacity, f);
  }

  /** Put-back never drops: the frame that was just popped always fits again. */
  lemma PutBackNeverDrops(buffer: seq<Frame>, capacity: nat)
    requires buffer != [] && Bounded(buffer, capacity)
    ensures PushFrame(buffer[1..], capacity, buffer[0]) == Push(Rotate(buffer), [], true)
  {
    assert buffer[0] in buffer;
  }

  /** A refused frame keeps the order of the buffer exactly when all buffered
  frames are the same. */
  lemma RotateKeepsOrder(s: seq<Frame>)
    ensures Rotate(s) == s <==> AllSame(s)
  {
    if s != [] && Rotate(s) == s {
      for i := 1 to |s|
        invariant forall j | 0 <= j < i :: s[j] == s[0]
      {
        assert s[i] == Rotate(s)[i - 1];
      }
    }
  }

  predicate AllSame(s: seq<Frame>) {
    forall i | 0 <= i < |s| :: s[i] == s[0]
  }

  // ---- when the order is kept ----

  /** The frames in the order in which they leave: those the channel has, then the buffer. */
  function InLine(st: Sender): seq<Frame> {
    st.accepted + st.buffer
  }

  /** The buffer takes the frame without dropping one. */
  predicate Room(rest: seq<Frame>, capacity: nat, f: Frame) {
    |rest| < capacity || (rest == [] && f.IsKeyframe())
  }

  /** A send that keeps the order, with `rest` still buffered after the flush: a frame that
  goes out directly passes no other frame, and a put-back changes nothing. */
  predicate Orderly(rest: seq<Frame>, capacity: nat, f: Frame, direct: bool) {
    if direct then rest == [] || rest[0] == f else Room(rest, capacity, f) && AllSame(rest)
  }

  lemma RoomExactly(rest: seq<Frame>, capacity: nat, f: Frame)
    ensures Room(rest, capacity, f) ==> PushFrame(rest, capacity, f) == Push(rest + [f], [], true)
    ensures !Room(rest, capacity, f) ==> |PushFrame(rest, capacity, f).kept| <= |rest|
  {
    assert [] + [f] == [f];
  }

  lemma DirectKeepsOrder(rest: seq<Frame>, f: Frame)
    ensures [f] + Rotate(rest) == rest + [f] <==> rest == [] || rest[0] == f
  {
    if rest != [] {
      assert ([f] + Rotate(rest))[0] == f && (rest + [f])[0] == rest[0];
      assert rest == [rest[0]] + rest[1..];
    }
  }

  lemma BufferedKeepsOrder(rest: seq<Frame>, capacity: nat, f: Frame)
    ensures PushFrame(Rotate(rest), capacity, f).kept == rest + [f] <==> Room(rest, capacity, f) && AllSame(rest)
  {
    hide PushFrame, AllSame;
    RoomExactly(Rotate(rest), capacity, f);
    RotateKeepsOrder(rest);
    assert Room(Rotate(rest), capacity, f) == Room(rest, capacity, f);
    SnocInjective(Rotate(rest), rest, f);
  }

  lemma SnocInjective(a: seq<Frame>, b: seq<Frame>, f: Frame)
    requires |a| == |b|
    ensures a + [f] == b + [f] <==> a == b
  {
    assert (a + [f])[..|a|] == a && (b + [f])[..|b|] == b;
  }

  lemma FrontInjective(front: seq<Frame>, a: seq<Frame>, b: seq<Frame>)
    ensures front + a == front + b <==> a == b
  {
    assert (front + a)[|front|..] == a && (front + b)[|front|..] == b;
  }

  /** Exactly when one send keeps the order and loses nothing, for every state of the sender
  and every outcome of the race. Two things can break it: the put-back, and a frame that the
  channel takes after it refused an older one. */
  lemma SendKeepsOrderExactly(st: Sender, capacity: nat, f: Frame, taken: nat, direct: bool)
    requires taken <= |st.buffer|
    ensures InLine(SendStep(st, capacity, f, taken, direct)) == InLine(st) + [f]
            <==> Orderly(st.buffer[taken..], capacity, f, direct)
  {
    hide PushFrame, Rotate, AllSame, Room;
    var rest, front := st.buffer[taken..], st.accepted + st.buffer[..taken];
    assert InLine(st) + [f] == front + (rest + [f]);
    if direct {
      assert InLine(SendStep(st, capacity, f, taken, direct)) == front + ([f] + Rotate(rest));
      FrontInjective(front, [f] + Rotate(rest), rest + [f]);
      DirectKeepsOrder(rest, f);
    } else {
      FrontInjective(front, PushFrame(Rotate(rest), capacity, f).kept, rest + [f]);
      BufferedKeepsOrder(rest, capacity, f);
    }
  }

  predicate InOrderAt(capacity: nat, events: seq<Event>, k: nat)
    requires k <= |events|
  {
    InLine(Run(capacity, events[..k])) == Given(events[..k])
  }

  predicate OrderlyAt(capacity: nat, events: seq<Event>, k: nat)
    requires k < |events|
  {
    var st, e := Run(capacity, events[..k]), events[k];
    Orderly(st.buffer[Min(e.taken, |st.buffer|)..], capacity, e.frame, e.direct)
  }

  /** One send of a run. */
  lemma InOrderStep(capacity: nat, events: seq<Event>, k: nat)
    requires k < |events| && InOrderAt(capacity, events, k)
    ensures InOrderAt(capacity, events, k + 1) <==> OrderlyAt(capacity, events, k)
  {
    hide SendStep, Orderly, InLine;
    var st, e := Run(capacity, events[..k]), events[k];
    assert events[..k + 1] == events[..k] + [e];
    RunSnoc(capacity, events[..k], e);
    GivenSnoc(events[..k], e);
    SendKeepsOrderExactly(st, capacity, e.frame, Min(e.taken, |st.buffer|), e.direct);
  }

  lemma GivenSnoc(events: seq<Event>, e: Event)
    ensures Given(events + [e]) == Given(events) + [e.frame]
  {
    var t := events + [e];
    assert t[..|t| - 1] == events && t[|t| - 1] == e;
  }

  /** Over whole runs: the frames given to the sender stand in line in the order given, none
  missing, at every moment, if and only if every single send is orderly. */
  lemma RunKeepsOrderExactly(capacity: nat, events: seq<Event>)
    ensures (forall k: nat | k <= |events| :: InOrderAt(capacity, events, k))
            <==> (forall k: nat | k < |events| :: OrderlyAt(capacity, events, k))
  {
    hide InOrderAt, OrderlyAt;
    if forall k: nat | k <= |events| :: InOrderAt(capacity, events, k) {
      forall k: nat | k < |events|
        ensures OrderlyAt(capacity, events, k)
      {
        InOrderStep(capacity, events, k);
      }
    }
    if forall k: nat | k < |events| :: OrderlyAt(capacity, events, k) {
      InOrderAtStart(capacity, events);
      for n := 0 to |events|
        invariant forall k: nat | k <= n :: InOrderAt(capacity, events, k)
      {
        InOrderStep(capacity, events, n);
      }
    }
  }

  lemma InOrderAtStart(capacity: nat, events: seq<Event>)
    ensures InOrderAt(capacity, events, 0)
  {
    assert events[..0] == [];
  }

  /** While it is in order the channel gets a prefix of the frames given. */
  lemma InOrderChannelIsPrefix(capacity: nat, events: seq<Event>, k: nat)
    requires k <= |events| && InOrderAt(capacity, events, k)
    ensures Run(capacity, events[..k]).accepted <= Given(events[..k])
  {
    hide Run, Given;
  }

  // ---- what a bounded channel can do ----

  /** The queue after `n` frames went in, with the receiver draining at will. */
  predicate Took(bound: nat, q: nat, n: nat, q': nat) {
    if n == 0 then q' == q else 1 <= q' <= Min(q + n, bound)
  }

  /** How the length of the channel's queue can go over one send: a refusal finds it full. */
  ghost predicate QueueStep(bound: nat, q: nat, buffered: nat, taken: nat, direct: bool, q': nat) {
    exists q1: nat :: QueueStepVia(bound, q, buffered, taken, direct, q', q1)
  }

  predicate QueueStepVia(bound: nat, q: nat, buffered: nat, taken: nat, direct: bool, q': nat, q1: nat) {
    && Took(bound, q, taken, q1)
    && (taken < buffered ==> q1 == bound)
    && (if direct then 1 <= q' <= Min(q1 + 1, bound) else q1 == bound == q')
  }

  /** A channel of this bound, empty at first, can give the outcomes of the run, with these
  queue lengths in between. */
  ghost predicate Realizable(bound: nat, capacity: nat, events: seq<Event>, lengths: seq<nat>) {
    && |lengths| == |events| + 1 && lengths[0] == 0
    && forall k: nat | k < |events| :: PossibleAt(bound, capacity, events, lengths, k)
  }

  ghost predicate PossibleAt(bound: nat, capacity: nat, events: seq<Event>, lengths: seq<nat>, k: nat)
    requires k < |events| && |lengths| == |events| + 1
  {
    var st, e := Run(capacity, events[..k]), events[k];
    QueueStep(bound, lengths[k], |st.buffer|, Min(e.taken, |st.buffer|), e.direct, lengths[k + 1])
  }

  /** So the sender is no FIFO: a run over a channel of bound one in which nothing is dropped
  and the third frame overtakes the second, which is alone in the buffer. */
  lemma NotFifo(x: Frame, a: Frame, b: Frame, c: Frame, capacity: nat)
    requires capacity >= 1
    ensures var events := [Event(x, 0, true), Event(a, 0, false), Event(b, 0, true), Event(c, 1, true)];
            && Realizable(1, capacity, events, [0, 1, 1, 1, 1])
            && Given(events) == [x, a, b, c]
            && Run(capacity, events) == Sender([x, b, a, c], [], [])
  {
    hide Run, SendStep, Given, QueueStep;
    var e1, e2, e3, e4 := Event(x, 0, true), Event(a, 0, false), Event(b, 0, true), Event(c, 1, true);
    var events, lengths := [e1, e2, e3, e4], [0, 1, 1, 1, 1];
    FirstSend(x, capacity);
    FullSend(x, a, capacity);
    Overtake(x, a, b, capacity);
    DrainOne(x, a, b, c, capacity);
    RunNone(capacity);
    RunSnoc(capacity, [], e1);
    RunSnoc(capacity, [e1], e2);
    RunSnoc(capacity, [e1, e2], e3);
    RunSnoc(capacity, [e1, e2, e3], e4);
    GivenSnoc([], e1);
    GivenSnoc([e1], e2);
    GivenSnoc([e1, e2], e3);
    GivenSnoc([e1, e2, e3], e4);
    Appended([], e1);
    Appended([e1], e2);
    assert [e1, e2] + [e3] == [e1, e2, e3] && [e1, e2, e3] + [e4] == events;
    assert events[..0] == [] && events[..1] == [e1] && events[..2] == [e1, e2] && events[..3] == [e1, e2, e3];
    OverlapPossible();
    forall k: nat | k < |events|
      ensures PossibleAt(1, capacity, events, lengths, k)
    {
      assert k == 0 || k == 1 || k == 2 || k == 3;
    }
    NothingGiven();
  }

  lemma Appended(events: seq<Event>, e: Event)
    ensures events == [] ==> events + [e] == [e]
    ensures |events| == 1 ==> events + [e] == [events[0], e]
  {
  }

  lemma NothingGiven()
    ensures Given([]) == []
  {
  }

  lemma OverlapPossible()
    ensures QueueStep(1, 0, 0, 0, true, 1) && QueueStep(1, 1, 0, 0, false, 1)
    ensures QueueStep(1, 1, 1, 0, true, 1) && QueueStep(1, 1, 1, 1, true, 1)
  {
    assert QueueStepVia(1, 0, 0, 0, true, 1, 0) && QueueStepVia(1, 1, 0, 0, false, 1, 1);
    assert QueueStepVia(1, 1, 1, 0, true, 1, 1) && QueueStepVia(1, 1, 1, 1, true, 1, 1);
  }

  lemma FirstSend(x: Frame, capacity: nat)
    ensures SendStep(Sender([], [], []), capacity, x, 0, true) == Sender([x], [], [])
  {
    DirectSend([], [], x, capacity, 0);
    assert [] + [x] == [x];
  }

  lemma FullSend(x: Frame, a: Frame, capacity: nat)
    requires capacity >= 1
    ensures SendStep(Sender([x], [], []), capacity, a, 0, false) == Sender([x], [a], [])
  {
    assert [] + [a] == [a];
  }

  lemma Overtake(x: Frame, a: Frame, b: Frame, capacity: nat)
    ensures SendStep(Sender([x], [a], []), capacity, b, 0, true) == Sender([x, b], [a], [])
  {
    hide SendStep;
    DirectSend([x], [a], b, capacity, 0);
    assert Rotate([a]) == [a] && [a][0..] == [a];
    assert [x] + [a][..0] + [b] == [x, b];
  }

  lemma DrainOne(x: Frame, a: Frame, b: Frame, c: Frame, capacity: nat)
    ensures SendStep(Sender([x, b], [a], []), capacity, c, 1, true) == Sender([x, b, a, c], [], [])
  {
    hide SendStep;
    DirectSend([x, b], [a], c, capacity, 1);
    assert [a][..1] == [a] && [a][1..] == [];
    assert [x, b] + [a] + [c] == [x, b, a, c];
  }

  lemma DirectSend(sent: seq<Frame>, s: seq<Frame>, f: Frame, capacity: nat, taken: nat)
    requires taken <= |s|
    ensures SendStep(Sender(sent, s, []), capacity, f, taken, true) ==
            Sender(sent + s[..taken] + [f], Rotate(s[taken..]), [])
  {
  }

  lemma RunNone(capacity: nat)
    ensures Run(capacity, []) == Sender([], [], [])
  {
  }

  lemma RunSnoc(capacity: nat, events: seq<Event>, e: Event)
    ensures var st := Run(capacity, events);
            Run(capacity, events + [e]) == SendStep(st, capacity, e.frame, Min(e.taken, |st.buffer|), e.direct)
  {
    hide SendStep;
    var t := events + [e];
    assert t[..|t| - 1] == events && t[|t| - 1] == e;
  }

  lemma BoundedTail(s: seq<Frame>, capacity: nat)
    requires Bounded(s, capacity)
    ensures s != [] ==> Bounded(s[1..], capacity) && [s[0]] + s[1..] == s
  {
  }

  lemma TakeOne(before: seq<Frame>, all: seq<Frame>, taken: nat, f: Frame, rest: seq<Frame>)
    requires taken < |all| && [f] + rest == all[taken..]
    ensures before + all[..taken] + [f] == before + all[..taken + 1] && rest == all[taken + 1..]
  {
    assert f == ([f] + rest)[0] && rest == ([f] + rest)[1..];
  }

  lemma PutBackFits(all: seq<Frame>, taken: nat, rest: seq<Frame>, f: Frame, capacity: nat)
    requires Bounded(all, capacity)
    requires taken < |all| && [f] + rest == all[taken..]
    ensures PushFrame(rest, capacity, f) == Push(Rotate(all[taken..]), [], true)
    ensures Bounded(Rotate(all[taken..]), capacity)
  {
    var s := all[taken..];
    assert f == ([f] + rest)[0] && rest == ([f] + rest)[1..];
    assert forall x | x in s :: x in all;
    PutBackNeverDrops(s, capacity);
    assert forall x | x in Rotate(s) :: x in s;
  }

  // ---- the sender in place ----

  datatype Outcome = Sent | Full | Closed

  /** A bounded channel with its receiver. */
  class FrameChannel {
    const bound: nat
    var queue: seq<Frame>
    var closed: bool
    ghost var received: seq<Frame>

    /** A bound of zero is refused by the channel library. */
    constructor (bound: nat)
      requires bound > 0
      ensures this.bound == bound && queue == [] && !closed && received == []
    {
      this.bound := bound;
      queue, closed, received := [], false, [];
    }

    /** Everything the channel ever took, in order. */
    ghost function Accepted(): seq<Frame>
      reads this
    {
      received + queue
    }

    /** try_send, after the receiver consumed whatever it had time for. */
    method TrySend(f: Frame) returns (r: Outcome)
      requires |queue| <= bound
      modifies this
      ensures |queue| <= bound
      ensures Accepted() == if r == Sent then old(Accepted()) + [f] else old(Accepted())
      ensures r == Closed <==> closed
      ensures old(closed) ==> closed
      ensures r == Sent ==> 1 <= |queue| <= old(|queue|) + 1
      ensures r == Full ==> |queue| == bound == old(|queue|)
    {
      ReceiverRuns();
      if closed {
        return Closed;
      }
      if |queue| == bound {
        return Full;
      }
      ghost var before := Accepted();
      queue := queue + [f];
      assert Accepted() == before + [f];
      return Sent;
    }

    method ReceiverRuns()
      requires |queue| <= bound
      modifies this
      ensures |queue| <= old(|queue|) && Accepted() == old(Accepted()) && (old(closed) ==> closed)
    {
      var k :| 0 <= k <= |queue|;
      received := received + queue[..k];
      assert queue == queue[..k] + queue[k..];
      queue := queue[k..];
      var gone: bool := *;
      closed := closed || gone;
    }
  }

  datatype SendResult = Kept | Dropped | ChannelClosed(frame: Frame)

  class BackpressureSender {
    const tx: FrameChannel
    const buffer: FrameBuffer

    ghost predicate Valid()
      reads this, tx, buffer
    {
      buffer.Valid() && |tx.queue| <= tx.bound && tx.bound > 0 && Bounded(buffer.buffer, buffer.capacity)
    }

    ghost function State(): Sender
      reads this, tx, buffer
    {
      Sender(tx.Accepted(), buffer.buffer, buffer.dropped)
    }

    constructor (tx: FrameChannel, bufferSize: nat)
      requires |tx.queue| <= tx.bound && tx.bound > 0
      ensures Valid() && fresh(buffer) && this.tx == tx && buffer.capacity == bufferSize
      ensures State() == Sender(tx.Accepted(), [], [])
    {
      this.tx := tx;
      this.buffer := new FrameBuffer(bufferSize);
    }

    /** flush_buffer: `taken` frames go out; the next one, if any, is put back. */
    method FlushBuffer() returns (error: Option<Frame>, ghost taken: nat)
      requires Valid()
      modifies tx, buffer
      ensures Valid() && taken <= |old(buffer.buffer)|
      ensures tx.Accepted() == old(tx.Accepted()) + old(buffer.buffer)[..taken]
      ensures buffer.dropped == old(buffer.dropped)
      ensures error == None ==> buffer.buffer == Rotate(old(buffer.buffer)[taken..])
      ensures error.Some? ==> tx.closed && taken < |old(buffer.buffer)|
      ensures error.Some? ==> [error.value] + buffer.buffer == old(buffer.buffer)[taken..]
      ensures buffer.stats.framesReceived ==
              old(buffer.stats.framesReceived) + One(error == None && taken < |old(buffer.buffer)|)
      ensures Took(tx.bound, old(|tx.queue|), taken, |tx.queue|) || error.Some?
      ensures error == None && taken < |old(buffer.buffer)| ==> |tx.queue| == tx.bound
    {
      hide PushFrame, Rotate, Bounded, LastKeyframe, Count;
      taken := 0;
      ghost var all := buffer.buffer;
      BoundedTail(all, buffer.capacity);
      var popped := buffer.Pop();
      while popped.Some?
        invariant buffer.Valid() && |tx.queue| <= tx.bound
        invariant Bounded(all, buffer.capacity) && Bounded(buffer.buffer, buffer.capacity)
        invariant taken <= |all| && tx.Accepted() == old(tx.Accepted()) + all[..taken]
        invariant Took(tx.bound, old(|tx.queue|), taken, |tx.queue|)
        invariant buffer.dropped == old(buffer.dropped) && buffer.stats == old(buffer.stats)
        invariant popped.Some? ==> taken < |all| && [popped.value] + buffer.buffer == all[taken..]
        invariant popped == None ==> taken == |all| && buffer.buffer == []
        decreases |all| - taken
      {
        var r := tx.TrySend(popped.value);
        match r {
          case Sent =>
            TakeOne(old(tx.Accepted()), all, taken, popped.value, buffer.buffer);
            taken := taken + 1;
            BoundedTail(buffer.buffer, buffer.capacity);
            popped := buffer.Pop();
          case Full =>
            PutBackFits(all, taken, buffer.buffer, popped.value, buffer.capacity);
            var _ := buffer.PushBack(popped.value);
            return None, taken;
          case Closed =>
            return Some(popped.value), taken;
        }
      }
      assert all[taken..] == [] && Rotate([]) == [];
      return None, taken;
    }

    /** send. While the channel is open this is one `SendStep`; when it is found
    closed, the frame in hand is returned, and a frame still waiting behind a
    buffered one is lost with it. */
    method Send(frame: Frame) returns (r: SendResult, ghost taken: nat, ghost direct: bool)
      requires Valid()
      modifies tx, buffer
      ensures Valid() && taken <= |old(buffer.buffer)|
      ensures !r.ChannelClosed? ==> State() == SendStep(old(State()), buffer.capacity, frame, taken, direct)
      ensures !r.ChannelClosed? ==>
                QueueStep(tx.bound, old(|tx.queue|), |old(buffer.buffer)|, taken, direct, |tx.queue|)
      ensures r == Dropped
              ==> !direct && !PushFrame(Rotate(old(buffer.buffer)[taken..]), buffer.capacity, frame).accepted
      ensures r == Kept ==> direct || PushFrame(Rotate(old(buffer.buffer)[taken..]), buffer.capacity, frame).accepted
      ensures r.ChannelClosed? ==> tx.closed
      ensures r.ChannelClosed? ==> if direct then Total(State()) + multiset{r.frame} == Total(old(State()))
                                   else Total(State()) == Total(old(State())) && r.frame == frame
    {
      hide PushFrame, Rotate, Bounded, Total;
      var error;
      error, taken := FlushBuffer();
      direct := true;
      if error.Some? {
        LostInFlush(old(State()), taken, error.value, State());
        return ChannelClosed(error.value), taken, true;
      }
      ghost var accepted, between := tx.Accepted(), |tx.queue|;
      ghost var buffered := |old(buffer.buffer)|;
      var sent := tx.TrySend(frame);
      match sent {
        case Sent =>
          assert tx.Accepted() == accepted + [frame];
          assert QueueStepVia(tx.bound, old(|tx.queue|), buffered, taken, true, |tx.queue|, between);
          r := Kept;
        case Full =>
          direct := false;
          PushStaysBounded(buffer.buffer, buffer.capacity, frame);
          var kept := buffer.PushBack(frame);
          assert QueueStepVia(tx.bound, old(|tx.queue|), buffered, taken, false, |tx.queue|, between);
          r := if kept then Kept else Dropped;
        case Closed =>
          direct := false;
          NothingLost(old(State()), taken, State());
          r := ChannelClosed(frame);
      }
    }

    static lemma LostInFlush(st: Sender, taken: nat, f: Frame, st': Sender)
      requires taken < |st.buffer| && [f] + st'.buffer == st.buffer[taken..]
      requires st'.accepted == st.accepted + st.buffer[..taken] && st'.dropped == st.dropped
      ensures Total(st') + multiset{f} == Total(st)
    {
      CutTotal(st.buffer, taken);
      assert multiset(st.buffer[taken..]) == multiset{f} + multiset(st'.buffer);
    }

    static lemma NothingLost(st: Sender, taken: nat, st': Sender)
      requires taken <= |st.buffer| && st'.buffer == Rotate(st.buffer[taken..])
      requires st'.accepted == st.accepted + st.buffer[..taken] && st'.dropped == st.dropped
      ensures Total(st') == Total(st)
    {
      hide Rotate;
      CutTotal(st.buffer, taken);
    }
  }
}
