/** The drop-policy frame buffer (crates/kodama/src/transport/mux/muxer.rs:16-189).

`PushFrame` is the meaning of one push on the buffered frames. `Kept` is the closed
form of any run of pushes: how many frames of each kind survive depends on the two
counts alone, and always the latest survive, in arrival order. */
module FrameBuffers {
  import opened Bytes
  import opened Frames
  import opened Seqs

  // ---- counting and removing by kind ----

  function Count(s: seq<Frame>, key: bool): nat {
    if s == [] then 0
    else Count(s[..|s| - 1], key) + if s[|s| - 1].IsKeyframe() == key then 1 else 0
  }

  /** The subsequence of one kind. */
  function OfKind(s: seq<Frame>, key: bool): seq<Frame> {
    if s == [] then []
    else if s[|s| - 1].IsKeyframe() == key then OfKind(s[..|s| - 1], key) + [s[|s| - 1]]
    else OfKind(s[..|s| - 1], key)
  }

  /** find_droppable_non_keyframe, for either kind: the oldest one. */
  function FirstOfKind(s: seq<Frame>, key: bool): (r: Option<nat>)
    ensures r.Some? ==> r.value < |s| && s[r.value].IsKeyframe() == key
    ensures forall i | 0 <= i < |s| && (r.Some? ==> i < r.value) :: s[i].IsKeyframe() != key
  {
    if s == [] then None
    else
      match FirstOfKind(s[..|s| - 1], key)
      case Some(i) => Some(i)
      case None => if s[|s| - 1].IsKeyframe() == key then Some(|s| - 1) else None
  }

  function RemoveFirst(s: seq<Frame>, key: bool): seq<Frame> {
    match FirstOfKind(s, key)
    case None => s
    case Some(i) => RemoveAt(s, i)
  }

  function LastKeyframe(s: seq<Frame>): (r: Option<nat>)
    ensures r.Some? ==> r.value < |s| && s[r.value].IsKeyframe()
    ensures forall i | 0 <= i < |s| && (r.Some? ==> r.value < i) :: !s[i].IsKeyframe()
  {
    if s == [] then None
    else if s[|s| - 1].IsKeyframe() then Some(|s| - 1)
    else LastKeyframe(s[..|s| - 1])
  }

  lemma LastKeyframeIs(s: seq<Frame>, r: Option<nat>)
    requires r.Some? ==> r.value < |s| && s[r.value].IsKeyframe()
    requires forall i | 0 <= i < |s| && (r.Some? ==> r.value < i) :: !s[i].IsKeyframe()
    ensures LastKeyframe(s) == r
  {
    var q := LastKeyframe(s);
    assert q.Some? && r.Some? ==> !(q.value < r.value) && !(r.value < q.value);
  }

  // ---- one push ----

  datatype Push = Push(kept: seq<Frame>, dropped: seq<Frame>, accepted: bool)

  /** What a push keeps, and what it drops: nothing while there is room; else the
  oldest non-keyframe; else, when only keyframes are buffered, the oldest keyframe
  for a keyframe and the arriving frame itself otherwise. */
  function PushFrame(s: seq<Frame>, capacity: nat, f: Frame): Push {
    if |s| < capacity then Push(s + [f], [], true)
    else match FirstOfKind(s, false)
      case Some(i) => Push(RemoveAt(s, i) + [f], [s[i]], true)
      case None =>
        if !f.IsKeyframe() then Push(s, [f], false)
        else if s == [] then Push([f], [], true)
        else Push(s[1..] + [f], [s[0]], true)
  }

  lemma TakenOut(s: seq<Frame>, i: nat)
    requires i < |s|
    ensures multiset(RemoveAt(s, i)) + multiset{s[i]} == multiset(s)
    ensures i == 0 ==> RemoveAt(s, i) == s[1..]
  {
    assert s == s[..i] + [s[i]] + s[i + 1..];
  }

  /** A push loses no frame and duplicates none; a keyframe is dropped only by a
  keyframe arriving at a buffer of nothing but keyframes. */
  lemma PushConserves(s: seq<Frame>, capacity: nat, f: Frame)
    ensures var p := PushFrame(s, capacity, f);
            && multiset(p.kept) + multiset(p.dropped) == multiset(s) + multiset{f}
            && |p.dropped| <= 1
            && (forall d | d in p.dropped && d.IsKeyframe() ::
                  f.IsKeyframe() && |s| >= capacity && forall x | x in s :: x.IsKeyframe())
  {
    match FirstOfKind(s, false) {
      case Some(i) => TakenOut(s, i);
      case None =>
        if s != [] {
          TakenOut(s, 0);
        }
    }
  }

  /** A frame is refused if and only if the buffer is full of keyframes and it is none; then
  nothing changes. An accepted one is the newest afterwards, and another goes for it exactly when
  there was no room. */
  lemma PushAcceptsExactly(s: seq<Frame>, capacity: nat, f: Frame)
    ensures var p := PushFrame(s, capacity, f);
            && (p.accepted <==> |s| < capacity || f.IsKeyframe() || exists x :: x in s && !x.IsKeyframe())
            && (!p.accepted ==> p.kept == s && p.dropped == [f])
            && (p.accepted ==> p.kept != [] && p.kept[|p.kept| - 1] == f)
            && (p.accepted ==> (p.dropped == [] <==> |s| < capacity || s == []))
            && (p.accepted ==> forall d | d in p.dropped :: d in s)
  {
    if FirstOfKind(s, false).Some? {
      assert s[FirstOfKind(s, false).value] in s;
    }
  }

  // ---- any run of pushes ----

  function PushAll(capacity: nat, arrivals: seq<Frame>): seq<Frame> {
    if arrivals == [] then []
    else PushFrame(PushAll(capacity, arrivals[..|arrivals| - 1]), capacity, arrivals[|arrivals| - 1]).kept
  }

  /** The arrival-ordered subsequence of the last `keys` keyframes and the last
  `others` non-keyframes. */
  function LastOf(s: seq<Frame>, keys: nat, others: nat): seq<Frame>
    decreases |s|
  {
    if s == [] then []
    else
      var init, f := s[..|s| - 1], s[|s| - 1];
      if f.IsKeyframe() then
        if keys == 0 then LastOf(init, 0, others) else LastOf(init, keys - 1, others) + [f]
      else
        if others == 0 then LastOf(init, keys, 0) else LastOf(init, keys, others - 1) + [f]
  }

  function LastN(s: seq<Frame>, n: nat): seq<Frame> {
    s[|s| - Min(n, |s|)..]
  }

  /** The closed form. A buffer of capacity zero still holds one keyframe. */
  function Kept(capacity: nat, arrivals: seq<Frame>): seq<Frame> {
    LastOf(arrivals, Max(capacity, 1), Max(capacity, Count(arrivals, true)) - Count(arrivals, true))
  }

  // ---- unfolding at the newest frame ----

  function AppendIf(s: seq<Frame>, f: Frame, c: bool): seq<Frame> { if c then s + [f] else s }

  function One(c: bool): nat { if c then 1 else 0 }

  lemma Snoc(s: seq<Frame>, f: Frame, key: bool)
    ensures Count(s + [f], key) == Count(s, key) + One(f.IsKeyframe() == key)
    ensures OfKind(s + [f], key) == AppendIf(OfKind(s, key), f, f.IsKeyframe() == key)
  {
    var t := s + [f];
    assert t[..|t| - 1] == s && t[|t| - 1] == f;
  }

  /** The quotas that are left once the newest frame has had its turn. */
  function Rest(keys: nat, others: nat, f: Frame): (nat, nat) {
    if f.IsKeyframe() then (keys - One(keys > 0), others) else (keys, others - One(others > 0))
  }

  predicate Survives(keys: nat, others: nat, f: Frame) {
    if f.IsKeyframe() then keys > 0 else others > 0
  }

  lemma LastOfUnfold(s: seq<Frame>, keys: nat, others: nat)
    requires s != []
    ensures var init, f := s[..|s| - 1], s[|s| - 1];
            LastOf(s, keys, others) ==
            AppendIf(LastOf(init, Rest(keys, others, f).0, Rest(keys, others, f).1), f, Survives(keys, others, f))
  {
  }

  lemma LastOfSnoc(s: seq<Frame>, f: Frame, keys: nat, others: nat)
    ensures LastOf(s + [f], keys, others) ==
            AppendIf(LastOf(s, Rest(keys, others, f).0, Rest(keys, others, f).1), f, Survives(keys, others, f))
  {
    hide LastOf;
    var t := s + [f];
    assert t[..|t| - 1] == s && t[|t| - 1] == f;
    LastOfUnfold(t, keys, others);
  }

  lemma LastNSnoc(s: seq<Frame>, f: Frame, n: nat)
    ensures LastN(s + [f], n + 1) == LastN(s, n) + [f]
    ensures LastN(s, 0) == []
  {
  }

  lemma NoFrames(keys: nat, others: nat)
    ensures LastOf([], keys, others) == [] && Count([], true) == Count([], false) == 0
  {
  }

  lemma Unsnoc(s: seq<Frame>) returns (init: seq<Frame>, f: Frame)
    requires s != []
    ensures s == init + [f] && |init| == |s| - 1
  {
    init, f := s[..|s| - 1], s[|s| - 1];
  }

  /** Read kind by kind, `LastOf` is a suffix of the arrivals of that kind. */
  lemma {:induction false} LastOfByKind(s: seq<Frame>, keys: nat, others: nat)
    ensures OfKind(LastOf(s, keys, others), true) == LastN(OfKind(s, true), keys)
    ensures OfKind(LastOf(s, keys, others), false) == LastN(OfKind(s, false), others)
    decreases |s|
  {
    if s != [] {
      var init, f := Unsnoc(s);
      var (keys', others') := Rest(keys, others, f);
      var t := LastOf(init, keys', others');
      LastOfSnoc(init, f, keys, others);
      LastOfByKind(init, keys', others');
      LastOfByKindStep(init, t, f, keys, others, true);
      LastOfByKindStep(init, t, f, keys, others, false);
    }
  }

  lemma LastOfByKindStep(init: seq<Frame>, t: seq<Frame>, f: Frame, keys: nat, others: nat, key: bool)
    requires var quota := if key then Rest(keys, others, f).0 else Rest(keys, others, f).1;
             OfKind(t, key) == LastN(OfKind(init, key), quota)
    ensures OfKind(AppendIf(t, f, Survives(keys, others, f)), key) ==
            LastN(OfKind(init + [f], key), if key then keys else others)
  {
    hide OfKind, LastN;
    var quota := if key then Rest(keys, others, f).0 else Rest(keys, others, f).1;
    Snoc(init, f, key);
    Snoc(t, f, key);
    LastNSnoc(OfKind(init, key), f, quota);
    LastNSnoc(OfKind(init + [f], key), f, 0);
  }

  lemma {:induction false} LastOfCounts(s: seq<Frame>, keys: nat, others: nat)
    ensures Count(LastOf(s, keys, others), true) == Min(keys, Count(s, true))
    ensures Count(LastOf(s, keys, others), false) == Min(others, Count(s, false))
    decreases |s|
  {
    hide Count, LastOf, OfKind;
    if s == [] {
      NoFrames(keys, others);
    } else {
      var init, f := Unsnoc(s);
      var (keys', others') := Rest(keys, others, f);
      var t := LastOf(init, keys', others');
      LastOfSnoc(init, f, keys, others);
      LastOfCounts(init, keys', others');
      Snoc(init, f, true);
      Snoc(init, f, false);
      Snoc(t, f, true);
      Snoc(t, f, false);
    }
  }

  lemma {:induction false} CountsSum(s: seq<Frame>)
    ensures Count(s, true) + Count(s, false) == |s|
  {
    if s != [] {
      CountsSum(s[..|s| - 1]);
    }
  }

  /** Quotas that already cover every frame of a kind can change freely. */
  lemma {:induction false} QuotaSlack(s: seq<Frame>, keys: nat, keys': nat, others: nat, others': nat)
    requires keys == keys' || (keys >= Count(s, true) && keys' >= Count(s, true))
    requires others == others' || (others >= Count(s, false) && others' >= Count(s, false))
    ensures LastOf(s, keys, others) == LastOf(s, keys', others')
    decreases |s|
  {
    hide Count, LastOf, OfKind;
    if s == [] {
      NoFrames(keys, others);
      NoFrames(keys', others');
    } else {
      var init, f := Unsnoc(s);
      LastOfSnoc(init, f, keys, others);
      LastOfSnoc(init, f, keys', others');
      Snoc(init, f, true);
      Snoc(init, f, false);
      QuotaSlack(init, Rest(keys, others, f).0, Rest(keys', others', f).0,
                 Rest(keys, others, f).1, Rest(keys', others', f).1);
    }
  }

  lemma FirstOfKindSnoc(s: seq<Frame>, f: Frame, key: bool)
    ensures FirstOfKind(s + [f], key) ==
            if FirstOfKind(s, key).Some? then FirstOfKind(s, key)
            else if f.IsKeyframe() == key then Some(|s|)
            else None
  {
    var t := s + [f];
    assert t[..|t| - 1] == s && t[|t| - 1] == f;
  }

  lemma RemoveFirstSnoc(s: seq<Frame>, f: Frame, key: bool)
    ensures RemoveFirst(s + [f], key) ==
            if FirstOfKind(s, key).Some? then RemoveFirst(s, key) + [f]
            else if f.IsKeyframe() == key then s
            else s + [f]
  {
    hide FirstOfKind, RemoveAt;
    FirstOfKindSnoc(s, f, key);
    match FirstOfKind(s, key) {
      case Some(i) => RemoveAtSnoc(s, f, i);
      case None => RemoveAtSnoc(s, f, |s|);
    }
  }

  lemma RemoveAtSnoc(s: seq<Frame>, f: Frame, i: nat)
    requires i <= |s|
    ensures RemoveAt(s + [f], i) == if i < |s| then RemoveAt(s, i) + [f] else s
  {
  }

  lemma {:induction false} FirstOfKindExists(s: seq<Frame>, key: bool)
    ensures FirstOfKind(s, key).Some? <==> Count(s, key) > 0
  {
    if s != [] {
      FirstOfKindExists(s[..|s| - 1], key);
    }
  }

  /** Evicting the oldest of a kind that is at its quota lowers that quota by one. */
  lemma {:induction false} EvictLowersQuota(s: seq<Frame>, keys: nat, others: nat, key: bool)
    requires if key then 0 < keys <= Count(s, true) else 0 < others <= Count(s, false)
    ensures RemoveFirst(LastOf(s, keys, others), key) ==
            if key then LastOf(s, keys - 1, others) else LastOf(s, keys, others - 1)
    decreases |s|
  {
    hide RemoveFirst, Count, LastOf, FirstOfKind;
    if s == [] {
      NoFrames(keys, others);
    }
    var init, f := Unsnoc(s);
    var (keys', others') := Rest(keys, others, f);
    var t := LastOf(init, keys', others');
    LastOfCounts(init, keys', others');
    FirstOfKindExists(t, key);
    LastOfSnoc(init, f, keys, others);
    if key {
      LastOfSnoc(init, f, keys - 1, others);
    } else {
      LastOfSnoc(init, f, keys, others - 1);
    }
    Snoc(init, f, key);
    RemoveFirstSnoc(t, f, key);
    if (if key then keys' > 0 else others' > 0) {
      EvictLowersQuota(init, keys', others', key);
    }
  }

  /** Closed form of the drop policy, for every capacity and every push-only run. */
  lemma {:induction false} PushAllIsKept(capacity: nat, arrivals: seq<Frame>)
    ensures PushAll(capacity, arrivals) == Kept(capacity, arrivals)
    decreases |arrivals|
  {
    hide LastOf, Count, PushFrame;
    if arrivals == [] {
      NoFrames(Max(capacity, 1), Max(capacity, 0));
    } else {
      var init, f := arrivals[..|arrivals| - 1], arrivals[|arrivals| - 1];
      PushAllIsKept(capacity, init);
      KeptStep(capacity, init, f);
      assert init + [f] == arrivals;
    }
  }

  function Others(capacity: nat, keyframes: nat): nat {
    Max(capacity, keyframes) - keyframes
  }

  /** A push in terms of the oldest frame of each kind. */
  lemma PushByKind(s: seq<Frame>, capacity: nat, f: Frame)
    ensures PushFrame(s, capacity, f).kept ==
            if |s| < capacity then s + [f]
            else if FirstOfKind(s, false).Some? then RemoveFirst(s, false) + [f]
            else if f.IsKeyframe() then RemoveFirst(s, true) + [f]
            else s
  {
    if s != [] && FirstOfKind(s, false).None? {
      OldestKeyframeFirst(s);
    }
  }

  lemma KeptStep(capacity: nat, init: seq<Frame>, f: Frame)
    ensures PushFrame(Kept(capacity, init), capacity, f).kept == Kept(capacity, init + [f])
  {
    hide Kept, FirstOfKind, PushFrame, RemoveFirst;
    var s := Kept(capacity, init);
    PushByKind(s, capacity, f);
    if |s| < capacity {
      KeptWithRoom(capacity, init, f);
    } else if FirstOfKind(s, false).Some? {
      KeptEvict(capacity, init, f);
    } else {
      KeptFull(capacity, init, f);
    }
  }

  lemma KeptWithRoom(capacity: nat, init: seq<Frame>, f: Frame)
    requires |Kept(capacity, init)| < capacity
    ensures Kept(capacity, init) + [f] == Kept(capacity, init + [f])
  {
    hide Count, LastOf, OfKind;
    var k := Count(init, true);
    var keys, others := Max(capacity, 1), Others(capacity, k);
    LastOfCounts(init, keys, others);
    CountsSum(Kept(capacity, init));
    Snoc(init, f, true);
    LastOfSnoc(init, f, keys, Others(capacity, Count(init + [f], true)));
    if f.IsKeyframe() {
      QuotaSlack(init, keys, keys - 1, others, others - 1);
    } else {
      QuotaSlack(init, keys, keys, others, others - 1);
    }
  }

  lemma KeptEvict(capacity: nat, init: seq<Frame>, f: Frame)
    requires |Kept(capacity, init)| >= capacity && FirstOfKind(Kept(capacity, init), false).Some?
    ensures RemoveFirst(Kept(capacity, init), false) + [f] == Kept(capacity, init + [f])
  {
    hide Count, LastOf, FirstOfKind, RemoveFirst, OfKind;
    var k := Count(init, true);
    var keys, others := Max(capacity, 1), Others(capacity, k);
    LastOfCounts(init, keys, others);
    CountsSum(Kept(capacity, init));
    FirstOfKindExists(Kept(capacity, init), false);
    Snoc(init, f, true);
    LastOfSnoc(init, f, keys, Others(capacity, Count(init + [f], true)));
    EvictLowersQuota(init, keys, others, false);
    if f.IsKeyframe() {
      QuotaSlack(init, keys, keys - 1, others - 1, others - 1);
    }
  }

  /** The step at a buffer that is full of keyframes. */
  lemma KeptFull(capacity: nat, init: seq<Frame>, f: Frame)
    requires |Kept(capacity, init)| >= capacity && FirstOfKind(Kept(capacity, init), false).None?
    ensures Kept(capacity, init + [f]) ==
            if f.IsKeyframe() then RemoveFirst(Kept(capacity, init), true) + [f] else Kept(capacity, init)
  {
    hide Kept, FirstOfKind, RemoveFirst;
    FullOfKeyframes(capacity, init);
    if f.IsKeyframe() {
      KeptFullKeyframe(capacity, init, f);
    } else {
      KeptFullOther(capacity, init, f);
    }
  }

  /** A buffer that is full of keyframes has no quota for other frames. */
  lemma FullOfKeyframes(capacity: nat, init: seq<Frame>)
    requires |Kept(capacity, init)| >= capacity && FirstOfKind(Kept(capacity, init), false).None?
    ensures Others(capacity, Count(init, true)) == 0
  {
    hide Count, LastOf, FirstOfKind, OfKind;
    LastOfCounts(init, Max(capacity, 1), Others(capacity, Count(init, true)));
    CountsSum(Kept(capacity, init));
    FirstOfKindExists(Kept(capacity, init), false);
  }

  lemma KeptFullOther(capacity: nat, init: seq<Frame>, f: Frame)
    requires Others(capacity, Count(init, true)) == 0 && !f.IsKeyframe()
    ensures Kept(capacity, init + [f]) == Kept(capacity, init)
  {
    hide Count, LastOf, OfKind;
    Snoc(init, f, true);
    LastOfSnoc(init, f, Max(capacity, 1), 0);
  }

  lemma KeptFullKeyframe(capacity: nat, init: seq<Frame>, f: Frame)
    requires Others(capacity, Count(init, true)) == 0 && |Kept(capacity, init)| >= capacity && f.IsKeyframe()
    ensures Kept(capacity, init + [f]) == RemoveFirst(Kept(capacity, init), true) + [f]
  {
    hide Kept, Count, LastOf, OfKind, FirstOfKind, RemoveFirst;
    var keys := Max(capacity, 1);
    KeyframeQuota(capacity, init);
    KeptIs(capacity, init);
    KeptIs(capacity, init + [f]);
    Snoc(init, f, true);
    LastOfSnoc(init, f, keys, 0);
    FullEvicts(init, keys);
  }

  lemma KeptIs(capacity: nat, arrivals: seq<Frame>)
    ensures Kept(capacity, arrivals) == LastOf(arrivals, Max(capacity, 1), Others(capacity, Count(arrivals, true)))
  {
    hide LastOf, Count;
  }

  /** A full buffer of keyframes has as many as it may, or none and capacity zero. */
  lemma KeyframeQuota(capacity: nat, init: seq<Frame>)
    requires Others(capacity, Count(init, true)) == 0 && |Kept(capacity, init)| >= capacity
    ensures Max(capacity, 1) <= Count(init, true) || Count(init, true) == 0
  {
    hide Count, LastOf, OfKind;
    LastOfCounts(init, Max(capacity, 1), 0);
    CountsSum(Kept(capacity, init));
  }

  lemma FullEvicts(init: seq<Frame>, keys: nat)
    requires 0 < keys && (keys <= Count(init, true) || Count(init, true) == 0)
    ensures LastOf(init, keys - 1, 0) == RemoveFirst(LastOf(init, keys, 0), true)
  {
    hide Count, LastOf, OfKind, FirstOfKind, RemoveFirst;
    if Count(init, true) == 0 {
      LastOfCounts(init, keys, 0);
      QuotaSlack(init, keys, keys - 1, 0, 0);
      NothingToRemove(LastOf(init, keys, 0), true);
    } else {
      EvictLowersQuota(init, keys, 0, true);
    }
  }

  lemma NothingToRemove(s: seq<Frame>, key: bool)
    requires Count(s, key) == 0
    ensures RemoveFirst(s, key) == s
  {
    FirstOfKindExists(s, key);
  }

  lemma OldestKeyframeFirst(s: seq<Frame>)
    requires s != [] && FirstOfKind(s, false).None?
    ensures RemoveFirst(s, true) == s[1..]
  {
    assert s[0].IsKeyframe();
    var i := FirstOfKind(s, true);
    assert i.Some?;
    assert i.value == 0;
  }

  /** The bound the capacity gives, and what survives of each kind: the latest. */
  lemma SurvivorsByKind(capacity: nat, arrivals: seq<Frame>)
    ensures |PushAll(capacity, arrivals)| <= Max(capacity, 1)
    ensures var keys, others := OfKind(arrivals, true), OfKind(arrivals, false);
            && OfKind(PushAll(capacity, arrivals), true) == LastN(keys, Max(capacity, 1))
            && OfKind(PushAll(capacity, arrivals), false) == LastN(others, Max(capacity, |keys|) - |keys|)
  {
    hide PushAll, Count, OfKind, LastOf;
    PushAllIsKept(capacity, arrivals);
    var k := Count(arrivals, true);
    LastOfByKind(arrivals, Max(capacity, 1), Max(capacity, k) - k);
    LastOfCounts(arrivals, Max(capacity, 1), Max(capacity, k) - k);
    CountsSum(Kept(capacity, arrivals));
    OfKindCount(arrivals, true);
  }

  lemma {:induction false} OfKindCount(s: seq<Frame>, key: bool)
    ensures |OfKind(s, key)| == Count(s, key)
  {
    if s != [] {
      OfKindCount(s[..|s| - 1], key);
    }
  }

  // ---- the buffer in place ----

  datatype BufferStats = BufferStats(framesReceived: nat, framesDropped: nat,
                                     keyframesReceived: nat, keyframesDropped: nat)

  class FrameBuffer {
    var buffer: seq<Frame>
    const capacity: nat
    var stats: BufferStats
    var lastKeyframeIdx: Option<nat>
    /** Every frame dropped so far, in order. */
    ghost var dropped: seq<Frame>

    /** The maintained index is the position of the newest keyframe, and the two
    drop counters count what was dropped. */
    ghost predicate Valid()
      reads this
    {
      && lastKeyframeIdx == LastKeyframe(buffer)
      && stats.framesDropped == |dropped|
      && stats.keyframesDropped == Count(dropped, true)
    }

    constructor (capacity: nat)
      ensures Valid() && buffer == [] && dropped == [] && this.capacity == capacity
      ensures stats == BufferStats(0, 0, 0, 0)
    {
      this.capacity := capacity;
      buffer, dropped, lastKeyframeIdx := [], [], None;
      stats := BufferStats(0, 0, 0, 0);
    }

    /** find_droppable_non_keyframe. */
    method FindDroppableNonKeyframe() returns (r: Option<nat>)
      ensures r == FirstOfKind(buffer, false)
    {
      for i := 0 to |buffer|
        invariant forall j | 0 <= j < i :: buffer[j].IsKeyframe()
      {
        if !buffer[i].IsKeyframe() {
          return Some(i);
        }
      }
      return None;
    }

    /** drop_at. When it drops the indexed keyframe it clears the index, so the index is
    right afterwards exactly when no older keyframe is buffered. */
    method DropAt(idx: nat)
      requires Valid() && idx < |buffer|
      modifies this
      ensures buffer == RemoveAt(old(buffer), idx) && dropped == old(dropped) + [old(buffer)[idx]]
      ensures lastKeyframeIdx == if old(lastKeyframeIdx) == Some(idx) then None else LastKeyframe(buffer)
      ensures Valid() <==> (old(lastKeyframeIdx) == Some(idx) ==> LastKeyframe(buffer) == None)
      ensures stats.framesDropped == |dropped| && stats.keyframesDropped == Count(dropped, true)
      ensures stats.framesReceived == old(stats.framesReceived)
      ensures stats.keyframesReceived == old(stats.keyframesReceived)
    {
      hide Count;
      var frame := buffer[idx];
      ghost var before := lastKeyframeIdx;
      buffer := RemoveAt(buffer, idx);
      CountDrop(frame);
      if lastKeyframeIdx.Some? {
        if idx < lastKeyframeIdx.value {
          lastKeyframeIdx := Some(lastKeyframeIdx.value - 1);
        } else if idx == lastKeyframeIdx.value {
          lastKeyframeIdx := None;
        }
      }
      if before != Some(idx) {
        LastKeyframeIs(buffer, lastKeyframeIdx);
      }
    }

    /** drop_oldest. */
    method DropOldest()
      requires Valid()
      modifies this
      ensures Valid()
      ensures buffer == if old(buffer) == [] then [] else old(buffer)[1..]
      ensures dropped == old(dropped) + old(buffer)[..|old(buffer)| - |buffer|]
      ensures stats.framesReceived == old(stats.framesReceived)
      ensures stats.keyframesReceived == old(stats.keyframesReceived)
    {
      if buffer != [] {
        var frame := buffer[0];
        buffer := buffer[1..];
        CountDrop(frame);
        if lastKeyframeIdx.Some? {
          if lastKeyframeIdx.value == 0 {
            lastKeyframeIdx := None;
          } else {
            lastKeyframeIdx := Some(lastKeyframeIdx.value - 1);
          }
        }
        LastKeyframeIs(buffer, lastKeyframeIdx);
      }
    }

    /** The drop counters of `stats`. */
    method CountDrop(frame: Frame)
      requires stats.framesDropped == |dropped| && stats.keyframesDropped == Count(dropped, true)
      modifies this`stats, this`dropped
      ensures dropped == old(dropped) + [frame]
      ensures stats.framesDropped == |dropped| && stats.keyframesDropped == Count(dropped, true)
      ensures stats.framesReceived == old(stats.framesReceived)
      ensures stats.keyframesReceived == old(stats.keyframesReceived)
    {
      stats := stats.(framesDropped := stats.framesDropped + 1);
      if frame.IsKeyframe() {
        stats := stats.(keyframesDropped := stats.keyframesDropped + 1);
      }
      Snoc(dropped, frame, true);
      dropped := dropped + [frame];
    }

    /** push. Returns whether the arriving frame was kept. */
    method PushBack(frame: Frame) returns (kept: bool)
      requires Valid()
      modifies this
      ensures Valid()
      ensures var p := PushFrame(old(buffer), capacity, frame);
              && buffer == p.kept
              && dropped == old(dropped) + p.dropped
              && kept == p.accepted
      ensures stats.framesReceived == old(stats.framesReceived) + 1
      ensures stats.keyframesReceived == old(stats.keyframesReceived) + One(frame.IsKeyframe())
    {
      hide FirstOfKind, LastKeyframe, Count;
      var isKeyframe := frame.IsKeyframe();
      stats := stats.(framesReceived := stats.framesReceived + 1);
      if isKeyframe {
        stats := stats.(keyframesReceived := stats.keyframesReceived + 1);
      }
      kept := true;
      if |buffer| < capacity {
        if isKeyframe {
          lastKeyframeIdx := Some(|buffer|);
        }
        Append(frame);
        return;
      }
      var idx := FindDroppableNonKeyframe();
      if isKeyframe {
        if idx.Some? {
          DropAt(idx.value);
        } else {
          DropOldest();
        }
        lastKeyframeIdx := Some(|buffer|);
        Append(frame);
      } else if idx.Some? {
        DropAt(idx.value);
        Append(frame);
      } else {
        CountDrop(frame);
        kept := false;
      }
    }

    /** push_back, once the index already accounts for the frame. */
    method Append(frame: Frame)
      requires lastKeyframeIdx == if frame.IsKeyframe() then Some(|buffer|) else LastKeyframe(buffer)
      requires stats.framesDropped == |dropped| && stats.keyframesDropped == Count(dropped, true)
      modifies this`buffer
      ensures Valid() && buffer == old(buffer) + [frame]
    {
      buffer := buffer + [frame];
      LastKeyframeIs(buffer, lastKeyframeIdx);
    }

    /** pop. */
    method Pop() returns (r: Option<Frame>)
      requires Valid()
      modifies this
      ensures Valid() && dropped == old(dropped) && stats == old(stats)
      ensures old(buffer) == [] ==> r == None && buffer == []
      ensures old(buffer) != [] ==> r == Some(old(buffer)[0]) && buffer == old(buffer)[1..]
    {
      if buffer == [] {
        return None;
      }
      r := Some(buffer[0]);
      buffer := buffer[1..];
      if lastKeyframeIdx.Some? {
        if lastKeyframeIdx.value == 0 {
          lastKeyframeIdx := None;
        } else {
          lastKeyframeIdx := Some(lastKeyframeIdx.value - 1);
        }
      }
      LastKeyframeIs(buffer, lastKeyframeIdx);
    }
  }
}
