/** The camera loop in terms of what arrives: which frames are let through, which checks count
as abuse, and when that disconnects. */
module CameraChecks {
  import opened Bytes
  import opened Frames
  import opened RateLimiting
  import opened CameraLoop

  lemma {:induction false} EarlierConnected(config: RateLimitConfig, arrivals: seq<Arrival>, n: nat)
    requires n <= |arrivals| && !RunLoop(config, arrivals).disconnected
    ensures !RunLoop(config, arrivals[..n]).disconnected
  {
    hide RunLoop;
    if RunLoop(config, arrivals[..n]).disconnected {
      StaysDisconnected(config, arrivals, n);
    }
  }

  // ---- which frames are let through ----

  /** The most frames of a channel that one window lets through. */
  function LimitOf(config: RateLimitConfig, channel: Channel): nat {
    match channel
    case Video => config.videoFps
    case Audio => config.audioFps
    case Telemetry => config.telemetryFps
    case Unknown(_) => config.unknownFps
  }

  /** Frames of two channels share a window. */
  predicate Shares(a: Channel, b: Channel) {
    a == b || (a.Unknown? && b.Unknown?)
  }

  /** The frame fits the budget, which is all free again after each frame. */
  predicate FitsBudget(config: RateLimitConfig, a: Arrival) {
    a.payloadLen <= config.memoryBudget
  }

  /** When the window that the last frame of the channel fell in began: at the first frame a
  second or more after the one before it began. */
  function WindowBegin(config: RateLimitConfig, arrivals: seq<Arrival>, channel: Channel): U64 {
    if arrivals == [] then 0
    else
      var before, a := WindowBegin(config, arrivals[..|arrivals| - 1], channel), arrivals[|arrivals| - 1];
      if FitsBudget(config, a) && Shares(a.channel, channel) && before + 1000 <= a.nowMs then a.nowMs else before
  }

  /** How many frames of the channel came since. */
  function WindowCount(config: RateLimitConfig, arrivals: seq<Arrival>, channel: Channel): nat {
    if arrivals == [] then 0
    else
      var init, a := arrivals[..|arrivals| - 1], arrivals[|arrivals| - 1];
      if !FitsBudget(config, a) || !Shares(a.channel, channel) then WindowCount(config, init, channel)
      else if WindowBegin(config, init, channel) + 1000 <= a.nowMs then 1
      else WindowCount(config, init, channel) + 1
  }

  /** The limiter's window of the channel is the one told by the arrivals. */
  ghost predicate Tracks(config: RateLimitConfig, l: Limiter, arrivals: seq<Arrival>, channel: Channel) {
    var begin := WindowBegin(config, arrivals, channel);
    l.windows[WindowOf(channel)] == Window(WindowCount(config, arrivals, channel), begin)
  }

  predicate Small(arrivals: seq<Arrival>) {
    forall i | 0 <= i < |arrivals| :: arrivals[i].payloadLen < TWO_64 / 2
  }

  lemma StepWindows(config: RateLimitConfig, s: Loop, a: Arrival)
    requires s.limiter.bytesOutstanding == 0 && a.payloadLen < TWO_64 / 2 && !s.disconnected
    ensures var l, idx := Step(config, s, a).limiter, WindowOf(a.channel);
            && l.bytesOutstanding == 0
            && l.windows == if FitsBudget(config, a)
                            then s.limiter.windows[idx := Record(s.limiter.windows[idx], a.nowMs)]
                            else s.limiter.windows
  {
    hide Record;
  }

  lemma SharesIs(a: Channel, b: Channel)
    ensures Shares(a, b) <==> WindowOf(a) == WindowOf(b)
  {
  }

  lemma StepTracks(config: RateLimitConfig, s: Loop, arrivals: seq<Arrival>, a: Arrival, channel: Channel)
    requires Tracks(config, s.limiter, arrivals, channel) && s.limiter.bytesOutstanding == 0
    requires a.payloadLen < TWO_64 / 2 && !s.disconnected
    ensures var s' := Step(config, s, a);
            Tracks(config, s'.limiter, arrivals + [a], channel) && s'.limiter.bytesOutstanding == 0
  {
    hide Step, Shares, WindowOf;
    var all := arrivals + [a];
    assert all[..|all| - 1] == arrivals && all[|all| - 1] == a;
    StepWindows(config, s, a);
    SharesIs(a.channel, channel);
  }

  lemma {:induction false} RunTracks(config: RateLimitConfig, arrivals: seq<Arrival>, channel: Channel)
    requires Small(arrivals) && !RunLoop(config, arrivals).disconnected
    ensures var s := RunLoop(config, arrivals);
            Tracks(config, s.limiter, arrivals, channel) && s.limiter.bytesOutstanding == 0
    decreases |arrivals|
  {
    hide Step, Tracks, WindowBegin;
    if arrivals == [] {
      FreshTracks(config, channel);
    } else {
      var init, a := arrivals[..|arrivals| - 1], arrivals[|arrivals| - 1];
      assert init + [a] == arrivals;
      EarlierConnected(config, arrivals, |init|);
      RunTracks(config, init, channel);
      StepTracks(config, RunLoop(config, init), init, a, channel);
    }
  }

  lemma FreshTracks(config: RateLimitConfig, channel: Channel)
    ensures Tracks(config, START.limiter, [], channel) && START.limiter.bytesOutstanding == 0
  {
  }

  /** The loop lets the frame through. */
  predicate LetsThrough(config: RateLimitConfig, arrivals: seq<Arrival>, a: Arrival) {
    RunLoop(config, arrivals + [a]).forwarded == RunLoop(config, arrivals).forwarded + [a]
  }

  /** While a camera is connected, each frame is let through if and only if it fits the budget
  and comes among the first of its window, as many as its channel's limit. */
  lemma LetThroughExactly(config: RateLimitConfig, arrivals: seq<Arrival>, a: Arrival)
    requires Small(arrivals + [a]) && !RunLoop(config, arrivals).disconnected
    ensures LetsThrough(config, arrivals, a)
            <==> FitsBudget(config, a)
                 && WindowCount(config, arrivals + [a], a.channel) <= LimitOf(config, a.channel)
    ensures !LetsThrough(config, arrivals, a)
            ==> RunLoop(config, arrivals + [a]).forwarded == RunLoop(config, arrivals).forwarded
  {
    hide RunLoop, WindowBegin, Record;
    assert (arrivals + [a])[|arrivals|] == a;
    assert forall i | 0 <= i < |arrivals| :: arrivals[i] == (arrivals + [a])[i];
    RunTracks(config, arrivals, a.channel);
    RunLoopSnoc(config, arrivals, a);
    ForwardTracks(config, RunLoop(config, arrivals), arrivals, a);
  }

  lemma ForwardTracks(config: RateLimitConfig, s: Loop, arrivals: seq<Arrival>, a: Arrival)
    requires Tracks(config, s.limiter, arrivals, a.channel) && s.limiter.bytesOutstanding == 0 && !s.disconnected
    requires a.payloadLen < TWO_64 / 2
    ensures var s' := Step(config, s, a);
            s'.forwarded == s.forwarded
            + if FitsBudget(config, a) && WindowCount(config, arrivals + [a], a.channel) <= LimitOf(config, a.channel)
              then [a] else []
  {
    var all := arrivals + [a];
    assert all[..|all| - 1] == arrivals && all[|all| - 1] == a;
  }

  // ---- which checks count ----

  /** When the latest frame came that was not let through, if any. */
  function LatestDrop(config: RateLimitConfig, arrivals: seq<Arrival>): Option<U64> {
    if arrivals == [] then None
    else
      var init, a := arrivals[..|arrivals| - 1], arrivals[|arrivals| - 1];
      if LetsThrough(config, init, a) then LatestDrop(config, init) else Some(a.nowMs)
  }

  /** The check after frame thirty of round `j` finds a drop in its second or the one before. */
  predicate Punished(config: RateLimitConfig, arrivals: seq<Arrival>, j: nat)
    requires CheckedFrame(j) < |arrivals|
  {
    var now, drop := arrivals[CheckedFrame(j)].tickMs, LatestDrop(config, arrivals[..CheckedFrame(j) + 1]);
    drop.Some? && (drop.value / 1000 == now / 1000 || drop.value / 1000 + 1 == now / 1000)
  }

  /** What the limiter remembers of the latest drop. */
  predicate Remembers(l: Limiter, drop: Option<U64>) {
    l.lastDropSecond == if drop.None? then TWO_64 - 1 else drop.value / 1000
  }

  lemma ForwardRemembers(config: RateLimitConfig, arrivals: seq<Arrival>, a: Arrival)
    requires var s := RunLoop(config, arrivals); Remembers(s.limiter, LatestDrop(config, arrivals)) && !s.disconnected
    ensures Remembers(CheckAndForward(config, RunLoop(config, arrivals), a).limiter, LatestDrop(config, arrivals + [a]))
  {
    hide RunLoop, Record;
    var all := arrivals + [a];
    assert all[..|all| - 1] == arrivals && all[|all| - 1] == a;
    RunLoopSnoc(config, arrivals, a);
    var s := RunLoop(config, arrivals);
    assert |s.forwarded + [a]| != |s.forwarded|;
  }

  lemma {:induction false} RunRemembers(config: RateLimitConfig, arrivals: seq<Arrival>)
    requires !RunLoop(config, arrivals).disconnected
    ensures Remembers(RunLoop(config, arrivals).limiter, LatestDrop(config, arrivals))
    decreases |arrivals|
  {
    hide CheckAndForward, LatestDrop, RecentDrop;
    if arrivals == [] {
      NoDropYet(config);
    } else {
      var init, a := arrivals[..|arrivals| - 1], arrivals[|arrivals| - 1];
      assert init + [a] == arrivals;
      EarlierConnected(config, arrivals, |init|);
      RunRemembers(config, init);
      ForwardRemembers(config, init, a);
    }
  }

  lemma NoDropYet(config: RateLimitConfig)
    ensures Remembers(START.limiter, LatestDrop(config, []))
  {
  }

  lemma RecentIs(l: Limiter, drop: Option<U64>, nowMs: U64)
    requires Remembers(l, drop)
    ensures RecentDrop(l, nowMs)
            <==> drop.Some? && (drop.value / 1000 == nowMs / 1000 || drop.value / 1000 + 1 == nowMs / 1000)
  {
    assert nowMs / 1000 < TWO_64 - 1;
  }

  /** What the checks of a run see. */
  lemma {:induction false} ChecksSeeDrops(config: RateLimitConfig, arrivals: seq<Arrival>)
    ensures var ticks := Ticks(config, arrivals);
            forall j | 0 <= j < |ticks| :: CheckedFrame(j) < |arrivals| && ticks[j] == Punished(config, arrivals, j)
    decreases |arrivals|
  {
    hide RunLoop, LatestDrop, RecentDrop, CheckAndForward;
    if arrivals != [] {
      var init, a := arrivals[..|arrivals| - 1], arrivals[|arrivals| - 1];
      var ticks, s := Ticks(config, init), RunLoop(config, init);
      assert init + [a] == arrivals;
      ChecksSeeDrops(config, init);
      ChecksCountFrames(config, init);
      forall j | 0 <= j < |ticks|
        ensures Punished(config, init, j) == Punished(config, arrivals, j)
      {
        assert init[..CheckedFrame(j) + 1] == arrivals[..CheckedFrame(j) + 1];
      }
      if !s.disconnected && s.sinceCheck + 1 >= FRAMES_PER_CHECK {
        RunRemembers(config, init);
        ForwardRemembers(config, init, a);
        RecentIs(CheckAndForward(config, s, a).limiter, LatestDrop(config, arrivals), a.tickMs);
        assert CheckedFrame(|ticks|) == |init|;
        assert arrivals[..CheckedFrame(|ticks|) + 1] == arrivals;
      }
    }
  }

  /** The last checks up to number `m`, as many as the threshold, are punished. */
  predicate PunishedUpTo(config: RateLimitConfig, arrivals: seq<Arrival>, m: nat) {
    var n := Max(config.abuseThresholdSecs, 1);
    n <= m && 30 * m <= |arrivals| && forall j | m - n <= j < m :: Punished(config, arrivals, j)
  }

  lemma {:induction false} StreakAtLeast(ticks: seq<bool>, n: nat)
    requires n <= |ticks| && forall j | |ticks| - n <= j < |ticks| :: ticks[j]
    ensures Streak(ticks) >= n
  {
    if n > 0 {
      var init := ticks[..|ticks| - 1];
      assert forall j | |init| - (n - 1) <= j < |init| :: init[j] == ticks[j];
      StreakAtLeast(init, n - 1);
    }
  }

  lemma PunishedDisconnects(config: RateLimitConfig, arrivals: seq<Arrival>, m: nat)
    requires PunishedUpTo(config, arrivals, m)
    ensures RunLoop(config, arrivals).disconnected
  {
    hide RunLoop, Ticks, Streak, LatestDrop;
    if !RunLoop(config, arrivals).disconnected {
      var upTo, n := arrivals[..30 * m], Max(config.abuseThresholdSecs, 1);
      EarlierConnected(config, arrivals, 30 * m);
      ChecksCountFrames(config, upTo);
      ChecksSeeDrops(config, upTo);
      DisconnectNeedsStreak(config, upTo);
      forall j | m - n <= j < m
        ensures Ticks(config, upTo)[j]
      {
        assert Punished(config, arrivals, j);
        assert upTo[..CheckedFrame(j) + 1] == arrivals[..CheckedFrame(j) + 1];
      }
      StreakAtLeast(Ticks(config, upTo), n);
    }
  }

  /** A camera is disconnected if and only if checks in a row, as many as the threshold and at
  least one, each come in the second of the latest frame that was not let through, or in the
  second after it. */
  lemma DisconnectedExactly(config: RateLimitConfig, arrivals: seq<Arrival>)
    ensures RunLoop(config, arrivals).disconnected <==> exists m: nat :: PunishedUpTo(config, arrivals, m)
  {
    hide RunLoop, Ticks, Streak, Punished;
    if exists m: nat :: PunishedUpTo(config, arrivals, m) {
      var m: nat :| PunishedUpTo(config, arrivals, m);
      PunishedDisconnects(config, arrivals, m);
    }
    if RunLoop(config, arrivals).disconnected {
      DisconnectNeedsStreak(config, arrivals);
      ChecksCountFrames(config, arrivals);
      ChecksSeeDrops(config, arrivals);
      StreakBound(Ticks(config, arrivals));
      assert PunishedUpTo(config, arrivals, |Ticks(config, arrivals)|);
    }
  }
}
