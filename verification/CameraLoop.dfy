/** The router's receive loop for one camera, around its rate limiter
(crates/kodama/src/server/router.rs:285-348). */
module CameraLoop {
  import opened Bytes
  import opened Frames
  import opened RateLimiting

  /** A received frame: its channel and size, the time of the rate check, and the
  time an abuse check right after it would read. */
  datatype Arrival = Arrival(channel: Channel, payloadLen: U64, nowMs: U64, tickMs: U64)

  datatype Loop = Loop(limiter: Limiter, sinceCheck: nat, forwarded: seq<Arrival>, disconnected: bool)

  const START := Loop(FRESH, 0, [], false)

  /** An abuse check runs after every thirtieth frame. */
  const FRAMES_PER_CHECK: nat := 30

  /** The rate check, and the release of the bytes once a frame is broadcast. */
  function CheckAndForward(config: RateLimitConfig, s: Loop, a: Arrival): Loop {
    var checked := CheckFrame(config, s.limiter, a.channel, a.payloadLen, a.nowMs);
    if checked.allowed then s.(limiter := FrameSent(checked.limiter, a.payloadLen), forwarded := s.forwarded + [a])
    else s.(limiter := checked.limiter)
  }

  function AbuseCheck(config: RateLimitConfig, s: Loop, a: Arrival): Loop {
    if s.sinceCheck + 1 < FRAMES_PER_CHECK then s.(sinceCheck := s.sinceCheck + 1)
    else
      var ticked := TickAbuseCheck(config, s.limiter, a.tickMs);
      s.(limiter := ticked.limiter, sinceCheck := 0, disconnected := ticked.disconnect)
  }

  function Step(config: RateLimitConfig, s: Loop, a: Arrival): Loop {
    if s.disconnected then s else AbuseCheck(config, CheckAndForward(config, s, a), a)
  }

  function RunLoop(config: RateLimitConfig, arrivals: seq<Arrival>): Loop {
    if arrivals == [] then START
    else Step(config, RunLoop(config, arrivals[..|arrivals| - 1]), arrivals[|arrivals| - 1])
  }

  lemma RunLoopSnoc(config: RateLimitConfig, arrivals: seq<Arrival>, a: Arrival)
    ensures RunLoop(config, arrivals + [a]) == Step(config, RunLoop(config, arrivals), a)
  {
    hide Step;
    var all := arrivals + [a];
    assert all[..|all| - 1] == arrivals && all[|all| - 1] == a;
  }

  /** The loop of handle_camera_with_receiver over the frames of one connection. */
  method HandleCamera(config: RateLimitConfig, arrivals: seq<Arrival>)
    returns (forwarded: seq<Arrival>, disconnected: bool)
    ensures forwarded == RunLoop(config, arrivals).forwarded
    ensures disconnected == RunLoop(config, arrivals).disconnected
  {
    hide CheckFrame, FrameSent, TickAbuseCheck, RunLoop, FRESH;
    var limiter := new ConnectionRateLimiter(config);
    var framesSinceAbuseCheck: nat := 0;
    forwarded, disconnected := [], false;
    RunLoopEmpty(config);
    assert arrivals[..0] == [];
    for i := 0 to |arrivals|
      invariant !disconnected && limiter.config == config
      invariant RunLoop(config, arrivals[..i]) == Loop(limiter.State(), framesSinceAbuseCheck, forwarded, false)
    {
      var a := arrivals[i];
      RunLoopSnoc(config, arrivals[..i], a);
      assert arrivals[..i] + [a] == arrivals[..i + 1];
      var allowed := limiter.Check(a.channel, a.payloadLen, a.nowMs);
      if allowed {
        forwarded := forwarded + [a];
        limiter.Release(a.payloadLen);
      }
      framesSinceAbuseCheck := framesSinceAbuseCheck + 1;
      if framesSinceAbuseCheck >= FRAMES_PER_CHECK {
        framesSinceAbuseCheck := 0;
        disconnected := limiter.Tick(a.tickMs);
        if disconnected {
          StaysDisconnected(config, arrivals, i + 1);
          return;
        }
      }
    }
    assert arrivals[..|arrivals|] == arrivals;
  }

  lemma RunLoopEmpty(config: RateLimitConfig)
    ensures RunLoop(config, []) == START
  {
  }

  lemma {:induction false} StaysDisconnected(config: RateLimitConfig, arrivals: seq<Arrival>, k: nat)
    requires k <= |arrivals| && RunLoop(config, arrivals[..k]).disconnected
    ensures RunLoop(config, arrivals) == RunLoop(config, arrivals[..k])
    decreases |arrivals| - k
  {
    hide RunLoop;
    if k == |arrivals| {
      assert arrivals[..k] == arrivals;
    } else {
      RunLoopSnoc(config, arrivals[..k], arrivals[k]);
      assert arrivals[..k] + [arrivals[k]] == arrivals[..k + 1];
      StaysDisconnected(config, arrivals, k + 1);
    }
  }

  // ---- conforming cameras are never punished ----

  /** How many arrivals of class `idx` fall in [from, to). */
  function CountIn(arrivals: seq<Arrival>, idx: WindowIndex, from: int, to: int): nat {
    if arrivals == [] then 0
    else
      var a := arrivals[|arrivals| - 1];
      CountIn(arrivals[..|arrivals| - 1], idx, from, to) +
      if WindowOf(a.channel) == idx && from <= a.nowMs < to then 1 else 0
  }

  /** Arrivals of class `idx` in the second that begins at `from`. */
  function InSecond(arrivals: seq<Arrival>, idx: WindowIndex, from: nat): nat {
    CountIn(arrivals, idx, from, from + 1000)
  }

  /** No second carries more frames of a class than its limit. */
  ghost predicate Conforming(config: RateLimitConfig, arrivals: seq<Arrival>) {
    forall idx: WindowIndex, from: nat :: InSecond(arrivals, idx, from) <= Limit(config, idx)
  }

  /** What the transport guarantees of a trace: time does not run backwards, and
  read_frame bounds the payload. */
  predicate FromWire(arrivals: seq<Arrival>) {
    && (forall i | 0 <= i < |arrivals| :: arrivals[i].payloadLen <= MAX_FRAME_PAYLOAD_SIZE - FRAME_HEADER_SIZE)
    && (forall i, j | 0 <= i < j < |arrivals| :: arrivals[i].nowMs <= arrivals[j].nowMs)
  }

  /** Each window has counted no more than the arrivals of its own second, and the
  limiter has seen nothing to punish. */
  ghost predicate Clean(s: Loop, arrivals: seq<Arrival>) {
    && !s.disconnected && s.forwarded == arrivals
    && s.limiter.bytesOutstanding == 0 && s.limiter.totalDropped == 0
    && s.limiter.lastDropSecond == TWO_64 - 1
    && forall idx: WindowIndex :: WindowClean(s.limiter.windows[idx], arrivals, idx)
  }

  ghost predicate WindowClean(w: Window, arrivals: seq<Arrival>, idx: WindowIndex) {
    && w.count <= InSecond(arrivals, idx, w.startMs)
    && (w.startMs == 0 || exists i :: 0 <= i < |arrivals| && arrivals[i].nowMs == w.startMs)
  }

  lemma CountInSnoc(arrivals: seq<Arrival>, a: Arrival, idx: WindowIndex, from: int, to: int)
    ensures CountIn(arrivals + [a], idx, from, to) ==
            CountIn(arrivals, idx, from, to) + if WindowOf(a.channel) == idx && from <= a.nowMs < to then 1 else 0
  {
    var all := arrivals + [a];
    assert all[..|all| - 1] == arrivals && all[|all| - 1] == a;
  }

  lemma WindowStaysClean(w: Window, arrivals: seq<Arrival>, a: Arrival, idx: WindowIndex)
    requires WindowClean(w, arrivals, idx)
    requires forall i | 0 <= i < |arrivals| :: arrivals[i].nowMs <= a.nowMs
    ensures WindowClean(w, arrivals + [a], idx)
    ensures WindowOf(a.channel) == idx ==> WindowClean(Record(w, a.nowMs), arrivals + [a], idx)
  {
    hide CountIn;
    var w' := Record(w, a.nowMs);
    var all := arrivals + [a];
    CountInSnoc(arrivals, a, idx, w.startMs, w.startMs + 1000);
    CountInSnoc(arrivals, a, idx, w'.startMs, w'.startMs + 1000);
    assert all[|arrivals|] == a;
    assert w.startMs <= a.nowMs;
    if w.startMs != 0 {
      var i :| 0 <= i < |arrivals| && arrivals[i].nowMs == w.startMs;
      assert all[i].nowMs == w.startMs;
    }
  }

  lemma StepStaysClean(config: RateLimitConfig, s: Loop, arrivals: seq<Arrival>, a: Arrival)
    requires Clean(s, arrivals) && Conforming(config, arrivals + [a]) && FromWire(arrivals + [a])
    requires config.memoryBudget >= MAX_FRAME_PAYLOAD_SIZE
    ensures Clean(Step(config, s, a), arrivals + [a])
  {
    hide CountIn, WindowClean, Record;
    var all := arrivals + [a];
    var idx := WindowOf(a.channel);
    var w := s.limiter.windows[idx];
    assert all[|arrivals|] == a;
    assert forall i | 0 <= i < |arrivals| :: arrivals[i] == all[i];
    forall k: WindowIndex
      ensures WindowClean(s.limiter.windows[k], all, k)
      ensures k == idx ==> WindowClean(Record(w, a.nowMs), all, k)
    {
      WindowStaysClean(s.limiter.windows[k], arrivals, a, k);
    }
    WithinLimit(config, Record(w, a.nowMs), all, idx);
    assert CheckFrame(config, s.limiter, a.channel, a.payloadLen, a.nowMs).allowed;
    assert a.tickMs / 1000 < TWO_64 - 1;
  }

  lemma WithinLimit(config: RateLimitConfig, w: Window, arrivals: seq<Arrival>, idx: WindowIndex)
    requires WindowClean(w, arrivals, idx) && Conforming(config, arrivals)
    ensures w.count <= Limit(config, idx)
  {
  }

  lemma ConformingPrefix(config: RateLimitConfig, arrivals: seq<Arrival>, a: Arrival)
    requires Conforming(config, arrivals + [a])
    ensures Conforming(config, arrivals)
  {
    hide CountIn;
    forall idx: WindowIndex, from: nat
      ensures InSecond(arrivals, idx, from) <= Limit(config, idx)
    {
      assert InSecond(arrivals + [a], idx, from) <= Limit(config, idx);
      CountInSnoc(arrivals, a, idx, from, from + 1000);
    }
  }

  /** A camera that keeps within its limits in every second, with any budget that
  holds one frame, has every frame forwarded in order, none dropped, and is never
  disconnected. */
  lemma {:induction false} ConformingNeverPunished(config: RateLimitConfig, arrivals: seq<Arrival>)
    requires Conforming(config, arrivals) && FromWire(arrivals)
    requires config.memoryBudget >= MAX_FRAME_PAYLOAD_SIZE
    ensures var s := RunLoop(config, arrivals);
            !s.disconnected && s.forwarded == arrivals && s.limiter.totalDropped == 0
    ensures Clean(RunLoop(config, arrivals), arrivals)
    decreases |arrivals|
  {
    hide CountIn, Step;
    if arrivals == [] {
      StartIsClean(config);
    } else {
      var init, a := arrivals[..|arrivals| - 1], arrivals[|arrivals| - 1];
      assert init + [a] == arrivals;
      ConformingPrefix(config, init, a);
      ConformingNeverPunished(config, init);
      StepStaysClean(config, RunLoop(config, init), init, a);
    }
  }

  lemma StartIsClean(config: RateLimitConfig)
    ensures RunLoop(config, []) == START && Clean(START, [])
  {
  }

  // ---- what a disconnect takes ----

  /** What the abuse checks of a run saw, in order, up to a disconnect. */
  function Ticks(config: RateLimitConfig, arrivals: seq<Arrival>): seq<bool> {
    if arrivals == [] then []
    else
      var init, a := arrivals[..|arrivals| - 1], arrivals[|arrivals| - 1];
      var s := RunLoop(config, init);
      if s.disconnected || s.sinceCheck + 1 < FRAMES_PER_CHECK then Ticks(config, init)
      else Ticks(config, init) + [RecentDrop(CheckAndForward(config, s, a).limiter, a.tickMs)]
  }

  /** How many checks at the end of the list saw a recent drop, without a break. */
  function Streak(ticks: seq<bool>): nat {
    if ticks == [] || !ticks[|ticks| - 1] then 0 else 1 + Streak(ticks[..|ticks| - 1])
  }

  lemma StreakSnoc(ticks: seq<bool>, recent: bool)
    ensures Streak(ticks + [recent]) == if recent then Streak(ticks) + 1 else 0
  {
    var all := ticks + [recent];
    assert all[..|all| - 1] == ticks && all[|all| - 1] == recent;
  }

  lemma ForwardKeepsAbuse(config: RateLimitConfig, s: Loop, a: Arrival)
    ensures var s' := CheckAndForward(config, s, a);
            && s'.limiter.abuseSeconds == s.limiter.abuseSeconds
            && s'.sinceCheck == s.sinceCheck && s'.disconnected == s.disconnected
  {
  }

  /** A camera is disconnected for abuse exactly when the last
  `abuse_threshold_secs` abuse checks (at least one) each saw a drop in the current
  or the previous second. */
  lemma {:induction false} DisconnectNeedsStreak(config: RateLimitConfig, arrivals: seq<Arrival>)
    ensures var s := RunLoop(config, arrivals);
            && s.limiter.abuseSeconds == Streak(Ticks(config, arrivals))
            && (s.disconnected <==> Streak(Ticks(config, arrivals)) >= Max(config.abuseThresholdSecs, 1))
    decreases |arrivals|
  {
    hide CheckAndForward, Streak, RecentDrop;
    if arrivals == [] {
      NoStreak(config);
    } else {
      var init, a := arrivals[..|arrivals| - 1], arrivals[|arrivals| - 1];
      DisconnectNeedsStreak(config, init);
      var s := RunLoop(config, init);
      ForwardKeepsAbuse(config, s, a);
      StreakSnoc(Ticks(config, init), RecentDrop(CheckAndForward(config, s, a).limiter, a.tickMs));
    }
  }

  /** The times of the abuse checks. */
  function CheckTimes(config: RateLimitConfig, arrivals: seq<Arrival>): seq<U64> {
    if arrivals == [] then []
    else
      var init, a := arrivals[..|arrivals| - 1], arrivals[|arrivals| - 1];
      var s := RunLoop(config, init);
      if s.disconnected || s.sinceCheck + 1 < FRAMES_PER_CHECK then CheckTimes(config, init)
      else CheckTimes(config, init) + [a.tickMs]
  }

  /** There is one check for every thirty frames received. */
  lemma {:induction false} ChecksCountFrames(config: RateLimitConfig, arrivals: seq<Arrival>)
    ensures var s := RunLoop(config, arrivals);
            && |CheckTimes(config, arrivals)| == |Ticks(config, arrivals)|
            && FRAMES_PER_CHECK * |Ticks(config, arrivals)| + s.sinceCheck <= |arrivals|
            && (!s.disconnected ==> FRAMES_PER_CHECK * |Ticks(config, arrivals)| + s.sinceCheck == |arrivals|)
            && s.sinceCheck < FRAMES_PER_CHECK
    decreases |arrivals|
  {
    hide CheckAndForward, RecentDrop, TickAbuseCheck;
    if arrivals == [] {
      NoStreak(config);
    } else {
      var init, a := arrivals[..|arrivals| - 1], arrivals[|arrivals| - 1];
      ChecksCountFrames(config, init);
      ForwardKeepsAbuse(config, RunLoop(config, init), a);
    }
  }

  lemma {:induction false} StreakBound(ticks: seq<bool>)
    ensures Streak(ticks) <= |ticks|
    ensures forall i | |ticks| - Streak(ticks) <= i < |ticks| :: ticks[i]
  {
    if ticks != [] && ticks[|ticks| - 1] {
      StreakBound(ticks[..|ticks| - 1]);
      assert forall i | 0 <= i < |ticks| - 1 :: ticks[..|ticks| - 1][i] == ticks[i];
    }
  }

  /** What it takes to be disconnected, in frames: at least thirty for each punished check. */
  lemma DisconnectNeedsFrames(config: RateLimitConfig, arrivals: seq<Arrival>)
    requires RunLoop(config, arrivals).disconnected
    ensures |arrivals| >= FRAMES_PER_CHECK * Max(config.abuseThresholdSecs, 1)
  {
    hide RunLoop, Ticks, Streak;
    DisconnectNeedsStreak(config, arrivals);
    ChecksCountFrames(config, arrivals);
    StreakBound(Ticks(config, arrivals));
  }

  /** Consecutive checks are at least a second apart. */
  predicate Spaced(times: seq<U64>) {
    forall i | 0 <= i < |times| - 1 :: times[i] as int + 1000 <= times[i + 1]
  }

  lemma {:induction false} SpacedSpan(times: seq<U64>, i: nat, n: nat)
    requires Spaced(times) && i + n < |times|
    ensures times[i] + 1000 * n <= times[i + n]
    decreases n
  {
    if n > 0 {
      SpacedSpan(times, i, n - 1);
      assert times[i + n - 1] as int + 1000 <= times[i + n - 1 + 1];
    }
  }

  /** Frames that are thirty apart are checked at least a second apart. */
  predicate SpacedFrames(arrivals: seq<Arrival>) {
    forall i | 0 <= i < |arrivals| - FRAMES_PER_CHECK ::
      arrivals[i].tickMs as int + 1000 <= arrivals[i + FRAMES_PER_CHECK].tickMs
  }

  /** The frame after which check number `j` runs. */
  function CheckedFrame(j: nat): nat {
    30 * j + 29
  }

  /** The checks run after every thirtieth frame, whatever the limiter does. */
  lemma {:induction false} CheckTimesAre(config: RateLimitConfig, arrivals: seq<Arrival>)
    ensures var times := CheckTimes(config, arrivals);
            forall j | 0 <= j < |times| :: CheckedFrame(j) < |arrivals| && times[j] == arrivals[CheckedFrame(j)].tickMs
    decreases |arrivals|
  {
    hide RunLoop, Ticks;
    if arrivals != [] {
      var init := arrivals[..|arrivals| - 1];
      CheckTimesAre(config, init);
      ChecksCountFrames(config, init);
      assert forall i | 0 <= i < |init| :: init[i] == arrivals[i];
    }
  }

  lemma SpacedChecks(config: RateLimitConfig, arrivals: seq<Arrival>)
    requires SpacedFrames(arrivals)
    ensures Spaced(CheckTimes(config, arrivals))
  {
    hide CheckTimes;
    CheckTimesAre(config, arrivals);
    var times := CheckTimes(config, arrivals);
    forall i | 0 <= i < |times| - 1
      ensures times[i] as int + 1000 <= times[i + 1]
    {
      assert CheckedFrame(i + 1) == CheckedFrame(i) + FRAMES_PER_CHECK;
      assert CheckedFrame(i + 1) < |arrivals| && times[i + 1] == arrivals[CheckedFrame(i + 1)].tickMs;
    }
  }

  /** What it takes in time, for a camera whose frames thirty apart are at least a second
  apart: the punished stretch spans a second less than the threshold, and every check in it
  saw a recent drop. */
  lemma DisconnectNeedsTime(config: RateLimitConfig, arrivals: seq<Arrival>)
    requires RunLoop(config, arrivals).disconnected && SpacedFrames(arrivals)
    ensures var checks, n := |Ticks(config, arrivals)|, Max(config.abuseThresholdSecs, 1);
            && n <= checks && CheckedFrame(checks - 1) < |arrivals|
            && arrivals[CheckedFrame(checks - n)].tickMs + 1000 * (n - 1) <= arrivals[CheckedFrame(checks - 1)].tickMs
            && forall i | checks - n <= i < checks :: Ticks(config, arrivals)[i]
  {
    hide RunLoop, Ticks, Streak, CheckTimes, SpacedFrames, Spaced;
    DisconnectNeedsStreak(config, arrivals);
    ChecksCountFrames(config, arrivals);
    StreakBound(Ticks(config, arrivals));
    SpacedChecks(config, arrivals);
    CheckTimesAre(config, arrivals);
    var times, n := CheckTimes(config, arrivals), Max(config.abuseThresholdSecs, 1);
    SpacedSpan(times, |times| - n, n - 1);
    assert times[|times| - n] == arrivals[CheckedFrame(|times| - n)].tickMs;
    assert times[|times| - 1] == arrivals[CheckedFrame(|times| - 1)].tickMs;
  }

  lemma NoStreak(config: RateLimitConfig)
    ensures RunLoop(config, []) == START && Streak(Ticks(config, [])) == 0
  {
  }

  // ---- no stretch of time is needed ----

  /** An empty video frame, checked when it comes. */
  function EmptyFrame(us: U64): Arrival {
    Arrival(Video, 0, us, us)
  }

  /** So many empty frames, all at one time. */
  function Burst(n: nat, ms: U64): seq<Arrival> {
    seq(n, i => EmptyFrame(ms))
  }

  /** What the limit lets through, up to the next check, and thirty frames for each check of
  the threshold. */
  function BurstLength(config: RateLimitConfig): nat {
    FRAMES_PER_CHECK * (config.videoFps / FRAMES_PER_CHECK + Max(config.abuseThresholdSecs, 1))
  }

  /** How many of the checks so far came after the first drop. */
  function PunishedChecks(limit: nat, n: nat): nat {
    SaturatingSub(n / FRAMES_PER_CHECK, limit / FRAMES_PER_CHECK)
  }

  /** The loop after `n` frames of such a burst. */
  function BurstState(config: RateLimitConfig, n: nat, ms: U64): Loop {
    var limit: nat := config.videoFps;
    var begun := if n > 0 && ms >= 1000 then ms else 0;
    var limiter := Limiter([Window(n, begun), Window(0, 0), Window(0, 0), Window(0, 0)], 0,
                           SaturatingSub(n, limit), PunishedChecks(limit, n),
                           if n <= limit then TWO_64 - 1 else ms / 1000);
    Loop(limiter, n % FRAMES_PER_CHECK, Burst(Min(n, limit), ms), n >= BurstLength(config))
  }

  lemma {:induction false} BurstRun(config: RateLimitConfig, n: nat, ms: U64)
    requires n <= BurstLength(config)
    ensures RunLoop(config, Burst(n, ms)) == BurstState(config, n, ms)
    decreases n
  {
    hide RunLoop, Step, BurstState;
    if n == 0 {
      BurstStart(config, ms);
    } else {
      BurstRun(config, n - 1, ms);
      RunLoopSnoc(config, Burst(n - 1, ms), EmptyFrame(ms));
      assert Burst(n - 1, ms) + [EmptyFrame(ms)] == Burst(n, ms);
      BurstStep(config, n - 1, ms);
    }
  }

  lemma BurstStart(config: RateLimitConfig, ms: U64)
    ensures RunLoop(config, Burst(0, ms)) == BurstState(config, 0, ms)
  {
    assert Burst(0, ms) == [];
    assert RunLoop(config, []) == START;
  }

  lemma BurstForward(config: RateLimitConfig, n: nat, ms: U64)
    requires n < BurstLength(config)
    ensures var s, next := BurstState(config, n, ms), BurstState(config, n + 1, ms);
            var limiter := next.limiter.(abuseSeconds := s.limiter.abuseSeconds);
            CheckAndForward(config, s, EmptyFrame(ms)) == s.(limiter := limiter, forwarded := next.forwarded)
  {
    hide PunishedChecks;
    var s, next := BurstState(config, n, ms), BurstState(config, n + 1, ms);
    assert s.limiter.windows[0 := next.limiter.windows[0]] == next.limiter.windows;
    assert Record(s.limiter.windows[0], ms) == next.limiter.windows[0];
    if n < config.videoFps {
      assert Burst(n, ms) + [EmptyFrame(ms)] == Burst(n + 1, ms);
    }
  }

  lemma BurstStep(config: RateLimitConfig, n: nat, ms: U64)
    requires n < BurstLength(config)
    ensures Step(config, BurstState(config, n, ms), EmptyFrame(ms)) == BurstState(config, n + 1, ms)
  {
    hide CheckAndForward;
    BurstForward(config, n, ms);
    assert (n + 1) % 30 == if n % 30 == 29 then 0 else n % 30 + 1;
    assert (n + 1) / 30 == if n % 30 == 29 then n / 30 + 1 else n / 30;
    assert ms / 1000 < TWO_64 - 1;
  }

  predicate Lasts(arrivals: seq<Arrival>, ms: nat) {
    arrivals != [] && arrivals[0].nowMs + ms <= arrivals[|arrivals| - 1].nowMs
  }

  /** Every camera that is disconnected under the limits, having begun to send at that time,
  has sent for so long. */
  ghost predicate DisconnectTakes(config: RateLimitConfig, begin: U64, ms: nat) {
    forall arrivals: seq<Arrival> :: FromWire(arrivals) && RunLoop(config, arrivals).disconnected
      ==> arrivals != [] && (arrivals[0].nowMs == begin ==> Lasts(arrivals, ms))
  }

  /** The threshold counts checks, not seconds: under no limits, and at no time, is there a
  stretch of time, however short, that every disconnect takes. */
  lemma DisconnectTakesNoTime(config: RateLimitConfig, begin: U64, ms: nat)
    ensures DisconnectTakes(config, begin, ms) <==> ms == 0
  {
    hide RunLoop;
    var burst := Burst(BurstLength(config), begin);
    BurstRun(config, BurstLength(config), begin);
    assert FromWire(burst);
    assert burst[0].nowMs == begin && (ms > 0 ==> !Lasts(burst, ms));
    RunLoopEmpty(config);
  }

  /** Under the default limits 420 frames are enough, at any time. */
  lemma DisconnectedWithinAMillisecond(ms: U64)
    ensures RunLoop(DEFAULT_CONFIG, Burst(420, ms)).disconnected
    ensures forall i | 0 <= i < 420 :: Burst(420, ms)[i].nowMs == Burst(420, ms)[i].tickMs == ms
  {
    hide RunLoop;
    BurstRun(DEFAULT_CONFIG, 420, ms);
  }
}
