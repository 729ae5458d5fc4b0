/** Per-connection rate limiting (crates/kodama/src/server/rate_limit.rs).

Time is the number of milliseconds since the limiter's epoch, an argument of every
call. Each limiter is owned by one receive loop, so its atomics are plain fields. */
module RateLimiting {
  import opened Bytes
  import opened Frames

  datatype RateLimitConfig = RateLimitConfig(
    videoFps: U32, audioFps: U32, telemetryFps: U32, unknownFps: U32,
    memoryBudget: U64, abuseThresholdSecs: U64)

  const DEFAULT_CONFIG := RateLimitConfig(120, 100, 10, 10, 32 * 1024 * 1024, 10)

  /** Which of the four windows a channel uses. */
  type WindowIndex = i: nat | i < 4

  function WindowOf(channel: Channel): WindowIndex {
    match channel
    case Video => 0
    case Audio => 1
    case Telemetry => 2
    case Unknown(_) => 3
  }

  function Limit(config: RateLimitConfig, idx: WindowIndex): U32 {
    if idx == 0 then config.videoFps
    else if idx == 1 then config.audioFps
    else if idx == 2 then config.telemetryFps
    else config.unknownFps
  }

  function FpsForChannel(config: RateLimitConfig, channel: Channel): (limit: U32)
    ensures limit == Limit(config, WindowOf(channel))
  {
    match channel
    case Video => config.videoFps
    case Audio => config.audioFps
    case Telemetry => config.telemetryFps
    case Unknown(_) => config.unknownFps
  }

  datatype Window = Window(count: nat, startMs: U64)

  /** ChannelWindow::record; the new count is the returned one. */
  function Record(w: Window, nowMs: U64): Window {
    if SaturatingSub(nowMs, w.startMs) >= 1000 then Window(1, nowMs)
    else w.(count := w.count + 1)
  }

  type Windows = w: seq<Window> | |w| == 4 witness [Window(0, 0), Window(0, 0), Window(0, 0), Window(0, 0)]

  datatype Limiter = Limiter(windows: Windows, bytesOutstanding: U64, totalDropped: nat,
                             abuseSeconds: nat, lastDropSecond: U64)

  const FRESH := Limiter([Window(0, 0), Window(0, 0), Window(0, 0), Window(0, 0)], 0, 0, 0, TWO_64 - 1)

  function RecordDrop(l: Limiter, nowMs: U64): Limiter {
    l.(totalDropped := l.totalDropped + 1, lastDropSecond := nowMs / 1000)
  }

  function OverBudget(config: RateLimitConfig, l: Limiter, payloadLen: U64): bool {
    var sum := l.bytesOutstanding + payloadLen;
    (if sum < TWO_64 then sum else TWO_64 - 1) > config.memoryBudget
  }

  datatype Checked = Checked(limiter: Limiter, allowed: bool)

  /** check_frame: the memory budget first, then the frame rate. */
  function CheckFrame(config: RateLimitConfig, l: Limiter, channel: Channel, payloadLen: U64, nowMs: U64): Checked {
    if OverBudget(config, l, payloadLen) then Checked(RecordDrop(l, nowMs), false)
    else
      var idx := WindowOf(channel);
      var w := Record(l.windows[idx], nowMs);
      var l' := l.(windows := l.windows[idx := w]);
      if w.count > FpsForChannel(config, channel) then Checked(RecordDrop(l', nowMs), false)
      else Checked(l'.(bytesOutstanding := (l.bytesOutstanding + payloadLen) % TWO_64), true)
  }

  function AsI64(x: U64): int {
    if x < TWO_64 / 2 then x else x - TWO_64
  }

  /** frame_sent: wrapping subtraction with a guard against underflow. */
  function FrameSent(l: Limiter, payloadLen: U64): Limiter {
    if AsI64(l.bytesOutstanding) < AsI64(payloadLen) then l.(bytesOutstanding := 0)
    else l.(bytesOutstanding := (l.bytesOutstanding - payloadLen) % TWO_64)
  }

  /** A drop in this second or the one before. */
  predicate RecentDrop(l: Limiter, nowMs: U64) {
    l.lastDropSecond == nowMs / 1000 || l.lastDropSecond == SaturatingSub(nowMs / 1000, 1)
  }

  datatype Ticked = Ticked(limiter: Limiter, disconnect: bool)

  /** tick_abuse_check. */
  function TickAbuseCheck(config: RateLimitConfig, l: Limiter, nowMs: U64): Ticked {
    if RecentDrop(l, nowMs) then
      Ticked(l.(abuseSeconds := l.abuseSeconds + 1), l.abuseSeconds + 1 >= config.abuseThresholdSecs)
    else Ticked(l.(abuseSeconds := 0), false)
  }

  // ---- the rate bound, over every trace ----

  /** What happens to a limiter: a frame arrives, or an earlier one has been sent. */
  datatype Event = Arrive(channel: Channel, payloadLen: U64, nowMs: U64) | Sent(payloadLen: U64)

  function Apply(config: RateLimitConfig, l: Limiter, e: Event): Checked {
    match e
    case Arrive(channel, payloadLen, nowMs) => CheckFrame(config, l, channel, payloadLen, nowMs)
    case Sent(payloadLen) => Checked(FrameSent(l, payloadLen), false)
  }

  function RunLimiter(config: RateLimitConfig, events: seq<Event>): Limiter {
    if events == [] then FRESH
    else Apply(config, RunLimiter(config, events[..|events| - 1]), events[|events| - 1]).limiter
  }

  function LastTime(events: seq<Event>): U64 {
    if events == [] then 0
    else if events[|events| - 1].Arrive? then events[|events| - 1].nowMs
    else LastTime(events[..|events| - 1])
  }

  /** Time does not run backwards. */
  predicate Monotone(events: seq<Event>) {
    events == [] ||
    (&& Monotone(events[..|events| - 1])
     && (events[|events| - 1].Arrive? ==> LastTime(events[..|events| - 1]) <= events[|events| - 1].nowMs))
  }

  /** An arrival of class `idx` in the half-open interval [from, to). */
  predicate InInterval(e: Event, idx: WindowIndex, from: int, to: int) {
    e.Arrive? && WindowOf(e.channel) == idx && from <= e.nowMs < to
  }

  /** How many frames of class `idx` were allowed in [from, to). */
  function AllowedIn(config: RateLimitConfig, events: seq<Event>, idx: WindowIndex, from: int, to: int): nat {
    if events == [] then 0
    else
      var init, e := events[..|events| - 1], events[|events| - 1];
      AllowedIn(config, init, idx, from, to) +
      if InInterval(e, idx, from, to) && Apply(config, RunLimiter(config, init), e).allowed then 1 else 0
  }

  function CeilDiv(n: nat, d: nat): nat
    requires d > 0
  {
    (n + d - 1) / d
  }

  /** `limit` frames in each of `seconds` windows. */
  function Allowance(limit: nat, seconds: int): int {
    limit * seconds
  }

  lemma AllowanceMono(limit: nat, x: int, y: int)
    requires x <= y
    ensures Allowance(limit, x) <= Allowance(limit, y)
    ensures Allowance(limit, x) + limit == Allowance(limit, x + 1)
    ensures Allowance(limit, 0) == 0
  {
  }

  /** The allowance used so far, by where the current window began: the windows before
  it, then what it has let through itself. */
  ghost predicate Accounted(w: Window, limit: nat, n: nat, from: int, to: int)
    requires from < to
  {
    if w.startMs < from then n <= Min(w.count, limit) && (w.startMs + 1000 <= from ==> n == 0)
    else if w.startMs < to then n <= Allowance(limit, CeilDiv(w.startMs - from, 1000)) + Min(w.count, limit)
    else n <= Allowance(limit, WindowsIn(to - from))
  }

  /** How many windows can let frames through in an interval of `len` ms. */
  function WindowsIn(len: nat): nat
    requires len > 0
  {
    CeilDiv(len - 1, 1000) + 1
  }

  /** Whatever the current window, the account is within the bound. */
  lemma AccountBound(w: Window, limit: nat, n: nat, from: int, to: int)
    requires from < to && Accounted(w, limit, n, from, to)
    ensures n <= Allowance(limit, WindowsIn(to - from))
  {
    hide Allowance;
    var bound := WindowsIn(to - from);
    if w.startMs < from {
      AllowanceMono(limit, 0, bound);
      AllowanceMono(limit, 1, bound);
    } else if w.startMs < to {
      var j := CeilDiv(w.startMs - from, 1000);
      assert j + 1 <= bound;
      AllowanceMono(limit, j, bound);
      AllowanceMono(limit, j + 1, bound);
    }
  }

  /** A new window: at least a second after the old one, or after the start. */
  lemma NewWindowKeepsAccount(w: Window, nowMs: U64, limit: nat, n: nat, from: int, to: int)
    requires from < to && w.startMs + 1000 <= nowMs && Accounted(w, limit, n, from, to)
    requires nowMs < from ==> n == 0
    ensures var n' := if from <= nowMs < to && 1 <= limit then n + 1 else n;
            Accounted(Window(1, nowMs), limit, n', from, to)
  {
    hide Allowance;
    AccountBound(w, limit, n, from, to);
    if from <= nowMs < to {
      var k := CeilDiv(nowMs - from, 1000);
      if w.startMs < from {
        AllowanceMono(limit, 0, k);
        if from < nowMs {
          AllowanceMono(limit, 1, k);
        }
      } else {
        var j := CeilDiv(w.startMs - from, 1000);
        assert j + 1 <= k;
        AllowanceMono(limit, j, k);
        AllowanceMono(limit, j + 1, k);
      }
    }
  }

  lemma RecordKeepsAccount(w: Window, nowMs: U64, limit: nat, n: nat, from: int, to: int)
    requires from < to && w.startMs <= nowMs && Accounted(w, limit, n, from, to)
    requires nowMs < from ==> n == 0
    ensures var w' := Record(w, nowMs);
            var n' := if from <= nowMs < to && w'.count <= limit then n + 1 else n;
            Accounted(w', limit, n', from, to)
  {
    hide Allowance;
    if nowMs - w.startMs >= 1000 {
      NewWindowKeepsAccount(w, nowMs, limit, n, from, to);
    }
  }

  lemma {:induction false} NoneAllowedYet(config: RateLimitConfig, events: seq<Event>, idx: WindowIndex, from: int,
                                          to: int)
    requires Monotone(events) && LastTime(events) < from
    ensures AllowedIn(config, events, idx, from, to) == 0
    decreases |events|
  {
    hide Apply;
    if events != [] {
      NoneAllowedYet(config, events[..|events| - 1], idx, from, to);
    }
  }

  lemma {:induction false} RunIsAccounted(config: RateLimitConfig, events: seq<Event>, idx: WindowIndex, from: int,
                                          to: int)
    requires from < to && Monotone(events)
    ensures var w := RunLimiter(config, events).windows[idx];
            && w.startMs <= LastTime(events)
            && Accounted(w, Limit(config, idx), AllowedIn(config, events, idx, from, to), from, to)
    decreases |events|
  {
    hide Record, Accounted;
    if events == [] {
      NothingAccounted(Limit(config, idx), from, to);
    } else {
      var init, e := events[..|events| - 1], events[|events| - 1];
      RunIsAccounted(config, init, idx, from, to);
      var l := RunLimiter(config, init);
      if e.Arrive? && WindowOf(e.channel) == idx && !OverBudget(config, l, e.payloadLen) {
        if e.nowMs < from {
          NoneAllowedYet(config, init, idx, from, to);
        }
        RecordKeepsAccount(l.windows[idx], e.nowMs, Limit(config, idx), AllowedIn(config, init, idx, from, to), from,
            to);
        RecordStart(l.windows[idx], e.nowMs);
      }
    }
  }

  lemma RecordStart(w: Window, nowMs: U64)
    requires w.startMs <= nowMs
    ensures Record(w, nowMs).startMs <= nowMs
  {
  }

  lemma NothingAccounted(limit: nat, from: int, to: int)
    requires from < to
    ensures Accounted(Window(0, 0), limit, 0, from, to)
  {
    hide Allowance;
    if from <= 0 {
      AllowanceMono(limit, 0, CeilDiv(0 - from, 1000));
    }
    AllowanceMono(limit, 0, WindowsIn(to - from));
  }

  /** The most that an interval can let through, over every trace of arrivals and
  releases: the limit once for each window that can have arrivals in it. */
  lemma RateBoundByWindows(config: RateLimitConfig, events: seq<Event>, idx: WindowIndex, from: nat, len: nat)
    requires Monotone(events) && len > 0
    ensures AllowedIn(config, events, idx, from, from + len) <= Allowance(Limit(config, idx), WindowsIn(len))
  {
    hide Allowance, WindowsIn;
    RunIsAccounted(config, events, idx, from, from + len);
    AccountBound(RunLimiter(config, events).windows[idx], Limit(config, idx),
                 AllowedIn(config, events, idx, from, from + len), from, from + len);
  }

  /** Rate bound: over every trace, every class and every half-open interval, the
  allowed frames are at most the limit times one more than the number of seconds the
  interval touches. */
  lemma RateBound(config: RateLimitConfig, events: seq<Event>, idx: WindowIndex, from: nat, len: nat)
    requires Monotone(events) && len > 0
    ensures AllowedIn(config, events, idx, from, from + len) <= Limit(config, idx) * (CeilDiv(len, 1000) + 1)
  {
    RateBoundByWindows(config, events, idx, from, len);
    AllowanceMono(Limit(config, idx), WindowsIn(len), CeilDiv(len, 1000) + 1);
  }

  /** No second lets more than twice the limit through. */
  lemma SecondBound(config: RateLimitConfig, events: seq<Event>, idx: WindowIndex, from: nat)
    requires Monotone(events)
    ensures AllowedIn(config, events, idx, from, from + 1000) <= 2 * Limit(config, idx)
  {
    RateBound(config, events, idx, from, 1000);
  }

  lemma EmptyTrace(config: RateLimitConfig, idx: WindowIndex, from: int, to: int)
    ensures RunLimiter(config, []) == FRESH && LastTime([]) == 0 && Monotone([])
    ensures AllowedIn(config, [], idx, from, to) == 0
  {
  }

  lemma TraceSnoc(config: RateLimitConfig, events: seq<Event>, e: Event, idx: WindowIndex, from: int, to: int)
    requires e.Arrive?
    ensures var all := events + [e];
            var checked := Apply(config, RunLimiter(config, events), e);
            && RunLimiter(config, all) == checked.limiter
            && LastTime(all) == e.nowMs
            && Monotone(all) == (Monotone(events) && LastTime(events) <= e.nowMs)
            && AllowedIn(config, all, idx, from, to) ==
               AllowedIn(config, events, idx, from, to)
               + if InInterval(e, idx, from, to) && checked.allowed then 1 else 0
  {
    var all := events + [e];
    assert all[..|all| - 1] == events && all[|all| - 1] == e;
  }

  // ---- the bound is reached ----

  function ChannelOf(idx: WindowIndex): (c: Channel)
    ensures WindowOf(c) == idx
  {
    if idx == 0 then Video else if idx == 1 then Audio else if idx == 2 then Telemetry else Unknown(3)
  }

  /** Burst `k` comes in the last millisecond of the first window, then in the first of
  each following one. */
  function BurstTime(k: nat): nat {
    if k == 0 then 999 else 1000 * k
  }

  function BurstWindow(k: nat): nat {
    1000 * k
  }

  /** `limit` empty frames in each burst before the `k`-th, and `m` in that one. */
  function Bursts(idx: WindowIndex, limit: nat, k: nat, m: nat): seq<Event>
    requires BurstTime(k) < TWO_64
    decreases k, m
  {
    if m > 0 then Bursts(idx, limit, k, m - 1) + [Arrive(ChannelOf(idx), 0, BurstTime(k))]
    else if k > 0 then Bursts(idx, limit, k - 1, limit)
    else []
  }

  /** The window that the bursts leave: burst `k` opened it, or it is over by then. */
  predicate AfterBursts(l: Limiter, idx: WindowIndex, k: nat, m: nat) {
    && l.bytesOutstanding == 0
    && var w := l.windows[idx];
       if m > 0 then w.count == m && w.startMs == BurstWindow(k)
       else if k == 0 then w == Window(0, 0)
       else w.startMs + 1000 <= BurstWindow(k)
  }

  lemma BurstStep(config: RateLimitConfig, l: Limiter, idx: WindowIndex, k: nat, m: nat)
    requires 0 < m <= Limit(config, idx) && BurstTime(k) < TWO_64 && AfterBursts(l, idx, k, m - 1)
    ensures var c := Apply(config, l, Arrive(ChannelOf(idx), 0, BurstTime(k)));
            c.allowed && AfterBursts(c.limiter, idx, k, m)
  {
  }

  /** Every frame of the bursts passes. */
  lemma {:induction false} BurstsPass(config: RateLimitConfig, idx: WindowIndex, k: nat, m: nat, to: int)
    requires m <= Limit(config, idx) && BurstTime(k) < TWO_64 && BurstTime(k) < to
    ensures var events := Bursts(idx, Limit(config, idx), k, m);
            && Monotone(events) && LastTime(events) <= BurstTime(k)
            && AfterBursts(RunLimiter(config, events), idx, k, m)
            && AllowedIn(config, events, idx, 999, to) == Allowance(Limit(config, idx), k) + m
    decreases k, m
  {
    hide RunLimiter, AllowedIn, Monotone, LastTime, Apply, FRESH, AfterBursts, Allowance;
    var limit := Limit(config, idx);
    if m > 0 {
      BurstsPass(config, idx, k, m - 1, to);
      var before := Bursts(idx, limit, k, m - 1);
      BurstStep(config, RunLimiter(config, before), idx, k, m);
      TraceSnoc(config, before, Arrive(ChannelOf(idx), 0, BurstTime(k)), idx, 999, to);
    } else if k > 0 {
      BurstsPass(config, idx, k - 1, limit, to);
      AllowanceMono(limit, k - 1, k);
      BurstOver(RunLimiter(config, Bursts(idx, limit, k - 1, limit)), idx, k, limit);
    } else {
      EmptyTrace(config, idx, 999, to);
      FreshBursts(idx);
      AllowanceMono(limit, 0, 0);
    }
  }

  lemma BurstOver(l: Limiter, idx: WindowIndex, k: nat, limit: nat)
    requires k > 0 && AfterBursts(l, idx, k - 1, limit)
    ensures AfterBursts(l, idx, k, 0)
  {
  }

  lemma FreshBursts(idx: WindowIndex)
    ensures AfterBursts(FRESH, idx, 0, 0)
  {
  }

  /** All intervals of `len` ms stay within `bound` frames, on every trace. */
  ghost predicate BoundHolds(config: RateLimitConfig, idx: WindowIndex, len: nat, bound: nat) {
    forall events: seq<Event>, from: nat :: Monotone(events) ==> StaysWithin(config, events, idx, from, len, bound)
  }

  predicate StaysWithin(config: RateLimitConfig, events: seq<Event>, idx: WindowIndex, from: nat, len: nat, bound: nat)
  {
    AllowedIn(config, events, idx, from, from + len) <= bound
  }

  /** A trace that lets through as much as any can, for every limit, class and length of
  interval that the clock can hold. */
  lemma FullestTrace(config: RateLimitConfig, idx: WindowIndex, len: nat)
    requires 0 < len <= TWO_64 - 999
    ensures exists events: seq<Event> :: Monotone(events)
              && AllowedIn(config, events, idx, 999, 999 + len) == Allowance(Limit(config, idx), WindowsIn(len))
  {
    hide RunLimiter, AllowedIn, Monotone, LastTime, AfterBursts, Allowance, Bursts;
    var k, limit := CeilDiv(len - 1, 1000), Limit(config, idx);
    LastBurst(len);
    BurstsPass(config, idx, k, limit, 999 + len);
    AllowanceMono(limit, k, k);
    var events := Bursts(idx, limit, k, limit);
    assert AllowedIn(config, events, idx, 999, 999 + len) == Allowance(limit, WindowsIn(len));
  }

  lemma LastBurst(len: nat)
    requires len > 0
    ensures BurstTime(CeilDiv(len - 1, 1000)) < 999 + len
  {
  }

  /** Exactly which bounds hold of the limiter: those that allow the limit once for each
  window that can have arrivals in the interval. */
  lemma RateBoundExactly(config: RateLimitConfig, idx: WindowIndex, len: nat, bound: nat)
    requires 0 < len <= TWO_64 - 999
    ensures BoundHolds(config, idx, len, bound) <==> Allowance(Limit(config, idx), WindowsIn(len)) <= bound
  {
    hide AllowedIn, Monotone, Allowance, WindowsIn;
    if Allowance(Limit(config, idx), WindowsIn(len)) <= bound {
      forall events: seq<Event>, from: nat | Monotone(events)
        ensures StaysWithin(config, events, idx, from, len, bound)
      {
        RateBoundByWindows(config, events, idx, from, len);
      }
    }
    if BoundHolds(config, idx, len, bound) {
      FullestTrace(config, idx, len);
      var events: seq<Event> :| Monotone(events)
        && AllowedIn(config, events, idx, 999, 999 + len) == Allowance(Limit(config, idx), WindowsIn(len));
      assert StaysWithin(config, events, idx, 999, len, bound);
    }
  }

  /** The factor two is real for every class and limit, and a second stays within the limit
  itself on all traces if and only if the limit is zero. */
  lemma SecondBoundIsTight(config: RateLimitConfig, idx: WindowIndex)
    ensures exists events: seq<Event> ::
              Monotone(events) && AllowedIn(config, events, idx, 999, 1999) == 2 * Limit(config, idx)
    ensures BoundHolds(config, idx, 1000, Limit(config, idx)) <==> Limit(config, idx) == 0
  {
    hide AllowedIn, Monotone, BoundHolds;
    FullestTrace(config, idx, 1000);
    RateBoundExactly(config, idx, 1000, Limit(config, idx));
    assert WindowsIn(1000) == 2 && Allowance(Limit(config, idx), 2) == 2 * Limit(config, idx);
  }

  // ---- the limiter in place ----

  class ConnectionRateLimiter {
    const config: RateLimitConfig
    var windows: Windows
    var bytesOutstanding: U64
    var totalDropped: nat
    var abuseSeconds: nat
    var lastDropSecond: U64

    ghost function State(): Limiter
      reads this
    {
      Limiter(windows, bytesOutstanding, totalDropped, abuseSeconds, lastDropSecond)
    }

    constructor (config: RateLimitConfig)
      ensures this.config == config && State() == FRESH
    {
      this.config := config;
      windows := FRESH.windows;
      bytesOutstanding, totalDropped, abuseSeconds, lastDropSecond := 0, 0, 0, TWO_64 - 1;
    }

    /** record on the window of one channel class. */
    method RecordArrival(idx: WindowIndex, nowMs: U64) returns (count: nat)
      modifies this`windows
      ensures windows == old(windows)[idx := Record(old(windows)[idx], nowMs)] && count == windows[idx].count
    {
      var window := windows[idx].startMs;
      if SaturatingSub(nowMs, window) >= 1000 {
        windows := windows[idx := Window(1, nowMs)];
        return 1;
      }
      windows := windows[idx := Window(windows[idx].count + 1, window)];
      count := windows[idx].count;
    }

    method Dropped(nowMs: U64)
      modifies this`totalDropped, this`lastDropSecond
      ensures State() == RecordDrop(old(State()), nowMs)
    {
      totalDropped := totalDropped + 1;
      lastDropSecond := nowMs / 1000;
    }

    method Check(channel: Channel, payloadLen: U64, nowMs: U64) returns (allowed: bool)
      modifies this
      ensures Checked(State(), allowed) == CheckFrame(config, old(State()), channel, payloadLen, nowMs)
    {
      var sum := bytesOutstanding + payloadLen;
      var saturated := if sum < TWO_64 then sum else TWO_64 - 1;
      if saturated > config.memoryBudget {
        Dropped(nowMs);
        return false;
      }
      var limit := FpsForChannel(config, channel);
      var count := RecordArrival(WindowOf(channel), nowMs);
      if count > limit {
        Dropped(nowMs);
        return false;
      }
      bytesOutstanding := sum % TWO_64;
      return true;
    }

    method Release(payloadLen: U64)
      modifies this`bytesOutstanding
      ensures State() == FrameSent(old(State()), payloadLen)
    {
      var prev := bytesOutstanding;
      bytesOutstanding := (bytesOutstanding - payloadLen) % TWO_64;
      if AsI64(prev) < AsI64(payloadLen) {
        bytesOutstanding := 0;
      }
    }

    method Tick(nowMs: U64) returns (disconnect: bool)
      modifies this`abuseSeconds
      ensures Ticked(State(), disconnect) == TickAbuseCheck(config, old(State()), nowMs)
    {
      var currentSecond := nowMs / 1000;
      if lastDropSecond == currentSecond || lastDropSecond == SaturatingSub(currentSecond, 1) {
        abuseSeconds := abuseSeconds + 1;
        disconnect := abuseSeconds >= config.abuseThresholdSecs;
      } else {
        abuseSeconds := 0;
        disconnect := false;
      }
    }
  }
}
