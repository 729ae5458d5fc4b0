/** The adaptive-bitrate controller (crates/kodama/src/capture/abr.rs).

Times and throughputs are exact reals; the clock is an argument. `Evaluate` is the
meaning of one call, the lemmas are about whole runs of calls. */
module Abr {
  import opened Bytes

  datatype QualityTier = Minimum | Low | Medium | High {
    function BitrateBps(): nat {
      match this
      case High => 4_000_000
      case Medium => 2_000_000
      case Low => 1_000_000
      case Minimum => 500_000
    }

    /** Half the bitrate: below it the network cannot keep up. */
    function DowngradeThreshold(): real { BitrateBps() as real * 0.5 }

    /** Nine tenths of the bitrate of the current tier: at or above it the link has
    headroom. */
    function UpgradeThreshold(): real { BitrateBps() as real * 0.9 }

    function Higher(): Option<QualityTier> {
      match this
      case Minimum => Some(Low)
      case Low => Some(Medium)
      case Medium => Some(High)
      case High => None
    }

    function Lower(): Option<QualityTier> {
      match this
      case High => Some(Medium)
      case Medium => Some(Low)
      case Low => Some(Minimum)
      case Minimum => None
    }

    function Rank(): nat {
      match this
      case Minimum => 0
      case Low => 1
      case Medium => 2
      case High => 3
    }
  }

  type Duration = d: real | d >= 0.0

  datatype AbrConfig = AbrConfig(downgradeAfter: Duration, upgradeAfter: Duration, cooldown: Duration)

  datatype AbrDecision = Hold | ChangeTo(tier: QualityTier)

  datatype Controller = Controller(tier: QualityTier, downSince: Option<real>, upSince: Option<real>, lastChange: real)

  /** Instant::duration_since saturates at zero. */
  function DurationSince(now: real, earlier: real): Duration {
    if now < earlier then 0.0 else now - earlier
  }

  function GetOr(since: Option<real>, now: real): real {
    match since case Some(t) => t case None => now
  }

  datatype Evaluated = Evaluated(controller: Controller, decision: AbrDecision)

  /** evaluate. */
  function Evaluate(config: AbrConfig, c: Controller, now: real, bps: real): Evaluated {
    if DurationSince(now, c.lastChange) < config.cooldown then Evaluated(c, Hold)
    else if bps < c.tier.DowngradeThreshold() then
      var start := GetOr(c.downSince, now);
      if DurationSince(now, start) >= config.downgradeAfter && c.tier.Lower().Some? then
        Evaluated(Controller(c.tier.Lower().value, None, None, now), ChangeTo(c.tier.Lower().value))
      else Evaluated(c.(downSince := Some(start), upSince := None), Hold)
    else if c.tier.Higher().None? then Evaluated(c.(downSince := None), Hold)
    else if bps >= c.tier.UpgradeThreshold() then
      var start := GetOr(c.upSince, now);
      if DurationSince(now, start) >= config.upgradeAfter then
        Evaluated(Controller(c.tier.Higher().value, None, None, now), ChangeTo(c.tier.Higher().value))
      else Evaluated(c.(downSince := None, upSince := Some(start)), Hold)
    else Evaluated(c.(downSince := None, upSince := None), Hold)
  }

  // ---- runs ----

  datatype Sample = Sample(now: real, bps: real)

  /** The controller after a run of evaluations, from a fresh one at `tier`. */
  function Run(config: AbrConfig, tier: QualityTier, t0: real, samples: seq<Sample>): Controller {
    if samples == [] then Controller(tier, None, None, t0)
    else
      var s := samples[|samples| - 1];
      Evaluate(config, Run(config, tier, t0, samples[..|samples| - 1]), s.now, s.bps).controller
  }

  /** The decision at evaluation `i` of a run. */
  function DecisionAt(config: AbrConfig, tier: QualityTier, t0: real, samples: seq<Sample>, i: nat): AbrDecision
    requires i < |samples|
  {
    Evaluate(config, Run(config, tier, t0, samples[..i]), samples[i].now, samples[i].bps).decision
  }

  predicate Monotone(t0: real, samples: seq<Sample>) {
    && (forall i | 0 <= i < |samples| :: t0 <= samples[i].now)
    && (forall i, j | 0 <= i < j < |samples| :: samples[i].now <= samples[j].now)
  }

  lemma RunTo(config: AbrConfig, tier: QualityTier, t0: real, samples: seq<Sample>, k: nat)
    requires k < |samples|
    ensures Run(config, tier, t0, samples[..k + 1]) ==
            Evaluate(config, Run(config, tier, t0, samples[..k]), samples[k].now, samples[k].bps).controller
  {
    hide Evaluate;
    var s := samples[..k + 1];
    assert s[..|s| - 1] == samples[..k] && s[|s| - 1] == samples[k];
  }

  /** The throughput is below half the bitrate of the tier. */
  predicate Under(t: QualityTier, bps: real) {
    match t
    case High => bps < 2_000_000.0
    case Medium => bps < 1_000_000.0
    case Low => bps < 500_000.0
    case Minimum => bps < 250_000.0
  }

  /** It is at or above nine tenths of it. */
  predicate Over(t: QualityTier, bps: real) {
    match t
    case High => bps >= 3_600_000.0
    case Medium => bps >= 1_800_000.0
    case Low => bps >= 900_000.0
    case Minimum => bps >= 450_000.0
  }

  predicate Verdict(t: QualityTier, bps: real, down: bool) {
    if down then Under(t, bps) else Over(t, bps)
  }

  predicate OneStep(from: QualityTier, to: QualityTier, down: bool) {
    if down then (from, to) in {(High, Medium), (Medium, Low), (Low, Minimum)}
    else (from, to) in {(Minimum, Low), (Low, Medium), (Medium, High)}
  }

  /** An unbroken run of evaluations: from `from` up to `to`, all at the tier of
  `c`, all with the same verdict, the first of them after the cooldown. */
  ghost predicate Evidence(config: AbrConfig, tier: QualityTier, t0: real, samples: seq<Sample>,
                           from: nat, to: nat, c: Controller, down: bool)
    requires from < to <= |samples|
  {
    && samples[from].now >= c.lastChange + config.cooldown
    && forall k | from <= k < to ::
         && Run(config, tier, t0, samples[..k]).tier == c.tier
         && Verdict(c.tier, samples[k].bps, down)
  }

  /** Each timer that is set began with such a run; never are both set. */
  ghost predicate Justified(config: AbrConfig, tier: QualityTier, t0: real, samples: seq<Sample>, k: nat)
    requires k <= |samples|
  {
    var c := Run(config, tier, t0, samples[..k]);
    && (c.downSince.Some? ==> exists j :: 0 <= j < k && samples[j].now == c.downSince.value
                                          && Evidence(config, tier, t0, samples, j, k, c, true))
    && (c.upSince.Some? ==> exists j :: 0 <= j < k && samples[j].now == c.upSince.value
                                        && Evidence(config, tier, t0, samples, j, k, c, false))
    && (c.downSince.None? || c.upSince.None?)
    && (c.upSince.Some? ==> c.tier.Higher().Some?)
    && t0 <= c.lastChange
    && forall j | k <= j < |samples| :: c.lastChange <= samples[j].now
  }

  /** `Evidence` reaches one evaluation further. */
  lemma EvidenceGrows(config: AbrConfig, tier: QualityTier, t0: real, samples: seq<Sample>,
                      from: nat, k: nat, c: Controller, down: bool)
    requires from <= k < |samples| && c.tier == Run(config, tier, t0, samples[..k]).tier
    requires from < k ==> Evidence(config, tier, t0, samples, from, k, c, down)
    requires from == k ==> samples[k].now >= c.lastChange + config.cooldown
    requires Verdict(c.tier, samples[k].bps, down)
    ensures Evidence(config, tier, t0, samples, from, k + 1, c, down)
  {
    hide Run;
  }

  lemma JustifiedStep(config: AbrConfig, tier: QualityTier, t0: real, samples: seq<Sample>, k: nat)
    requires k < |samples| && Monotone(t0, samples) && Justified(config, tier, t0, samples, k)
    ensures Justified(config, tier, t0, samples, k + 1)
  {
    hide Run, Evidence;
    var c, s := Run(config, tier, t0, samples[..k]), samples[k];
    var c' := Evaluate(config, c, s.now, s.bps).controller;
    RunTo(config, tier, t0, samples, k);
    TimersAfterCooldown(config, tier, t0, samples, k);
    if DurationSince(s.now, c.lastChange) < config.cooldown {
      assert c' == c;
    } else if c'.downSince.Some? {
      var j := if c.downSince.Some? then Began(config, tier, t0, samples, k, true) else k;
      EvidenceGrows(config, tier, t0, samples, j, k, c, true);
      SameBase(config, tier, t0, samples, j, k + 1, c, c', true);
    } else if c'.upSince.Some? {
      var j := if c.upSince.Some? then Began(config, tier, t0, samples, k, false) else k;
      EvidenceGrows(config, tier, t0, samples, j, k, c, false);
      SameBase(config, tier, t0, samples, j, k + 1, c, c', false);
    }
  }

  /** Where the pressure began. */
  ghost function Began(config: AbrConfig, tier: QualityTier, t0: real, samples: seq<Sample>, k: nat,
                       down: bool): (j: nat)
    requires k <= |samples| && Justified(config, tier, t0, samples, k)
    requires var c := Run(config, tier, t0, samples[..k]); if down then c.downSince.Some? else c.upSince.Some?
    ensures var c := Run(config, tier, t0, samples[..k]);
            && j < k && samples[j].now == (if down then c.downSince.value else c.upSince.value)
            && Evidence(config, tier, t0, samples, j, k, c, down)
  {
    var c := Run(config, tier, t0, samples[..k]);
    if down then
      var j :| 0 <= j < k && samples[j].now == c.downSince.value && Evidence(config, tier, t0, samples, j, k, c, true);
      j
    else
      var j :| 0 <= j < k && samples[j].now == c.upSince.value && Evidence(config, tier, t0, samples, j, k, c, false);
      j
  }

  lemma SameBase(config: AbrConfig, tier: QualityTier, t0: real, samples: seq<Sample>,
                 from: nat, to: nat, c: Controller, c': Controller, down: bool)
    requires from < to <= |samples| && c.tier == c'.tier && c.lastChange == c'.lastChange
    requires Evidence(config, tier, t0, samples, from, to, c, down)
    ensures Evidence(config, tier, t0, samples, from, to, c', down)
  {
    hide Run;
  }

  /** A timer that is set was set after the cooldown. */
  lemma TimersAfterCooldown(config: AbrConfig, tier: QualityTier, t0: real, samples: seq<Sample>, k: nat)
    requires k < |samples| && Monotone(t0, samples) && Justified(config, tier, t0, samples, k)
    ensures var c := Run(config, tier, t0, samples[..k]);
            c.downSince.Some? || c.upSince.Some? ==> DurationSince(samples[k].now, c.lastChange) >= config.cooldown
  {
    hide Run;
    var c := Run(config, tier, t0, samples[..k]);
    if c.downSince.Some? || c.upSince.Some? {
      var j := Began(config, tier, t0, samples, k, c.downSince.Some?);
      assert samples[j].now <= samples[k].now;
    }
  }

  lemma {:induction false} RunIsJustified(config: AbrConfig, tier: QualityTier, t0: real, samples: seq<Sample>, k: nat)
    requires k <= |samples| && Monotone(t0, samples)
    ensures Justified(config, tier, t0, samples, k)
    decreases k
  {
    if k == 0 {
      assert samples[..0] == [];
    } else {
      RunIsJustified(config, tier, t0, samples, k - 1);
      JustifiedStep(config, tier, t0, samples, k - 1);
    }
  }

  /** A change to the adjacent tier `to` at evaluation `i`, with its pressure
  unbroken since evaluation `j`. */
  ghost predicate JustifiedChange(config: AbrConfig, tier: QualityTier, t0: real, samples: seq<Sample>,
                                  i: nat, to: QualityTier, j: nat, down: bool)
    requires i < |samples|
  {
    var c := Run(config, tier, t0, samples[..i]);
    && j <= i
    && OneStep(c.tier, to, down)
    && samples[i].now - samples[j].now >= (if down then config.downgradeAfter else config.upgradeAfter)
    && Evidence(config, tier, t0, samples, j, i + 1, c, down)
  }

  /** Evidence for every change, in every run: a change is to an adjacent tier; it
  comes at the end of an unbroken run of evaluations at the old tier that lasted the
  configured time and all said the same, below half the bitrate for a downgrade, at
  or above nine tenths for an upgrade; and that run began after the cooldown. */
  lemma ChangeIsJustified(config: AbrConfig, tier: QualityTier, t0: real, samples: seq<Sample>, i: nat)
    requires i < |samples| && Monotone(t0, samples)
    requires DecisionAt(config, tier, t0, samples, i).ChangeTo?
    ensures exists j, down ::
      JustifiedChange(config, tier, t0, samples, i, DecisionAt(config, tier, t0, samples, i).tier, j, down)
  {
    hide Run, Evidence;
    RunIsJustified(config, tier, t0, samples, i);
    var c, s := Run(config, tier, t0, samples[..i]), samples[i];
    var down := Under(c.tier, s.bps);
    var j := if (if down then c.downSince.Some? else c.upSince.Some?)
             then Began(config, tier, t0, samples, i, down) else i;
    EvidenceGrows(config, tier, t0, samples, j, i, c, down);
    assert JustifiedChange(config, tier, t0, samples, i, DecisionAt(config, tier, t0, samples, i).tier, j, down);
  }

  function Since(c: Controller, down: bool): Option<real> {
    if down then c.downSince else c.upSince
  }

  /** What one evaluation after the cooldown does with a verdict that there is a tier for. */
  lemma VerdictCounts(config: AbrConfig, c: Controller, now: real, bps: real, to: QualityTier, down: bool)
    requires DurationSince(now, c.lastChange) >= config.cooldown && Verdict(c.tier, bps, down)
    requires OneStep(c.tier, to, down)
    ensures var e, start := Evaluate(config, c, now, bps), GetOr(Since(c, down), now);
            if DurationSince(now, start) >= Delay(config, !down)
            then e.decision == ChangeTo(to) && e.controller.tier == to
            else e.decision == Hold && Since(e.controller, down) == Some(start)
  {
  }

  lemma {:induction false} LastChangeMono(config: AbrConfig, tier: QualityTier, t0: real, samples: seq<Sample>, k: nat,
                                          i: nat)
    requires k <= i <= |samples| && Monotone(t0, samples)
    ensures Run(config, tier, t0, samples[..k]).lastChange <= Run(config, tier, t0, samples[..i]).lastChange
    decreases i - k
  {
    hide Run;
    if k < i {
      LastChangeMono(config, tier, t0, samples, k + 1, i);
      RunTo(config, tier, t0, samples, k);
      RunIsJustified(config, tier, t0, samples, k);
    }
  }

  /** The verdict at evaluation `k` of a stretch comes after the cooldown, and a timer that is set
  by then was set in the past. */
  lemma StretchFacts(config: AbrConfig, tier: QualityTier, t0: real, samples: seq<Sample>, i: nat, to: QualityTier,
                     j: nat, down: bool, k: nat)
    requires i < |samples| && Monotone(t0, samples) && j <= k <= i
    requires JustifiedChange(config, tier, t0, samples, i, to, j, down)
    ensures var c := Run(config, tier, t0, samples[..k]);
            && DurationSince(samples[k].now, c.lastChange) >= config.cooldown && Verdict(c.tier, samples[k].bps, down)
            && OneStep(c.tier, to, down) && (Since(c, down).Some? ==> Since(c, down).value <= samples[k].now)
  {
    hide Run;
    LastChangeMono(config, tier, t0, samples, k, i);
    RunIsJustified(config, tier, t0, samples, k);
    assert samples[j].now <= samples[k].now || j == k;
  }

  /** The timer has run since evaluation `j` of the stretch, at least. */
  lemma {:induction false} TimerRuns(config: AbrConfig, tier: QualityTier, t0: real, samples: seq<Sample>, i: nat,
                                     to: QualityTier, j: nat, down: bool, k: nat)
    requires i < |samples| && Monotone(t0, samples) && j < k <= i
    requires JustifiedChange(config, tier, t0, samples, i, to, j, down)
    ensures var c := Run(config, tier, t0, samples[..k]);
            Since(c, down).Some? && Since(c, down).value <= samples[j].now
    decreases k
  {
    hide Run, Evaluate;
    var c, s := Run(config, tier, t0, samples[..k - 1]), samples[k - 1];
    if k - 1 > j {
      TimerRuns(config, tier, t0, samples, i, to, j, down, k - 1);
    }
    StretchFacts(config, tier, t0, samples, i, to, j, down, k - 1);
    StretchFacts(config, tier, t0, samples, i, to, j, down, k);
    RunTo(config, tier, t0, samples, k - 1);
    VerdictCounts(config, c, s.now, s.bps, to, down);
  }

  /** Exactly when a change comes, in every run: if and only if such a stretch of evaluations
  ends here. None is missed, and none comes without. */
  lemma ChangesExactly(config: AbrConfig, tier: QualityTier, t0: real, samples: seq<Sample>, i: nat, to: QualityTier)
    requires i < |samples| && Monotone(t0, samples)
    ensures DecisionAt(config, tier, t0, samples, i) == ChangeTo(to)
            <==> exists j, down :: JustifiedChange(config, tier, t0, samples, i, to, j, down)
  {
    hide Run, Evaluate, JustifiedChange;
    if DecisionAt(config, tier, t0, samples, i) == ChangeTo(to) {
      ChangeIsJustified(config, tier, t0, samples, i);
    }
    forall j, down | JustifiedChange(config, tier, t0, samples, i, to, j, down)
      ensures DecisionAt(config, tier, t0, samples, i) == ChangeTo(to)
    {
      StretchChanges(config, tier, t0, samples, i, to, j, down);
    }
  }

  lemma StretchChanges(config: AbrConfig, tier: QualityTier, t0: real, samples: seq<Sample>, i: nat, to: QualityTier,
                       j: nat, down: bool)
    requires i < |samples| && Monotone(t0, samples)
    requires JustifiedChange(config, tier, t0, samples, i, to, j, down)
    ensures DecisionAt(config, tier, t0, samples, i) == ChangeTo(to)
  {
    hide Run, Evaluate;
    var c, s := Run(config, tier, t0, samples[..i]), samples[i];
    StretchFacts(config, tier, t0, samples, i, to, j, down, i);
    VerdictCounts(config, c, s.now, s.bps, to, down);
    if j < i {
      TimerRuns(config, tier, t0, samples, i, to, j, down, i);
    }
  }

  /** Spacing, in every run: a change comes at least the cooldown and its own delay
  after any earlier change. */
  lemma ChangeSpacing(config: AbrConfig, tier: QualityTier, t0: real, samples: seq<Sample>, i: nat, i': nat)
    requires i < i' < |samples| && Monotone(t0, samples)
    requires DecisionAt(config, tier, t0, samples, i).ChangeTo? && DecisionAt(config, tier, t0, samples, i').ChangeTo?
    ensures var delay := if Under(Run(config, tier, t0, samples[..i']).tier, samples[i'].bps)
                         then config.downgradeAfter else config.upgradeAfter;
            samples[i'].now - samples[i].now >= config.cooldown + delay
  {
    hide Run;
    LastChangeGrows(config, tier, t0, samples, i, i');
    ChangeIsJustified(config, tier, t0, samples, i');
    var next := DecisionAt(config, tier, t0, samples, i').tier;
    var j, down :| JustifiedChange(config, tier, t0, samples, i', next, j, down);
  }

  lemma {:induction false} LastChangeGrows(config: AbrConfig, tier: QualityTier, t0: real, samples: seq<Sample>,
                                           i: nat, k: nat)
    requires i < k <= |samples| && Monotone(t0, samples) && DecisionAt(config, tier, t0, samples, i).ChangeTo?
    ensures Run(config, tier, t0, samples[..k]).lastChange >= samples[i].now
    decreases k
  {
    hide Run;
    RunTo(config, tier, t0, samples, k - 1);
    if k > i + 1 {
      LastChangeGrows(config, tier, t0, samples, i, k - 1);
    }
  }

  // ---- constant throughput ----

  predicate WantsDown(tier: QualityTier, bps: real) {
    tier != Minimum && Under(tier, bps)
  }

  predicate WantsUp(tier: QualityTier, bps: real) {
    tier != High && Over(tier, bps)
  }

  /** No verdict at this throughput would change the tier. */
  predicate Settled(tier: QualityTier, bps: real) {
    !WantsDown(tier, bps) && !WantsUp(tier, bps)
  }

  /** Between nine tenths and the whole of a bitrate that has a tier above it. */
  predicate InBand(tier: QualityTier, bps: real) {
    match tier
    case High => false
    case Medium => 1_800_000.0 <= bps < 2_000_000.0
    case Low => 900_000.0 <= bps < 1_000_000.0
    case Minimum => 450_000.0 <= bps < 500_000.0
  }

  predicate OutsideBands(bps: real) {
    !InBand(Minimum, bps) && !InBand(Low, bps) && !InBand(Medium, bps)
  }

  function StableTier(bps: real): QualityTier {
    if bps >= 2_000_000.0 then High
    else if bps >= 1_000_000.0 then Medium
    else if bps >= 500_000.0 then Low
    else Minimum
  }

  /** A constant throughput has a settled tier exactly when it lies outside the
  bands, and then only one. Inside a band the tier of the band wants up and the one
  above it wants down. */
  lemma SettledTierExists(bps: real)
    ensures (exists t: QualityTier :: Settled(t, bps)) <==> OutsideBands(bps)
    ensures forall t | Settled(t, bps) :: t == StableTier(bps)
    ensures forall t | InBand(t, bps) :: WantsUp(t, bps) && WantsDown(t.Higher().value, bps)
  {
    if OutsideBands(bps) {
      assert Settled(StableTier(bps), bps);
    }
  }

  function Distance(t: QualityTier, bps: real): nat {
    var r, g := t.Rank(), StableTier(bps).Rank();
    if r < g then g - r else r - g
  }

  /** Outside the bands every change is one step towards the stable tier. */
  lemma ChangesApproach(config: AbrConfig, c: Controller, now: real, bps: real)
    requires OutsideBands(bps)
    ensures var e := Evaluate(config, c, now, bps);
            && (e.decision.Hold? ==> e.controller.tier == c.tier)
            && (e.decision.ChangeTo? ==> e.controller.tier == e.decision.tier
                                         && Distance(e.decision.tier, bps) + 1 == Distance(c.tier, bps))
  {
  }

  function Changes(config: AbrConfig, tier: QualityTier, t0: real, samples: seq<Sample>): nat {
    if samples == [] then 0
    else
      var init, i := samples[..|samples| - 1], |samples| - 1;
      Changes(config, tier, t0, init) + if DecisionAt(config, tier, t0, samples, i).ChangeTo? then 1 else 0
  }

  predicate Constant(samples: seq<Sample>, bps: real) {
    forall i | 0 <= i < |samples| :: samples[i].bps == bps
  }

  /** At a constant throughput outside the bands, every run from every tier changes
  exactly as often as it comes closer to the stable tier: all one way, at most three
  times. */
  lemma {:induction false} ChangesAreBounded(config: AbrConfig, tier: QualityTier, t0: real, samples: seq<Sample>,
                                             bps: real)
    requires Constant(samples, bps) && OutsideBands(bps)
    ensures var c := Run(config, tier, t0, samples);
            Changes(config, tier, t0, samples) + Distance(c.tier, bps) == Distance(tier, bps) <= 3
    decreases |samples|
  {
    hide Evaluate, Distance, OutsideBands;
    DistanceBound(tier, bps);
    if samples != [] {
      var init, s := samples[..|samples| - 1], samples[|samples| - 1];
      ChangesAreBounded(config, tier, t0, init, bps);
      ChangesApproach(config, Run(config, tier, t0, init), s.now, s.bps);
    }
  }

  lemma DistanceBound(tier: QualityTier, bps: real)
    ensures Distance(tier, bps) <= 3
    ensures Distance(tier, bps) == 0 <==> tier == StableTier(bps)
  {
  }

  function EndTime(t0: real, samples: seq<Sample>): real {
    if samples == [] then t0 else samples[|samples| - 1].now
  }

  // ---- inside a band ----

  lemma RunSnoc(config: AbrConfig, tier: QualityTier, t0: real, samples: seq<Sample>, s: Sample)
    ensures var e := Evaluate(config, Run(config, tier, t0, samples), s.now, s.bps);
            && Run(config, tier, t0, samples + [s]) == e.controller
            && Changes(config, tier, t0, samples + [s])
                == Changes(config, tier, t0, samples) + if e.decision.ChangeTo? then 1 else 0
  {
    hide Evaluate;
    var all := samples + [s];
    assert all[..|all| - 1] == samples && all[|all| - 1] == s && all[..|samples|] == samples;
  }

  /** A run that has just changed tier, or just begun. */
  ghost predicate JustChanged(config: AbrConfig, tier: QualityTier, t0: real, samples: seq<Sample>, bps: real,
                              now: QualityTier)
  {
    && Monotone(t0, samples) && Constant(samples, bps)
    && Run(config, tier, t0, samples) == Controller(now, None, None, EndTime(t0, samples))
  }

  function Delay(config: AbrConfig, up: bool): Duration {
    if up then config.upgradeAfter else config.downgradeAfter
  }

  /** The evaluations of one change: one right after the cooldown, which starts the timer,
  and one when the timer is up; without a delay the first does both. */
  function Turn(config: AbrConfig, from: real, up: bool, bps: real): seq<Sample> {
    if Delay(config, up) == 0.0 then [Sample(from + config.cooldown, bps)]
    else [Sample(from + config.cooldown, bps), Sample(from + config.cooldown + Delay(config, up), bps)]
  }

  predicate Wants(t: QualityTier, up: bool, bps: real) {
    if up then WantsUp(t, bps) else WantsDown(t, bps)
  }

  function Neighbour(t: QualityTier, up: bool): QualityTier
    requires if up then t.Higher().Some? else t.Lower().Some?
  {
    if up then t.Higher().value else t.Lower().value
  }

  /** The evaluation after the cooldown, from a fresh controller. */
  lemma FirstOfTurn(config: AbrConfig, t: QualityTier, from: real, up: bool, bps: real)
    requires Wants(t, up, bps)
    ensures var now := from + config.cooldown;
            Evaluate(config, Controller(t, None, None, from), now, bps)
            == if Delay(config, up) == 0.0
               then Evaluated(Controller(Neighbour(t, up), None, None, now), ChangeTo(Neighbour(t, up)))
               else if up then Evaluated(Controller(t, None, Some(now), from), Hold)
               else Evaluated(Controller(t, Some(now), None, from), Hold)
  {
  }

  /** The evaluation when the timer is up. */
  lemma SecondOfTurn(config: AbrConfig, t: QualityTier, from: real, up: bool, bps: real)
    requires Wants(t, up, bps)
    ensures var start, now := from + config.cooldown, from + config.cooldown + Delay(config, up);
            var c := if up then Controller(t, None, Some(start), from) else Controller(t, Some(start), None, from);
            Evaluate(config, c, now, bps)
                == Evaluated(Controller(Neighbour(t, up), None, None, now), ChangeTo(Neighbour(t, up)))
  {
  }

  lemma AppendSample(t0: real, samples: seq<Sample>, s: Sample, bps: real)
    requires Monotone(t0, samples) && Constant(samples, bps) && EndTime(t0, samples) <= s.now && s.bps == bps
    ensures Monotone(t0, samples + [s]) && Constant(samples + [s], bps) && EndTime(t0, samples + [s]) == s.now
  {
  }

  /** One change by one turn. */
  lemma TurnChanges(config: AbrConfig, tier: QualityTier, t0: real, samples: seq<Sample>, bps: real, t: QualityTier,
                    up: bool)
    requires JustChanged(config, tier, t0, samples, bps, t) && Wants(t, up, bps)
    ensures var more := samples + Turn(config, EndTime(t0, samples), up, bps);
            && JustChanged(config, tier, t0, more, bps, Neighbour(t, up))
            && Changes(config, tier, t0, more) == Changes(config, tier, t0, samples) + 1
  {
    hide Evaluate, Run, Changes, Monotone, Constant, Neighbour, Wants;
    var from := EndTime(t0, samples);
    var s1 := Sample(from + config.cooldown, bps);
    FirstOfTurn(config, t, from, up, bps);
    RunSnoc(config, tier, t0, samples, s1);
    AppendSample(t0, samples, s1, bps);
    if Delay(config, up) != 0.0 {
      var s2 := Sample(from + config.cooldown + Delay(config, up), bps);
      SecondOfTurn(config, t, from, up, bps);
      RunSnoc(config, tier, t0, samples + [s1], s2);
      AppendSample(t0, samples + [s1], s2, bps);
      assert samples + [s1] + [s2] == samples + [s1, s2];
    }
  }

  /** Up and down again, `n` times over. */
  function Alternation(config: AbrConfig, t0: real, bps: real, n: nat): seq<Sample> {
    if n == 0 then []
    else
      var before := Alternation(config, t0, bps, n - 1);
      var higher := before + Turn(config, EndTime(t0, before), true, bps);
      higher + Turn(config, EndTime(t0, higher), false, bps)
  }

  /** Inside a band the controller can alternate without end, whatever the delays and the
  cooldown: evaluated at the end of each cooldown and of each delay, it changes `2 * n` times
  in `n` cycles at the constant throughput. */
  lemma {:induction false} BandAlternates(config: AbrConfig, t: QualityTier, t0: real, bps: real, n: nat)
    requires InBand(t, bps)
    ensures var samples := Alternation(config, t0, bps, n);
            JustChanged(config, t, t0, samples, bps, t) && Changes(config, t, t0, samples) == 2 * n
    decreases n
  {
    hide JustChanged, Changes, Turn;
    if n == 0 {
      NothingChanged(config, t, t0, bps);
    } else {
      BandAlternates(config, t, t0, bps, n - 1);
      SettledTierExists(bps);
      var before := Alternation(config, t0, bps, n - 1);
      TurnChanges(config, t, t0, before, bps, t, true);
      TurnChanges(config, t, t0, before + Turn(config, EndTime(t0, before), true, bps), bps, t.Higher().value, false);
    }
  }

  lemma NothingChanged(config: AbrConfig, t: QualityTier, t0: real, bps: real)
    ensures JustChanged(config, t, t0, [], bps, t) && Changes(config, t, t0, []) == 0
  {
  }

  /** No run at this throughput, from any tier, changes more often. */
  ghost predicate ChangesWithin(config: AbrConfig, bps: real, bound: nat) {
    forall tier: QualityTier, t0: real, samples: seq<Sample> ::
      Monotone(t0, samples) && Constant(samples, bps) ==> AtMost(config, tier, t0, samples, bound)
  }

  predicate AtMost(config: AbrConfig, tier: QualityTier, t0: real, samples: seq<Sample>, bound: nat) {
    Changes(config, tier, t0, samples) <= bound
  }

  /** Under every configuration, the changes at a constant throughput are bounded over all
  runs and all starts if and only if the throughput lies outside the bands. */
  lemma ChangesBoundedExactly(config: AbrConfig, bps: real)
    ensures (exists bound: nat :: ChangesWithin(config, bps, bound)) <==> OutsideBands(bps)
  {
    hide Changes, Monotone, Constant, InBand, Alternation;
    if OutsideBands(bps) {
      forall tier: QualityTier, t0: real, samples: seq<Sample> | Monotone(t0, samples) && Constant(samples, bps)
        ensures AtMost(config, tier, t0, samples, 3)
      {
        ChangesAreBounded(config, tier, t0, samples, bps);
      }
      assert ChangesWithin(config, bps, 3);
    } else {
      var t: QualityTier :| InBand(t, bps);
      forall bound: nat
        ensures !ChangesWithin(config, bps, bound)
      {
        BandAlternates(config, t, 0.0, bps, bound + 1);
        assert !AtMost(config, t, 0.0, Alternation(config, 0.0, bps, bound + 1), bound);
      }
    }
  }

  /** Evaluations come at least every `gap`. */
  predicate Regular(t0: real, samples: seq<Sample>, gap: Duration) {
    samples == [] ||
    (&& Regular(t0, samples[..|samples| - 1], gap)
     && samples[|samples| - 1].now - EndTime(t0, samples[..|samples| - 1]) <= gap)
  }

  /** The longest one change can take. */
  function StepTime(config: AbrConfig, gap: Duration): Duration {
    var delay := if config.downgradeAfter < config.upgradeAfter then config.upgradeAfter else config.downgradeAfter;
    config.cooldown + delay + gap + gap
  }

  function Times(n: nat, d: Duration): Duration {
    if n == 0 then 0.0 else d + Times(n - 1, d)
  }

  /** Where a run at constant throughput stands on its way to the next change. */
  ghost predicate OnItsWay(config: AbrConfig, gap: Duration, bps: real, c: Controller, now: real) {
    && c.lastChange <= now
    && (c.tier == StableTier(bps) ||
        (match (if WantsDown(c.tier, bps) then c.downSince else c.upSince)
         case None => now <= c.lastChange + config.cooldown
         case Some(p) =>
           && c.lastChange + config.cooldown <= p <= c.lastChange + config.cooldown + gap
           && p <= now < p + (if WantsDown(c.tier, bps) then config.downgradeAfter else config.upgradeAfter)))
    && (WantsDown(c.tier, bps) ==> c.upSince.None?)
    && (WantsUp(c.tier, bps) ==> c.downSince.None?)
  }

  lemma OnItsWayStep(config: AbrConfig, gap: Duration, bps: real, c: Controller, t: real, now: real)
    requires OutsideBands(bps) && OnItsWay(config, gap, bps, c, t) && t <= now <= t + gap
    ensures var c' := Evaluate(config, c, now, bps).controller;
            && OnItsWay(config, gap, bps, c', now)
            && (c'.tier == c.tier ==> c'.lastChange == c.lastChange)
            && (c'.tier != c.tier ==> c'.lastChange <= c.lastChange + StepTime(config, gap))
  {
  }

  /** Convergence: at a constant throughput outside the bands, evaluated at least
  every `gap`, a controller started at any tier is at the stable tier for good once
  three steps' time has passed. */
  lemma Convergence(config: AbrConfig, tier: QualityTier, t0: real, samples: seq<Sample>, gap: Duration, bps: real)
    requires Constant(samples, bps) && OutsideBands(bps) && Monotone(t0, samples) && Regular(t0, samples, gap)
    requires EndTime(t0, samples) > t0 + Times(3, StepTime(config, gap))
    ensures Run(config, tier, t0, samples).tier == StableTier(bps)
  {
    hide Run, Distance, OnItsWay, Monotone, OutsideBands;
    Progress(config, tier, t0, samples, gap, bps);
    DistanceBound(tier, bps);
    DistanceBound(Run(config, tier, t0, samples).tier, bps);
    TimesMono(Distance(tier, bps), 3, StepTime(config, gap));
    TimesMono(Distance(tier, bps) - Distance(Run(config, tier, t0, samples).tier, bps), Distance(tier, bps),
        StepTime(config, gap));
  }

  lemma {:induction false} TimesMono(m: nat, n: nat, d: Duration)
    requires m <= n
    ensures Times(m, d) <= Times(n, d)
    decreases n
  {
    if m < n {
      TimesMono(m, n - 1, d);
    }
  }

  lemma {:induction false} Progress(config: AbrConfig, tier: QualityTier, t0: real, samples: seq<Sample>,
                                    gap: Duration, bps: real)
    requires Constant(samples, bps) && OutsideBands(bps) && Monotone(t0, samples) && Regular(t0, samples, gap)
    ensures var c := Run(config, tier, t0, samples);
            && OnItsWay(config, gap, bps, c, EndTime(t0, samples))
            && Distance(c.tier, bps) <= Distance(tier, bps)
            && c.lastChange <= t0 + Times(Distance(tier, bps) - Distance(c.tier, bps), StepTime(config, gap))
            && (c.tier != StableTier(bps) ==>
                  EndTime(t0, samples) <= t0
                      + Times(Distance(tier, bps) - Distance(c.tier, bps) + 1, StepTime(config, gap)))
    decreases |samples|
  {
    hide Evaluate, Distance, OutsideBands, OnItsWay;
    if samples == [] {
      Begins(config, tier, t0, gap, bps);
    } else {
      var init, s := samples[..|samples| - 1], samples[|samples| - 1];
      assert forall i | 0 <= i < |init| :: init[i] == samples[i];
      Progress(config, tier, t0, init, gap, bps);
      var c := Run(config, tier, t0, init);
      OnItsWayStep(config, gap, bps, c, EndTime(t0, init), s.now);
      ChangesApproach(config, c, s.now, s.bps);
    }
    if Run(config, tier, t0, samples).tier != StableTier(bps) {
      NotYetThere(config, gap, bps, Run(config, tier, t0, samples), EndTime(t0, samples));
    }
  }

  lemma Begins(config: AbrConfig, tier: QualityTier, t0: real, gap: Duration, bps: real)
    ensures OnItsWay(config, gap, bps, Controller(tier, None, None, t0), t0)
  {
  }

  lemma NotYetThere(config: AbrConfig, gap: Duration, bps: real, c: Controller, now: real)
    requires OnItsWay(config, gap, bps, c, now) && c.tier != StableTier(bps)
    ensures now <= c.lastChange + StepTime(config, gap)
  {
  }

  // ---- the controller in place ----

  class AbrController {
    var currentTier: QualityTier
    var downgradePressureSince: Option<real>
    var upgradePressureSince: Option<real>
    var lastChange: real
    const config: AbrConfig

    ghost function State(): Controller
      reads this
    {
      Controller(currentTier, downgradePressureSince, upgradePressureSince, lastChange)
    }

    /** new_at. */
    constructor (config: AbrConfig, tier: QualityTier, now: real)
      ensures this.config == config && State() == Controller(tier, None, None, now)
    {
      this.config := config;
      currentTier, downgradePressureSince, upgradePressureSince, lastChange := tier, None, None, now;
    }

    method EvaluateNow(throughputBps: real, now: real) returns (decision: AbrDecision)
      modifies this
      ensures Evaluated(State(), decision) == Evaluate(config, old(State()), now, throughputBps)
    {
      if DurationSince(now, lastChange) < config.cooldown {
        return Hold;
      }
      if throughputBps < currentTier.DowngradeThreshold() {
        upgradePressureSince := None;
        if downgradePressureSince.None? {
          downgradePressureSince := Some(now);
        }
        if DurationSince(now, downgradePressureSince.value) >= config.downgradeAfter {
          match currentTier.Lower() {
            case Some(lower) =>
              currentTier := lower;
              lastChange := now;
              downgradePressureSince := None;
              return ChangeTo(lower);
            case None =>
          }
        }
      } else {
        downgradePressureSince := None;
        match currentTier.Higher() {
          case Some(higher) =>
            if throughputBps >= currentTier.UpgradeThreshold() {
              if upgradePressureSince.None? {
                upgradePressureSince := Some(now);
              }
              if DurationSince(now, upgradePressureSince.value) >= config.upgradeAfter {
                currentTier := higher;
                lastChange := now;
                upgradePressureSince := None;
                return ChangeTo(higher);
              }
            } else {
              upgradePressureSince := None;
            }
          case None =>
        }
      }
      return Hold;
    }
  }
}
