/** How long a segment lasts, in times alone: time is cut into intervals of one segment
duration each, a segment holds frames of one of them, and the next interval begins a new one. */
module StorageWindows {
  import opened Bytes
  import opened Frames
  import opened Seqs
  import opened StorageSpec
  import opened StorageCodec
  import opened StorageViews
  import opened StorageRefinement
  import opened StorageCleanup
  import opened StorageOverlay
  import opened StorageQueries
  import opened StorageRuns

  // ---- intervals ----

  /** The time lies in interval number `k`. */
  predicate InInterval(us: nat, k: nat, duration: Duration) {
    k * duration <= us < (k + 1) * duration
  }

  ghost predicate SameInterval(a: nat, b: nat, duration: Duration) {
    exists k: nat :: InInterval(a, k, duration) && InInterval(b, k, duration)
  }

  lemma QuotientIs(us: nat, k: nat, duration: Duration)
    ensures InInterval(us, k, duration) <==> us / duration == k
  {
    var q, r := us / duration, us % duration;
    assert us == q * duration + r;
    if q < k {
      MulMono(q + 1, k, duration);
    } else if q > k {
      MulMono(k + 1, q, duration);
    }
  }

  /** The segment of a time starts with its interval. */
  lemma StartIs(us: U64, k: nat, duration: Duration)
    ensures InInterval(us, k, duration) <==> SegmentStart(us, duration) == k * duration
  {
    QuotientIs(us, k, duration);
    var q := us / duration;
    if q * duration == k * duration {
      TimesAtLeast(q - k, duration);
      TimesAtLeast(k - q, duration);
      assert (q - k) * duration == q * duration - k * duration && (k - q) * duration == k * duration - q * duration;
    }
  }

  lemma IntervalOf(us: U64, duration: Duration)
    ensures InInterval(us, us / duration, duration)
  {
    QuotientIs(us, us / duration, duration);
  }

  lemma SameStart(a: U64, b: U64, duration: Duration)
    ensures SameInterval(a, b, duration) <==> SegmentStart(a, duration) == SegmentStart(b, duration)
  {
    hide SegmentStart, InInterval;
    var k := a / duration;
    IntervalOf(a, duration);
    StartIs(a, k, duration);
    StartIs(b, k, duration);
    if SameInterval(a, b, duration) {
      var l: nat :| InInterval(a, l, duration) && InInterval(b, l, duration);
      StartIs(a, l, duration);
      StartIs(b, l, duration);
    }
  }

  // ---- the groups of any run ----

  /** All frames of the group lie in interval `k`. */
  predicate Lies(g: seq<Frame>, k: nat, duration: Duration) {
    g != [] && forall f :: f in g ==> InInterval(f.timestampUs, k, duration)
  }

  /** The group lies in one interval, and its file is named by the start of that. */
  ghost predicate InOne(g: seq<Frame>, duration: Duration) {
    exists k: nat :: Lies(g, k, duration) && WindowOf(g, duration) == k * duration
  }

  ghost predicate AllInOne(groups: seq<seq<Frame>>, duration: Duration) {
    forall i | 0 <= i < |groups| :: InOne(groups[i], duration)
  }

  lemma OneFrame(f: Frame, duration: Duration)
    ensures InOne([f], duration)
  {
    hide SegmentStart, InInterval;
    var k := f.timestampUs / duration;
    IntervalOf(f.timestampUs, duration);
    StartIs(f.timestampUs, k, duration);
    assert Lies([f], k, duration);
  }

  lemma OneMore(g: seq<Frame>, f: Frame, duration: Duration)
    requires InOne(g, duration) && WindowOf(g, duration) == SegmentStart(f.timestampUs, duration)
    ensures InOne(g + [f], duration)
  {
    hide SegmentStart, InInterval;
    var k: nat :| Lies(g, k, duration) && WindowOf(g, duration) == k * duration;
    StartIs(f.timestampUs, k, duration);
    assert (g + [f])[0] == g[0];
    assert Lies(g + [f], k, duration);
  }

  lemma StoreInOne(v: View, f: Frame, duration: Duration)
    requires AllInOne(Groups(v), duration)
    ensures AllInOne(Groups(StoreView(v, f, duration)), duration)
  {
    hide InOne, SegmentStart, WindowOf;
    OneFrame(f, duration);
    if v.open != [] {
      assert Groups(v)[|v.closed|] == v.open;
      assert forall i | 0 <= i < |v.closed| :: v.closed[i] == Groups(v)[i];
      if WindowOf(v.open, duration) == SegmentStart(f.timestampUs, duration) {
        OneMore(v.open, f, duration);
      }
    }
  }

  lemma {:induction false} KeepInOne(source: SourceId, groups: seq<seq<Frame>>, duration: Duration, beforeUs: U64,
                                     failing: set<Path>)
    requires AllInOne(groups, duration)
    ensures AllInOne(KeepGroups(source, groups, duration, beforeUs, failing), duration)
    decreases |groups|
  {
    hide InOne, Expired;
    if groups != [] {
      KeepInOne(source, groups[..|groups| - 1], duration, beforeUs, failing);
    }
  }

  lemma CleanInOne(source: SourceId, v: View, duration: Duration, beforeUs: U64, failing: set<Path>)
    requires AllInOne(Groups(v), duration)
    ensures AllInOne(Groups(CleanView(source, v, duration, beforeUs, failing)), duration)
  {
    hide InOne, KeepGroups;
    assert forall i | 0 <= i < |v.closed| :: v.closed[i] == Groups(v)[i];
    KeepInOne(source, v.closed, duration, beforeUs, failing);
    assert v.open != [] ==> Groups(v)[|v.closed|] == v.open;
  }

  /** In every run of stores at any times, flushes and cleanups, the frames of each segment lie
  in one interval of the segment duration, and its file is named by the start of that. */
  lemma {:induction false} SegmentsAreIntervals(ops: seq<Op>, source: SourceId, duration: Duration)
    ensures AllInOne(Groups(ViewOf(ops, source, duration)), duration)
    decreases |ops|
  {
    hide InOne, StoreView, CleanView, Groups;
    if ops == [] {
      NoneInOne(duration);
    } else {
      var before, op := ops[..|ops| - 1], ops[|ops| - 1];
      SegmentsAreIntervals(before, source, duration);
      var v := ViewOf(before, source, duration);
      match op
      case StoreOp(f) => StoreInOne(v, f, duration);
      case FlushOp(_) => CloseViewGroups(v);
      case CleanupOp(_, beforeUs, failing) => CleanInOne(source, v, duration, beforeUs, failing);
    }
  }

  lemma NoneInOne(duration: Duration)
    ensures AllInOne(Groups(NO_FRAMES), duration)
  {
  }

  /** A frame of the source was stored after the last flush that visited it. */
  predicate StoredSinceFlush(ops: seq<Op>, source: SourceId) {
    ops != [] &&
    match ops[|ops| - 1]
    case StoreOp(f) => f.source == source || StoredSinceFlush(ops[..|ops| - 1], source)
    case FlushOp(order) => source !in order && StoredSinceFlush(ops[..|ops| - 1], source)
    case CleanupOp(_, _, _) => StoredSinceFlush(ops[..|ops| - 1], source)
  }

  /** Then a segment is open, and ends with the newest frame. */
  lemma {:induction false} OpenExactly(ops: seq<Op>, source: SourceId, duration: Duration)
    ensures var open := ViewOf(ops, source, duration).open;
            && (open != [] <==> StoredSinceFlush(ops, source))
            && (open != [] ==> IsNewest(open[|open| - 1], ops, source))
    decreases |ops|
  {
    hide SegmentStart, KeepGroups;
    if ops != [] {
      OpenExactly(ops[..|ops| - 1], source, duration);
    }
  }

  predicate IsNewest(f: Frame, ops: seq<Op>, source: SourceId) {
    var frames := Recorded(ops, source);
    frames != [] && f == frames[|frames| - 1]
  }

  /** No flush came after the newest frame, and it lies in one interval with this one. */
  ghost predicate FollowsOn(f: Frame, ops: seq<Op>, duration: Duration) {
    var frames := Recorded(ops, f.source);
    && StoredSinceFlush(ops, f.source) && frames != []
    && SameInterval(frames[|frames| - 1].timestampUs, f.timestampUs, duration)
  }

  /** A stored frame goes to the segment of the frame before it if and only if no flush came
  between them and the two lie in one interval; otherwise it begins a new one. */
  lemma SegmentsBreakExactly(ops: seq<Op>, f: Frame, duration: Duration)
    ensures var v, v' := ViewOf(ops, f.source, duration), ViewOf(ops + [StoreOp(f)], f.source, duration);
            v' == if FollowsOn(f, ops, duration) then View(v.closed, v.open + [f]) else View(Groups(v), [f])
  {
    hide SegmentStart, SameInterval, InInterval, Groups, Recorded, StoredSinceFlush;
    var v := ViewOf(ops, f.source, duration);
    SnocParts(ops, StoreOp(f));
    OpenExactly(ops, f.source, duration);
    if v.open != [] {
      SegmentsAreIntervals(ops, f.source, duration);
      SameWindowAs(v, duration);
      SameStart(v.open[|v.open| - 1].timestampUs, f.timestampUs, duration);
    }
  }

  lemma SameWindowAs(v: View, duration: Duration)
    requires v.open != [] && AllInOne(Groups(v), duration)
    ensures WindowOf(v.open, duration) == SegmentStart(v.open[|v.open| - 1].timestampUs, duration)
  {
    hide SegmentStart, InInterval;
    assert Groups(v)[|v.closed|] == v.open;
    var k: nat :| Lies(v.open, k, duration) && WindowOf(v.open, duration) == k * duration;
    StartIs(v.open[|v.open| - 1].timestampUs, k, duration);
  }

  // ---- what can be queried before the next flush ----

  /** The frames before a time. */
  function Earlier(fs: seq<Frame>, us: nat): seq<Frame> {
    if fs == [] then []
    else (if fs[0].timestampUs < us then [fs[0]] else []) + Earlier(fs[1..], us)
  }

  lemma {:induction false} EarlierAppend(a: seq<Frame>, b: seq<Frame>, us: nat)
    ensures Earlier(a + b, us) == Earlier(a, us) + Earlier(b, us)
    decreases |a|
  {
    if a == [] {
      assert a + b == b;
    } else {
      EarlierAppend(a[1..], b, us);
      assert (a + b)[1..] == a[1..] + b;
      ConcatAssoc(if a[0].timestampUs < us then [a[0]] else [], Earlier(a[1..], us), Earlier(b, us));
    }
  }

  lemma {:induction false} EarlierFilter(fs: seq<Frame>, us: nat, startUs: U64, endUs: U64)
    ensures Earlier(FilterRange(fs, startUs, endUs), us) == FilterRange(Earlier(fs, us), startUs, endUs)
    decreases |fs|
  {
    if fs != [] {
      var one := if fs[0].timestampUs < us then [fs[0]] else [];
      EarlierFilter(fs[1..], us, startUs, endUs);
      FilterAppend(one, Earlier(fs[1..], us), startUs, endUs);
      EarlierAppend(FilterRange([fs[0]], startUs, endUs), FilterRange(fs[1..], startUs, endUs), us);
      FilterOne(fs[0], startUs, endUs);
      assert [fs[0]] + fs[1..] == fs;
    }
  }

  lemma {:induction false} AllEarlier(fs: seq<Frame>, us: nat)
    ensures (forall f :: f in fs ==> f.timestampUs < us) ==> Earlier(fs, us) == fs
    ensures (forall f :: f in fs ==> us <= f.timestampUs) ==> Earlier(fs, us) == []
    decreases |fs|
  {
    if fs != [] {
      AllEarlier(fs[1..], us);
      assert fs[0] in fs && forall f :: f in fs[1..] ==> f in fs;
    }
  }

  lemma {:induction false} FlattenIn(groups: seq<seq<Frame>>, f: Frame)
    requires f in Flatten(groups)
    ensures exists i :: 0 <= i < |groups| && f in groups[i]
    decreases |groups|
  {
    if f !in groups[0] {
      FlattenIn(groups[1..], f);
      var i :| 0 <= i < |groups[1..]| && f in groups[1..][i];
      assert f in groups[i + 1];
    }
  }

  /** The finished frames come before the interval of the open segment, the others in it. */
  lemma OpenInterval(v: View, duration: Duration, k: nat)
    requires GroupsOk(Groups(v), duration) && AllInOne(Groups(v), duration) && v.open != []
    requires InInterval(v.open[|v.open| - 1].timestampUs, k, duration)
    ensures forall f :: f in Flatten(v.closed) ==> f.timestampUs < k * duration
    ensures forall f :: f in v.open ==> k * duration <= f.timestampUs
  {
    hide Flatten, WindowOf, GroupOk, Sorted, InInterval;
    var groups := Groups(v);
    assert groups[|v.closed|] == v.open;
    var l: nat :| Lies(v.open, l, duration) && WindowOf(v.open, duration) == l * duration;
    SameNumber(v.open[|v.open| - 1].timestampUs, k, l, duration);
    forall f | f in v.open
      ensures k * duration <= f.timestampUs
    {
      Bounds(f.timestampUs, k, duration);
    }
    forall f | f in Flatten(v.closed)
      ensures f.timestampUs < k * duration
    {
      FlattenIn(v.closed, f);
      var i :| 0 <= i < |v.closed| && f in v.closed[i];
      assert groups[i] == v.closed[i] && InOne(groups[i], duration);
      assert Before(groups[i], groups[|v.closed|], duration);
      var m: nat :| Lies(groups[i], m, duration) && WindowOf(groups[i], duration) == m * duration;
      Bounds(f.timestampUs, m, duration);
      NextInterval(m, k, duration);
    }
  }

  lemma SameNumber(us: nat, k: nat, l: nat, duration: Duration)
    requires InInterval(us, k, duration) && InInterval(us, l, duration)
    ensures k == l
  {
    QuotientIs(us, k, duration);
    QuotientIs(us, l, duration);
  }

  lemma Bounds(us: nat, k: nat, duration: Duration)
    requires InInterval(us, k, duration)
    ensures k * duration <= us < (k + 1) * duration
  {
  }

  lemma NextInterval(m: nat, k: nat, duration: Duration)
    requires m * duration < k * duration
    ensures (m + 1) * duration <= k * duration
  {
    if k <= m {
      MulMono(k, m, duration);
    } else {
      MulMono(m + 1, k, duration);
    }
  }

  /** The frames of a source that a query can find: all, right after a flush; otherwise those
  before the interval of the newest frame. */
  function Queryable(ops: seq<Op>, source: SourceId, k: nat, duration: Duration): seq<Frame> {
    if StoredSinceFlush(ops, source) then Earlier(Recorded(ops, source), k * duration) else Recorded(ops, source)
  }

  /** Without waiting for a flush: after every safe run, with the newest frame in interval `k`, a
  query from a time that no cleanup cut off returns exactly the frames in range that are older
  than that interval, in stored order; when a flush came after the newest frame, all of them. */
  lemma QueryBeforeFlush(ops: seq<Op>, duration: Duration, source: SourceId, k: nat, startUs: U64, endUs: U64)
    requires Safe(ops, duration) && CleanedUpTo(ops, startUs) && Recorded(ops, source) != []
    requires var frames := Recorded(ops, source); InInterval(frames[|frames| - 1].timestampUs, k, duration)
    ensures GetFrames(Run(ops, duration), source, startUs, endUs)
         == Ok(FilterRange(Queryable(ops, source, k, duration), startUs, endUs))
  {
    hide Safe, CleanedUpTo, Rep, Own, GetFrames, FilterRange, Recorded, Run, ViewOf, Flatten, GroupsOk, AllInOne,
         InInterval, Earlier, StoredSinceFlush, WindowOf;
    var v, all, us := ViewOf(ops, source, duration), Recorded(ops, source), k * duration;
    RunRep(ops, duration, source);
    QueryIsFilter(Run(ops, duration), duration, source, v, startUs, endUs);
    ViewIsRecorded(ops, duration, source, startUs, endUs);
    OpenExactly(ops, source, duration);
    if v.open != [] {
      RepOk(Run(ops, duration), duration, source, v);
      SegmentsAreIntervals(ops, source, duration);
      OpenInterval(v, duration, k);
      FlattenSnoc(v.closed, v.open);
      EarlierFilter(all, us, startUs, endUs);
      EarlierFilter(Flatten(Groups(v)), us, startUs, endUs);
      EarlierAppend(Flatten(v.closed), v.open, us);
      AllEarlier(Flatten(v.closed), us);
      AllEarlier(v.open, us);
      assert Flatten(v.closed) + [] == Flatten(v.closed);
    }
  }

  // ---- what a cleanup removes ----

  /** A finished frame that outlasts a cleanup: one of its interval is not older than the cutoff,
  or the file system refuses to delete the interval's file. */
  ghost predicate Outlasts(f: Frame, finished: seq<Frame>, source: SourceId, duration: Duration, beforeUs: U64,
                           failing: set<Path>)
  {
    exists k: nat :: InInterval(f.timestampUs, k, duration)
      && (Path(source, k * duration) in failing || ReachedBy(finished, k, duration, beforeUs))
  }

  predicate ReachedBy(finished: seq<Frame>, k: nat, duration: Duration, beforeUs: U64) {
    exists g :: g in finished && InInterval(g.timestampUs, k, duration) && beforeUs <= g.timestampUs
  }

  /** Those of the frames that outlast the cleanup. */
  ghost function Outlasting(fs: seq<Frame>, finished: seq<Frame>, source: SourceId, duration: Duration, beforeUs: U64,
                            failing: set<Path>): seq<Frame>
  {
    if fs == [] then []
    else
      var init, f := Outlasting(fs[..|fs| - 1], finished, source, duration, beforeUs, failing), fs[|fs| - 1];
      if Outlasts(f, finished, source, duration, beforeUs, failing) then init + [f] else init
  }

  /** The frames of a finished group stand or fall together. */
  lemma GroupOutlasts(groups: seq<seq<Frame>>, i: nat, f: Frame, source: SourceId, duration: Duration, beforeUs: U64,
                      failing: set<Path>)
    requires GroupsOk(groups, duration) && AllInOne(groups, duration) && i < |groups| && f in groups[i]
    ensures Outlasts(f, Flatten(groups), source, duration, beforeUs, failing)
        <==> !Expired(source, groups[i], duration, beforeUs, failing)
  {
    hide Flatten, WindowOf, GroupOk, Sorted, InInterval, Before;
    var g, finished := groups[i], Flatten(groups);
    assert InOne(g, duration) && Sorted(g);
    var k: nat :| Lies(g, k, duration) && WindowOf(g, duration) == k * duration;
    FlattenHas(groups, i, g[|g| - 1]);
    if Outlasts(f, finished, source, duration, beforeUs, failing) {
      var l: nat :| InInterval(f.timestampUs, l, duration)
        && (Path(source, l * duration) in failing || ReachedBy(finished, l, duration, beforeUs));
      SameNumber(f.timestampUs, k, l, duration);
    }
    if ReachedBy(finished, k, duration, beforeUs) {
      var h :| h in finished && InInterval(h.timestampUs, k, duration) && beforeUs <= h.timestampUs;
      OnlyGroup(groups, i, k, h, duration);
      LastIsLatest(g, h);
    }
  }

  lemma LastIsLatest(g: seq<Frame>, f: Frame)
    requires Sorted(g) && f in g
    ensures f.timestampUs <= g[|g| - 1].timestampUs
  {
    var i :| 0 <= i < |g| && g[i] == f;
  }

  lemma {:induction false} FlattenHas(groups: seq<seq<Frame>>, i: nat, f: Frame)
    requires i < |groups| && f in groups[i]
    ensures f in Flatten(groups)
    decreases |groups|
  {
    if i > 0 {
      FlattenHas(groups[1..], i - 1, f);
    }
  }

  /** Ordered groups have an interval each. */
  lemma OnlyGroup(groups: seq<seq<Frame>>, i: nat, k: nat, f: Frame, duration: Duration)
    requires GroupsOk(groups, duration) && AllInOne(groups, duration) && i < |groups|
    requires WindowOf(groups[i], duration) == k * duration
    requires f in Flatten(groups) && InInterval(f.timestampUs, k, duration)
    ensures f in groups[i]
  {
    hide Flatten, WindowOf, GroupsOk, InInterval;
    FlattenIn(groups, f);
    var j :| 0 <= j < |groups| && f in groups[j];
    assert InOne(groups[j], duration);
    var l: nat :| Lies(groups[j], l, duration) && WindowOf(groups[j], duration) == l * duration;
    SameNumber(f.timestampUs, k, l, duration);
    OrderedDiffer(groups, duration);
  }

  lemma {:induction false} OutlastingAppend(a: seq<Frame>, b: seq<Frame>, finished: seq<Frame>, source: SourceId,
                                            duration: Duration, beforeUs: U64, failing: set<Path>)
    ensures Outlasting(a + b, finished, source, duration, beforeUs, failing)
         == Outlasting(a, finished, source, duration, beforeUs, failing)
          + Outlasting(b, finished, source, duration, beforeUs, failing)
    decreases |b|
  {
    hide Outlasts;
    if b == [] {
      assert a + b == a;
      var kept := Outlasting(a, finished, source, duration, beforeUs, failing);
      assert kept + [] == kept;
    } else {
      OutlastingAppend(a, b[..|b| - 1], finished, source, duration, beforeUs, failing);
      assert (a + b)[..|a + b| - 1] == a + b[..|b| - 1];
    }
  }

  lemma {:induction false} OutlastingAll(fs: seq<Frame>, finished: seq<Frame>, source: SourceId, duration: Duration,
                                         beforeUs: U64, failing: set<Path>, all: bool)
    requires forall f :: f in fs ==> Outlasts(f, finished, source, duration, beforeUs, failing) == all
    ensures Outlasting(fs, finished, source, duration, beforeUs, failing) == if all then fs else []
    decreases |fs|
  {
    hide Outlasts;
    if fs != [] {
      OutlastingAll(fs[..|fs| - 1], finished, source, duration, beforeUs, failing, all);
    }
  }

  /** The groups that a cleanup keeps hold the frames that outlast it. */
  lemma {:induction false} KeptOutlast(groups: seq<seq<Frame>>, n: nat, source: SourceId, duration: Duration,
                                       beforeUs: U64, failing: set<Path>)
    requires GroupsOk(groups, duration) && AllInOne(groups, duration) && n <= |groups|
    ensures Flatten(KeepGroups(source, groups[..n], duration, beforeUs, failing))
         == Outlasting(Flatten(groups[..n]), Flatten(groups), source, duration, beforeUs, failing)
    decreases n
  {
    hide Flatten, GroupsOk, AllInOne, Expired, Outlasts, Outlasting;
    if n == 0 {
      NothingOutlasts(groups, source, duration, beforeUs, failing);
    } else {
      KeptOutlast(groups, n - 1, source, duration, beforeUs, failing);
      var g, finished := groups[n - 1], Flatten(groups);
      SnocParts(groups[..n - 1], g);
      assert groups[..n] == groups[..n - 1] + [g];
      FlattenSnoc(groups[..n - 1], g);
      OutlastingAppend(Flatten(groups[..n - 1]), g, finished, source, duration, beforeUs, failing);
      forall f | f in g
        ensures Outlasts(f, finished, source, duration, beforeUs, failing)
            == !Expired(source, g, duration, beforeUs, failing)
      {
        GroupOutlasts(groups, n - 1, f, source, duration, beforeUs, failing);
      }
      OutlastingAll(g, finished, source, duration, beforeUs, failing,
          !Expired(source, g, duration, beforeUs, failing));
      var kept := KeepGroups(source, groups[..n - 1], duration, beforeUs, failing);
      FlattenSnoc(kept, g);
      assert Flatten(kept) + [] == Flatten(kept);
    }
  }

  lemma NothingOutlasts(groups: seq<seq<Frame>>, source: SourceId, duration: Duration, beforeUs: U64,
                        failing: set<Path>)
    ensures Flatten(KeepGroups(source, groups[..0], duration, beforeUs, failing)) == []
    ensures Outlasting(Flatten(groups[..0]), Flatten(groups), source, duration, beforeUs, failing) == []
  {
  }

  /** Cleanup removes exactly what is too old: after every safe run, a cleanup that visits the
  source keeps, of the frames that could be queried, those of the intervals with a finished frame
  at or after the cutoff, or with a file that cannot be deleted; and no others, in any range. */
  lemma CleanupRemovesExactly(ops: seq<Op>, duration: Duration, order: seq<SourceId>, beforeUs: U64, failing: set<Path>,
                              source: SourceId, startUs: U64, endUs: U64)
    requires Safe(ops, duration) && source in order
    ensures var st := Run(ops, duration);
            && GetFrames(st, source, 0, MAX_TIME).Ok?
            && var finished := GetFrames(st, source, 0, MAX_TIME).value;
            GetFrames(CleanupIn(st, order, beforeUs, failing), source, startUs, endUs)
            == Ok(FilterRange(Outlasting(finished, finished, source, duration, beforeUs, failing), startUs, endUs))
  {
    hide Safe, Rep, Own, GetFrames, FilterRange, Flatten, GroupsOk, AllInOne, CleanupIn, ViewOf, KeepGroups, Outlasting,
         Run;
    var st, v := Run(ops, duration), ViewOf(ops, source, duration);
    RunRep(ops, duration, source);
    QueryIsFilter(st, duration, source, v, 0, MAX_TIME);
    FilterEverything(Flatten(v.closed));
    CleanupRep(st, duration, order, beforeUs, failing, source, v);
    QueryIsFilter(CleanupIn(st, order, beforeUs, failing), duration, source,
        CleanView(source, v, duration, beforeUs, failing), startUs, endUs);
    RepOk(st, duration, source, v);
    ClosedOk(v, duration);
    SegmentsAreIntervals(ops, source, duration);
    ClosedInOne(v, duration);
    KeptOutlast(v.closed, |v.closed|, source, duration, beforeUs, failing);
    assert v.closed[..|v.closed|] == v.closed;
  }

  lemma ClosedInOne(v: View, duration: Duration)
    requires AllInOne(Groups(v), duration)
    ensures AllInOne(v.closed, duration)
  {
    hide InOne;
    assert forall i | 0 <= i < |v.closed| :: v.closed[i] == Groups(v)[i];
  }
}
