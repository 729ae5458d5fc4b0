/** Storing in any order of time: exactly when every query is right.

Two things go wrong. Queries skip a segment by the times of its first and its last frame
(`end_time_us = frame.timestamp_us`), so frames that do not lie between the two are missed.
And opening a segment again erases what its window held. */
module StorageReopen {
  import opened Bytes
  import opened Frames
  import opened Seqs
  import opened StorageSpec
  import opened StorageCodec
  import opened StorageViews
  import opened StorageRefinement
  import opened StorageOverlay
  import opened StorageQueries
  import opened StorageRuns

  // ---- what queries return ----

  lemma ClosedHold(st: Store, duration: Duration, source: SourceId, v: View)
    requires Overlaid(st, duration, source, v) && v.open == []
    ensures AllHold(st.files, Segments(st, source), v.closed, Contents(v.closed, duration))
  {
    hide GroupOk, WindowOf, LatestOf, Records, ParseRecords, AfterHeader, Contents, Holds, FileHolds, EntryOf;
    var segs, contents := Segments(st, source), Contents(v.closed, duration);
    forall i | 0 <= i < |segs|
      ensures Holds(st.files, segs[i], v.closed[i], contents[i])
    {
      assert EntryOf(segs[i], source, v.closed[i], duration);
      LatestIsStorable(v.closed, i, duration);
      HeldParses(st.files, segs[i], source, v.closed[i], contents[i], duration);
    }
  }

  lemma HeldParses(files: map<Path, seq<Byte>>, seg: SegmentIndex, source: SourceId, g: seq<Frame>,
                   content: seq<Frame>, duration: Duration)
    requires EntryOf(seg, source, g, duration) && GroupOk(content)
    requires FileHolds(files, PathOf(source, g, duration), content)
    ensures Holds(files, seg, g, content)
  {
    hide Records, ParseRecords, SegmentFile;
    RecordsParse(content);
  }

  lemma LatestIsStorable(groups: seq<seq<Frame>>, i: nat, duration: Duration)
    requires i < |groups| && forall k | 0 <= k < |groups| :: GroupOk(groups[k])
    ensures GroupOk(Contents(groups, duration)[i])
  {
    hide GroupOk, WindowOf;
    LatestIsOne(groups, i, duration);
  }

  lemma {:induction false} LatestIsOne(groups: seq<seq<Frame>>, i: nat, duration: Duration)
    requires i < |groups|
    ensures exists k :: 0 <= k < |groups| && LatestOf(groups, WindowOf(groups[i], duration), duration) == groups[k]
    decreases |groups|
  {
    hide WindowOf;
    var init, n := groups[..|groups| - 1], |groups| - 1;
    if WindowOf(groups[n], duration) != WindowOf(groups[i], duration) {
      LatestIsOne(init, i, duration);
      var k :| 0 <= k < |init| && LatestOf(init, WindowOf(init[i], duration), duration) == init[k];
      assert groups[k] == init[k];
    }
  }

  /** The frames that queries find are those that were written. */
  predicate Faithful(groups: seq<seq<Frame>>, duration: Duration) {
    var contents := Contents(groups, duration);
    && SortByTime(Flatten(contents)) == SortByTime(Flatten(groups))
    && forall i | 0 <= i < |groups| :: Between(contents[i], groups[i])
  }

  /** Closed segments answer every query as the frames that were written if and only if the
  newest group of each window, once for each time that the window was opened, give the same
  sorted list, and each lies within the bounds of every group of its window. */
  lemma ClosedExactly(st: Store, duration: Duration, source: SourceId, v: View)
    requires Overlaid(st, duration, source, v) && v.open == []
    ensures Answers(st, source, Flatten(v.closed)) <==> Faithful(v.closed, duration)
  {
    hide Overlaid, Contents, Flatten, SortByTime, Between, AllHold, Answers;
    ClosedHold(st, duration, source, v);
    QueriesExactly(st, source, v.closed, Contents(v.closed, duration), Flatten(v.closed));
  }

  /** Where no window was opened twice, all that matters is that the frames of each group lie
  between its first and its last. */
  lemma OnceOpened(groups: seq<seq<Frame>>, duration: Duration)
    requires WindowsDiffer(groups, duration)
    ensures Faithful(groups, duration) <==> forall i | 0 <= i < |groups| :: Within(groups[i])
  {
    hide WindowsDiffer, Contents, Flatten, SortByTime, Between;
    DifferingContents(groups, duration);
  }

  // ---- one frame more ----

  function StoreAndClose(st: Store, f: Frame, duration: Duration): Store {
    CloseWriter(StoreFrame(st, f, duration), f.source)
  }

  lemma StoredAndClosed(st: Store, duration: Duration, v: View, f: Frame)
    requires Overlaid(st, duration, f.source, v) && Fits(v, f)
    ensures var v' := View(Groups(StoreView(v, f, duration)), []);
            Overlaid(StoreAndClose(st, f, duration), duration, f.source, v')
  {
    hide Overlaid, StoreFrame, CloseWriter, StoreView, Fits;
    StoreOverlaid(st, duration, v, f);
    CloseOverlaid(StoreFrame(st, f, duration), duration, f.source, StoreView(v, f, duration));
  }

  /** What the entries show after a frame came first in its segment: whatever the window held
  is gone, and the frame is there once for each entry of the window. */
  function Overwritten(groups: seq<seq<Frame>>, f: Frame, duration: Duration): seq<seq<Frame>> {
    var window, contents := SegmentStart(f.timestampUs, duration), Contents(groups, duration);
    seq(|groups|, i requires 0 <= i < |groups| =>
      if WindowOf(groups[i], duration) == window then [f] else contents[i]) + [[f]]
  }

  /** A frame of a window other than the open one, if any: what its window held is gone, the
  frame is returned once for each finished segment of the window and once more, and nothing
  else changes. */
  lemma ReopenedWindowLosesFrames(st: Store, duration: Duration, v: View, f: Frame)
    requires Overlaid(st, duration, f.source, v) && Fits(v, f) && !Continues(v, f, duration)
    ensures GetFrames(StoreAndClose(st, f, duration), f.source, 0, MAX_TIME)
         == Ok(SortByTime(Flatten(Overwritten(Groups(v), f, duration))))
  {
    hide Overlaid, Fits, Contents, Flatten, SortByTime, StoreAndClose, ReadSegments, Segments, AllHold, SegmentStart;
    var st', groups := StoreAndClose(st, f, duration), Groups(v) + [[f]];
    StoredAndClosed(st, duration, v, f);
    ClosedHold(st', duration, f.source, View(groups, []));
    var contents := Contents(groups, duration);
    ReadSegmentsShown(st'.files, Segments(st', f.source), groups, contents, 0, MAX_TIME);
    ShowAll(groups, contents);
    OverwrittenContents(Groups(v), f, duration);
  }

  lemma OverwrittenContents(groups: seq<seq<Frame>>, f: Frame, duration: Duration)
    ensures Contents(groups + [[f]], duration) == Overwritten(groups, f, duration)
  {
    hide Contents, SegmentStart;
    ContentsSnoc(groups, [f], duration);
  }

  /** The frames that do no harm to a store in which no window was opened twice. */
  predicate Harmless(v: View, f: Frame, duration: Duration) {
    if Continues(v, f, duration) then AllWithin(v.closed + [v.open + [f]])
    else AllWithin(Groups(v)) && Untouched(Groups(v), f, duration)
  }

  predicate AllWithin(groups: seq<seq<Frame>>) {
    forall i | 0 <= i < |groups| :: Within(groups[i])
  }

  /** A finished segment of the frame's window holds that same frame alone. */
  predicate Untouched(groups: seq<seq<Frame>>, f: Frame, duration: Duration) {
    var window := SegmentStart(f.timestampUs, duration);
    forall i | 0 <= i < |groups| && WindowOf(groups[i], duration) == window :: groups[i] == [f]
  }

  /** Whatever a store holds, once a frame of any time is stored and its segment closed: when
  all queries answer as the frames stored so far, filtered and sorted. */
  lemma StoreAnswersExactly(st: Store, duration: Duration, v: View, f: Frame)
    requires Overlaid(st, duration, f.source, v) && Fits(v, f)
    ensures Answers(StoreAndClose(st, f, duration), f.source, Flatten(Groups(v)) + [f])
            <==> Faithful(Groups(StoreView(v, f, duration)), duration)
  {
    hide Overlaid, Fits, Contents, Flatten, StoreAndClose, Answers, Faithful, StoreView, Groups;
    StoredAndClosed(st, duration, v, f);
    ClosedExactly(StoreAndClose(st, f, duration), duration, f.source, View(Groups(StoreView(v, f, duration)), []));
    StoreViewFlatten(v, f, duration);
  }

  /** If no window was opened twice so far, they do so if and only if every finished segment
  holds frames between its first and its last only and the frame does no harm: it comes to lie
  so in the open segment, or it opens a window that has no finished segment, but for one with
  that same frame alone. */
  lemma StoreKeepsAllExactly(st: Store, duration: Duration, v: View, f: Frame)
    requires Overlaid(st, duration, f.source, v) && Fits(v, f) && WindowsDiffer(Groups(v), duration)
    ensures Answers(StoreAndClose(st, f, duration), f.source, Flatten(Groups(v)) + [f]) <==> Harmless(v, f, duration)
  {
    hide Overlaid, Fits, Contents, Flatten, StoreAndClose, Answers, Faithful, SegmentStart, WindowsDiffer, Within,
         Untouched;
    StoreAnswersExactly(st, duration, v, f);
    if Continues(v, f, duration) {
      GrownDiffer(v.closed, v.open, f, duration);
      OnceOpened(v.closed + [v.open + [f]], duration);
    } else if Untouched(Groups(v), f, duration) {
      UntouchedExactly(Groups(v), f, duration);
    } else {
      TouchedLoses(Groups(v), f, duration);
    }
  }

  lemma GrownDiffer(closed: seq<seq<Frame>>, open: seq<Frame>, f: Frame, duration: Duration)
    requires open != [] && WindowsDiffer(closed + [open], duration)
    ensures WindowsDiffer(closed + [open + [f]], duration)
  {
    hide SegmentStart;
    var groups, grown := closed + [open], closed + [open + [f]];
    assert (open + [f])[0] == open[0];
    forall i, j | 0 <= i < j < |grown|
      ensures WindowOf(grown[i], duration) != WindowOf(grown[j], duration)
    {
      assert WindowOf(groups[i], duration) != WindowOf(groups[j], duration);
    }
  }

  lemma UntouchedExactly(groups: seq<seq<Frame>>, f: Frame, duration: Duration)
    requires WindowsDiffer(groups, duration) && Untouched(groups, f, duration)
    ensures Faithful(groups + [[f]], duration) <==> AllWithin(groups)
  {
    hide Contents, SegmentStart, WindowOf, SortByTime, Flatten, Between;
    var all := groups + [[f]];
    DifferingContents(groups, duration);
    OverwrittenContents(groups, f, duration);
    assert Overwritten(groups, f, duration) == all;
    OneIsWithin(f);
    if AllWithin(groups) {
      forall i | 0 <= i < |all|
        ensures Between(all[i], all[i])
      {
        assert i < |groups| ==> Within(groups[i]);
      }
    } else {
      var i :| 0 <= i < |groups| && !Within(groups[i]);
      assert all[i] == groups[i];
    }
  }

  lemma OneIsWithin(f: Frame)
    ensures Within([f])
  {
  }

  lemma TouchedLoses(groups: seq<seq<Frame>>, f: Frame, duration: Duration)
    requires WindowsDiffer(groups, duration) && !Untouched(groups, f, duration)
    ensures !Faithful(groups + [[f]], duration)
  {
    hide Contents, SegmentStart, WindowOf, SortByTime, Flatten, Between;
    var window := SegmentStart(f.timestampUs, duration);
    var i :| 0 <= i < |groups| && WindowOf(groups[i], duration) == window && groups[i] != [f];
    DifferingContents(groups, duration);
    OverwrittenContents(groups, f, duration);
    assert Overwritten(groups, f, duration) == groups[i := [f]] + [[f]];
    OverwrittenLoses(groups, i, f);
    FlattenSnoc(groups, [f]);
  }

  lemma FlattenParts(groups: seq<seq<Frame>>)
    requires groups != []
    ensures multiset(Flatten(groups)) == multiset(groups[0]) + multiset(Flatten(groups[1..]))
  {
    assert Flatten(groups) == groups[0] + Flatten(groups[1..]);
  }

  lemma {:induction false} FlattenUpdate(groups: seq<seq<Frame>>, i: nat, g: seq<Frame>)
    requires i < |groups|
    ensures multiset(Flatten(groups[i := g])) + multiset(groups[i]) == multiset(Flatten(groups)) + multiset(g)
    decreases |groups|
  {
    hide Flatten;
    var updated := groups[i := g];
    FlattenParts(groups);
    FlattenParts(updated);
    if i == 0 {
      assert updated[1..] == groups[1..];
    } else {
      assert updated[1..] == groups[1..][i - 1 := g];
      FlattenUpdate(groups[1..], i - 1, g);
      Swapped(multiset(groups[0]), multiset(Flatten(updated[1..])), multiset(groups[i]), multiset(Flatten(groups[1..])),
          multiset(g));
    }
  }

  lemma Swapped(first: multiset<Frame>, a: multiset<Frame>, x: multiset<Frame>, b: multiset<Frame>, y: multiset<Frame>)
    requires a + x == b + y
    ensures (first + a) + x == (first + b) + y
  {
    assert (first + a) + x == first + (a + x);
  }

  lemma OnlyFrame(g: seq<Frame>, f: Frame)
    ensures multiset(g) == multiset{f} <==> g == [f]
  {
    if multiset(g) == multiset{f} {
      assert |multiset(g)| == |g|;
      assert g[0] in multiset(g);
      assert g == [g[0]];
    }
  }

  /** The frames shown after a reopening are those stored only if the window held the same
  frame alone. */
  lemma OverwrittenLoses(groups: seq<seq<Frame>>, i: nat, f: Frame)
    requires i < |groups|
    ensures SortByTime(Flatten(groups[i := [f]] + [[f]])) == SortByTime(Flatten(groups) + [f]) ==> groups[i] == [f]
  {
    hide Flatten, SortByTime;
    SortKeepsFrames(Flatten(groups[i := [f]] + [[f]]));
    SortKeepsFrames(Flatten(groups) + [f]);
    FlattenSnoc(groups[i := [f]], [f]);
    FlattenUpdate(groups, i, [f]);
    OnlyFrame(groups[i], f);
    var before, after := Flatten(groups), Flatten(groups[i := [f]]);
    assert multiset(before + [f]) == multiset(before) + multiset{f};
    assert multiset(after + [f]) == multiset(after) + multiset{f};
    if multiset(before + [f]) == multiset(after + [f]) {
      SameRest(multiset(before), multiset(after), multiset(groups[i]), f);
    }
  }

  lemma SameRest(before: multiset<Frame>, after: multiset<Frame>, g: multiset<Frame>, f: Frame)
    requires before + multiset{f} == after + multiset{f} && after + g == before + multiset{f}
    ensures g == multiset{f}
  {
    assert before == before + multiset{f} - multiset{f} && after == after + multiset{f} - multiset{f};
    assert g == after + g - after && multiset{f} == before + multiset{f} - before;
  }

  // ---- whole runs ----

  /** A run of stores at any times, and flushes; of the source's frames, each fits. */
  predicate Storing(ops: seq<Op>, source: SourceId, duration: Duration) {
    ops == []
    || (var before, op := ops[..|ops| - 1], ops[|ops| - 1];
        && Storing(before, source, duration) && !op.CleanupOp?
        && (op.StoreOp? && op.f.source == source ==> Fits(ViewOf(before, source, duration), op.f)))
  }

  lemma EmptyOverlaid(duration: Duration, source: SourceId)
    ensures Own(EMPTY) && Overlaid(EMPTY, duration, source, NO_FRAMES)
  {
  }

  lemma {:induction false} FlushOverlaid(st: Store, duration: Duration, order: seq<SourceId>, source: SourceId, v: View)
    requires Own(st) && Overlaid(st, duration, source, v)
    ensures Own(FlushIn(st, order))
    ensures Overlaid(FlushIn(st, order), duration, source, if source in order then CloseView(v) else v)
    decreases |order|
  {
    hide Overlaid, Own, CloseWriter, SameFor;
    if order != [] {
      var init, s := order[..|order| - 1], order[|order| - 1];
      FlushOverlaid(st, duration, init, source, v);
      assert order == init + [s];
      var st', v' := FlushIn(st, init), if source in init then CloseView(v) else v;
      CloseOwn(st', s);
      if s == source {
        CloseOverlaid(st', duration, source, v');
      } else {
        CloseFrame(st', s, source);
        OverlaidFrame(st', CloseWriter(st', s), duration, source, v');
      }
    }
  }

  /** Every such run leaves each source as its groups say, in whatever order they came. */
  lemma {:induction false} RunOverlaid(ops: seq<Op>, duration: Duration, source: SourceId)
    requires Storing(ops, source, duration)
    ensures Own(Run(ops, duration)) && Overlaid(Run(ops, duration), duration, source, ViewOf(ops, source, duration))
    ensures Flatten(Groups(ViewOf(ops, source, duration))) == Recorded(ops, source)
    decreases |ops|
  {
    hide Own, Overlaid, Fits, SameFor, StoreFrame, FlushIn, StoreView, CloseView, Groups, Flatten;
    if ops == [] {
      EmptyOverlaid(duration, source);
      NoGroups();
    } else {
      var before, op := ops[..|ops| - 1], ops[|ops| - 1];
      RunOverlaid(before, duration, source);
      var st, v := Run(before, duration), ViewOf(before, source, duration);
      match op
      case StoreOp(f) =>
        StoreFrameFrame(st, f, duration, source);
        if f.source == source {
          StoreOverlaid(st, duration, v, f);
          StoreViewFlatten(v, f, duration);
        } else {
          OverlaidFrame(st, StoreFrame(st, f, duration), duration, source, v);
        }
      case FlushOp(order) =>
        FlushOverlaid(st, duration, order, source, v);
        CloseViewGroups(v);
    }
  }

  lemma RunFlushed(ops: seq<Op>, duration: Duration, order: seq<SourceId>, source: SourceId)
    requires Storing(ops, source, duration) && source in order
    ensures var groups := Groups(ViewOf(ops, source, duration));
            && Overlaid(FlushIn(Run(ops, duration), order), duration, source, View(groups, []))
            && Flatten(groups) == Recorded(ops, source)
  {
    hide Own, Overlaid, FlushIn, Run, ViewOf, Storing, Flatten, Recorded;
    RunOverlaid(ops, duration, source);
    FlushOverlaid(Run(ops, duration), duration, order, source, ViewOf(ops, source, duration));
  }

  /** What any query returns after any such run and a flush that visits the source: of each
  group whose bounds overlap the range, what its window's file holds now. */
  lemma QueriesInEveryRun(ops: seq<Op>, duration: Duration, order: seq<SourceId>, source: SourceId, startUs: U64,
                          endUs: U64)
    requires Storing(ops, source, duration) && source in order
    ensures var groups := Groups(ViewOf(ops, source, duration));
            GetFrames(FlushIn(Run(ops, duration), order), source, startUs, endUs)
                == Ok(SortByTime(Shown(groups, Contents(groups, duration), startUs, endUs)))
  {
    hide Overlaid, FlushIn, Run, ViewOf, Storing, Shown, Contents, SortByTime, AllHold, ReadSegments, Segments;
    var st, groups := FlushIn(Run(ops, duration), order), Groups(ViewOf(ops, source, duration));
    RunFlushed(ops, duration, order, source);
    ClosedHold(st, duration, source, View(groups, []));
    ReadSegmentsShown(st.files, Segments(st, source), groups, Contents(groups, duration), startUs, endUs);
  }

  /** For every run of stores, at any times and of any sources, and flushes, and then a flush
  that visits the source: when every query of it answers as the frames recorded for it. */
  lemma RunAnswersExactly(ops: seq<Op>, duration: Duration, order: seq<SourceId>, source: SourceId)
    requires Storing(ops, source, duration) && source in order
    ensures Answers(FlushIn(Run(ops, duration), order), source, Recorded(ops, source))
            <==> Faithful(Groups(ViewOf(ops, source, duration)), duration)
  {
    hide Overlaid, FlushIn, Run, ViewOf, Storing, Recorded, Faithful, Answers, Flatten;
    RunFlushed(ops, duration, order, source);
    var groups := Groups(ViewOf(ops, source, duration));
    ClosedExactly(FlushIn(Run(ops, duration), order), duration, source, View(groups, []));
  }

  /** In particular, when the run opens no window of the source twice: if and only if the
  frames of each segment lie between its first and its last. */
  lemma OnceOpenedExactly(ops: seq<Op>, duration: Duration, order: seq<SourceId>, source: SourceId)
    requires Storing(ops, source, duration) && source in order
    requires WindowsDiffer(Groups(ViewOf(ops, source, duration)), duration)
    ensures Answers(FlushIn(Run(ops, duration), order), source, Recorded(ops, source))
            <==> AllWithin(Groups(ViewOf(ops, source, duration)))
  {
    hide FlushIn, Run, ViewOf, Storing, Recorded, Faithful, Answers, Within, WindowsDiffer;
    RunAnswersExactly(ops, duration, order, source);
    OnceOpened(Groups(ViewOf(ops, source, duration)), duration);
  }

  // ---- runs that fail ----

  /** The premises that two frames share: they fit a segment of one window of one source. */
  predicate SameWindow(a: Frame, b: Frame, duration: Duration) {
    && Storable(a) && Storable(b) && a.source == b.source
    && SegmentStart(a.timestampUs, duration) == SegmentStart(b.timestampUs, duration)
  }

  lemma RunSnoc(ops: seq<Op>, op: Op, duration: Duration, source: SourceId)
    ensures Run(ops + [op], duration) == Apply(Run(ops, duration), op, duration)
    ensures ViewOf(ops + [op], source, duration) == ApplyView(source, ViewOf(ops, source, duration), op, duration)
    ensures Recorded(ops + [op], source)
         == Recorded(ops, source) + if op.StoreOp? && op.f.source == source then [op.f] else []
    ensures Storing(ops, source, duration) && !op.CleanupOp?
            && (op.StoreOp? && op.f.source == source ==> Fits(ViewOf(ops, source, duration), op.f))
            ==> Storing(ops + [op], source, duration)
  {
    hide Apply, ApplyView, Fits;
    SnocParts(ops, op);
  }

  /** The run that stores one frame, and what it leaves. */
  lemma OneStored(a: Frame, duration: Duration)
    requires Storable(a)
    ensures Storing([StoreOp(a)], a.source, duration)
    ensures ViewOf([StoreOp(a)], a.source, duration) == View([], [a]) && Recorded([StoreOp(a)], a.source) == [a]
  {
    hide Run, Storable, SegmentStart;
    RunSnoc([], StoreOp(a), duration, a.source);
    assert [] + [StoreOp(a)] == [StoreOp(a)];
  }

  /** Store, flush, store in the same window, flush: the first frame is lost, the second
  comes twice. */
  lemma FlushedWindowLosesFrame(a: Frame, b: Frame, duration: Duration)
    requires SameWindow(a, b, duration)
    ensures var flush := FlushOp([a.source]);
            GetFrames(Run([StoreOp(a), flush, StoreOp(b), flush], duration), a.source, 0, MAX_TIME) == Ok([b, b])
  {
    hide Run, ViewOf, FlushIn, GetFrames, Recorded, Storing, Storable, SegmentStart, Contents, Shown, SortByTime;
    var source, flush := a.source, FlushOp([a.source]);
    var one, two, three := [StoreOp(a)], [StoreOp(a), flush], [StoreOp(a), flush, StoreOp(b)];
    assert one + [flush] == two && two + [StoreOp(b)] == three;
    assert three + [flush] == [StoreOp(a), flush, StoreOp(b), flush];
    OneStored(a, duration);
    RunSnoc(one, flush, duration, source);
    assert [] + [[a]] == [[a]];
    assert ViewOf(two, source, duration) == View([[a]], []);
    RunSnoc(two, StoreOp(b), duration, source);
    assert ViewOf(three, source, duration) == View([[a]], [b]);
    RunSnoc(three, flush, duration, source);
    QueriesInEveryRun(three, duration, [source], source, 0, MAX_TIME);
    assert [[a]] + [[b]] == [[a], [b]];
    TwiceOnly(a, b, duration);
  }

  lemma TwiceOnly(a: Frame, b: Frame, duration: Duration)
    requires SegmentStart(a.timestampUs, duration) == SegmentStart(b.timestampUs, duration)
    ensures SortByTime(Shown([[a], [b]], Contents([[a], [b]], duration), 0, MAX_TIME)) == [b, b]
  {
    hide Shown, Contents, SegmentStart;
    ShowAll([[a], [b]], Contents([[a], [b]], duration));
    ContentsSnoc([[a]], [b], duration);
    assert [[a]] + [[b]] == [[a], [b]];
    assert Contents([[a], [b]], duration) == [[b], [b]];
    FlattenSnoc([[b]], [b]);
    FlattenSnoc([], [b]);
    assert [[b]] + [[b]] == [[b], [b]] && [] + [[b]] == [[b]] && [] + [b] == [b] && [b] + [b] == [b, b];
    SortSorted([b, b]);
  }

  /** Store, store an older frame of the same window, flush: a query for the first frame's
  time does not find it, though it is stored. */
  lemma OlderFrameHidesNewer(a: Frame, b: Frame, duration: Duration)
    requires SameWindow(a, b, duration) && b.timestampUs < a.timestampUs
    ensures var ops := [StoreOp(a), StoreOp(b), FlushOp([a.source])];
            && GetFrames(Run(ops, duration), a.source, a.timestampUs, a.timestampUs) == Ok([])
            && FilterRange(Recorded(ops, a.source), a.timestampUs, a.timestampUs) == [a]
  {
    hide Run, ViewOf, FlushIn, GetFrames, Recorded, Storing, Storable, SegmentStart, Contents, Shown, SortByTime,
         FilterRange;
    var source, flush := a.source, FlushOp([a.source]);
    var one, two := [StoreOp(a)], [StoreOp(a), StoreOp(b)];
    assert one + [StoreOp(b)] == two && two + [flush] == [StoreOp(a), StoreOp(b), flush];
    OneStored(a, duration);
    RunSnoc(one, StoreOp(b), duration, source);
    assert [a] + [b] == [a, b];
    assert ViewOf(two, source, duration) == View([], [a, b]);
    RunSnoc(two, flush, duration, source);
    assert [a, b] + [] == [a, b];
    QueriesInEveryRun(two, duration, [source], source, a.timestampUs, a.timestampUs);
    assert [] + [[a, b]] == [[a, b]];
    NothingShown(a, b, Contents([[a, b]], duration));
  }

  lemma NothingShown(a: Frame, b: Frame, contents: seq<seq<Frame>>)
    requires b.timestampUs < a.timestampUs && |contents| == 1
    ensures SortByTime(Shown([[a, b]], contents, a.timestampUs, a.timestampUs)) == []
    ensures FilterRange([a, b], a.timestampUs, a.timestampUs) == [a]
  {
    assert [[a, b]][1..] == [] && [a, b][1..] == [b] && [b][1..] == [];
    assert FilterRange([b], a.timestampUs, a.timestampUs) == [];
    assert [a] + [] == [a];
  }
}
