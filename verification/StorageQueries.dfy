/** What queries return from finished segments, whatever order their frames came in and
whatever became of their files. */
module StorageQueries {
  import opened Bytes
  import opened Frames
  import opened Seqs
  import opened StorageSpec
  import opened StorageCodec
  import opened StorageViews

  /** The last moment that a query can name. */
  const MAX_TIME: U64 := TWO_64 - 1

  /** The entry's bounds are the times of the first and the last frame of `g`, the frames that
  were written; the file holds the frames `content`. */
  predicate Holds(files: map<Path, seq<Byte>>, seg: SegmentIndex, g: seq<Frame>, content: seq<Frame>) {
    && g != [] && seg.startTimeUs == g[0].timestampUs && seg.endTimeUs == g[|g| - 1].timestampUs
    && seg.path in files && ParseRecords(AfterHeader(files[seg.path])) == Ok(content)
  }

  ghost predicate AllHold(files: map<Path, seq<Byte>>, segs: seq<SegmentIndex>, groups: seq<seq<Frame>>,
                          contents: seq<seq<Frame>>)
  {
    && |segs| == |groups| == |contents|
    && forall i | 0 <= i < |segs| :: Holds(files, segs[i], groups[i], contents[i])
  }

  /** Represented segments hold what was written. */
  lemma RepsHold(files: map<Path, seq<Byte>>, source: SourceId, groups: seq<seq<Frame>>, segs: seq<SegmentIndex>,
                 duration: Duration)
    requires ClosedReps(files, source, groups, segs, duration)
    ensures AllHold(files, segs, groups, groups)
  {
    hide GroupOk, ClosedRep, Holds;
    ClosedRepsLength(files, source, groups, segs, duration);
    forall i | 0 <= i < |groups|
      ensures Holds(files, segs[i], groups[i], groups[i])
    {
      assert GroupOk(groups[i]) && ClosedRep(files, source, groups[i], segs[i], duration);
      RepHolds(files, source, groups[i], segs[i], duration);
    }
  }

  lemma RepHolds(files: map<Path, seq<Byte>>, source: SourceId, g: seq<Frame>, seg: SegmentIndex, duration: Duration)
    requires GroupOk(g) && ClosedRep(files, source, g, seg, duration)
    ensures Holds(files, seg, g, g)
  {
    hide ParseRecords, AfterHeader, SegmentFile;
    SegmentFileParses(g);
  }

  /** The segment is read for this range, and its file is missing or cannot be parsed. */
  predicate Unreadable(files: map<Path, seq<Byte>>, seg: SegmentIndex, startUs: U64, endUs: U64) {
    && startUs <= seg.endTimeUs && seg.startTimeUs <= endUs
    && (seg.path in files ==> ParseRecords(AfterHeader(files[seg.path])).Err?)
  }

  /** A query fails if and only if one of the segments that overlap its range cannot be read:
  it never returns a part. */
  lemma {:induction false} QueryFailsExactly(files: map<Path, seq<Byte>>, segs: seq<SegmentIndex>, startUs: U64,
                                             endUs: U64)
    ensures ReadSegments(files, segs, startUs, endUs).Err?
            <==> exists i | 0 <= i < |segs| :: Unreadable(files, segs[i], startUs, endUs)
    decreases |segs|
  {
    hide ParseRecords, AfterHeader, FilterRange;
    if segs != [] {
      var rest := segs[1..];
      QueryFailsExactly(files, rest, startUs, endUs);
      forall i | 0 <= i < |rest|
        ensures rest[i] == segs[i + 1]
      {
      }
      if exists i | 0 <= i < |rest| :: Unreadable(files, rest[i], startUs, endUs) {
        var i :| 0 <= i < |rest| && Unreadable(files, rest[i], startUs, endUs);
        assert Unreadable(files, segs[i + 1], startUs, endUs);
      }
    }
  }

  // ---- skipping ----

  predicate Skipped(g: seq<Frame>, startUs: U64, endUs: U64) {
    g != [] && (g[|g| - 1].timestampUs < startUs || g[0].timestampUs > endUs)
  }

  /** What reading such segments gives: one whose bounds do not overlap the range is skipped. */
  function Shown(groups: seq<seq<Frame>>, contents: seq<seq<Frame>>, startUs: U64, endUs: U64): seq<Frame>
    requires |groups| == |contents|
  {
    if groups == [] then []
    else
      (if Skipped(groups[0], startUs, endUs) then [] else FilterRange(contents[0], startUs, endUs))
      + Shown(groups[1..], contents[1..], startUs, endUs)
  }

  lemma {:induction false} ReadSegmentsShown(files: map<Path, seq<Byte>>, segs: seq<SegmentIndex>,
                                             groups: seq<seq<Frame>>, contents: seq<seq<Frame>>, startUs: U64,
                                             endUs: U64)
    requires AllHold(files, segs, groups, contents)
    ensures ReadSegments(files, segs, startUs, endUs) == Ok(Shown(groups, contents, startUs, endUs))
    decreases |groups|
  {
    hide AllHold, FilterRange, ParseRecords, AfterHeader;
    TailHolds(files, segs, groups, contents);
    if groups != [] {
      ReadSegmentsShown(files, segs[1..], groups[1..], contents[1..], startUs, endUs);
      var rest := Shown(groups[1..], contents[1..], startUs, endUs);
      assert [] + rest == rest;
    }
  }

  lemma TailHolds(files: map<Path, seq<Byte>>, segs: seq<SegmentIndex>, groups: seq<seq<Frame>>,
                  contents: seq<seq<Frame>>)
    requires AllHold(files, segs, groups, contents)
    ensures |segs| == |groups| == |contents|
    ensures groups != [] ==> Holds(files, segs[0], groups[0], contents[0])
                             && AllHold(files, segs[1..], groups[1..], contents[1..])
  {
    hide Holds;
  }

  /** Nothing in range is lost by skipping. */
  predicate SkippedIsEmpty(g: seq<Frame>, content: seq<Frame>, startUs: U64, endUs: U64) {
    Skipped(g, startUs, endUs) ==> FilterRange(content, startUs, endUs) == []
  }

  /** What is shown is a part of what is in range, and all of it unless a skipped segment
  holds some of it. */
  lemma {:induction false} ShownExactly(groups: seq<seq<Frame>>, contents: seq<seq<Frame>>, startUs: U64, endUs: U64)
    requires |groups| == |contents|
    ensures (forall i | 0 <= i < |groups| :: SkippedIsEmpty(groups[i], contents[i], startUs, endUs))
            ==> Shown(groups, contents, startUs, endUs) == FilterRange(Flatten(contents), startUs, endUs)
    ensures |Shown(groups, contents, startUs, endUs)| <= |FilterRange(Flatten(contents), startUs, endUs)|
    ensures (exists i | 0 <= i < |groups| :: !SkippedIsEmpty(groups[i], contents[i], startUs, endUs))
            ==> |Shown(groups, contents, startUs, endUs)| < |FilterRange(Flatten(contents), startUs, endUs)|
    decreases |groups|
  {
    hide FilterRange;
    if groups == [] {
      NothingFiltered(startUs, endUs);
    } else {
      ShownExactly(groups[1..], contents[1..], startUs, endUs);
      FilterAppend(contents[0], Flatten(contents[1..]), startUs, endUs);
      forall i | 0 <= i < |groups| && !SkippedIsEmpty(groups[i], contents[i], startUs, endUs)
        ensures i == 0 || !SkippedIsEmpty(groups[1..][i - 1], contents[1..][i - 1], startUs, endUs)
      {
      }
    }
  }

  lemma NothingFiltered(startUs: U64, endUs: U64)
    ensures FilterRange([], startUs, endUs) == []
  {
  }

  /** The frames lie between the first and the last of the group in time. */
  predicate Between(fs: seq<Frame>, g: seq<Frame>) {
    forall f :: f in fs ==> g != [] && g[0].timestampUs <= f.timestampUs <= g[|g| - 1].timestampUs
  }

  predicate Within(g: seq<Frame>) {
    Between(g, g)
  }

  /** The index bounds of a segment are the times of the first and last frame written. Skipping
  by them is right for every range if and only if all frames of its file lie between the two. */
  lemma SkippingExactly(g: seq<Frame>, content: seq<Frame>)
    requires g != []
    ensures (forall startUs: U64, endUs: U64 :: SkippedIsEmpty(g, content, startUs, endUs)) <==> Between(content, g)
  {
    hide FilterRange;
    if Between(content, g) {
      forall startUs: U64, endUs: U64
        ensures SkippedIsEmpty(g, content, startUs, endUs)
      {
        if Skipped(g, startUs, endUs) {
          FilterNone(content, startUs, endUs);
        }
      }
    }
    forall f | f in content && !(g[0].timestampUs <= f.timestampUs <= g[|g| - 1].timestampUs)
      ensures exists startUs: U64, endUs: U64 :: !SkippedIsEmpty(g, content, startUs, endUs)
    {
      FilterFinds(content, f);
      assert !SkippedIsEmpty(g, content, f.timestampUs, f.timestampUs);
    }
  }

  lemma {:induction false} FilterFinds(g: seq<Frame>, f: Frame)
    requires f in g
    ensures f in FilterRange(g, f.timestampUs, f.timestampUs)
    decreases |g|
  {
    if g[0] != f {
      assert f in g[1..];
      FilterFinds(g[1..], f);
    }
  }

  lemma SortedIsWithin(g: seq<Frame>)
    requires Sorted(g)
    ensures Within(g)
  {
    forall f | f in g
      ensures g[0].timestampUs <= f.timestampUs <= g[|g| - 1].timestampUs
    {
      var i :| 0 <= i < |g| && g[i] == f;
    }
  }

  /** With sorted groups nothing in range is skipped. */
  lemma ReadSegmentsRep(files: map<Path, seq<Byte>>, source: SourceId, groups: seq<seq<Frame>>, segs: seq<SegmentIndex>,
                        duration: Duration, startUs: U64, endUs: U64)
    requires GroupsOk(groups, duration) && ClosedReps(files, source, groups, segs, duration)
    ensures ReadSegments(files, segs, startUs, endUs) == Ok(FilterRange(Flatten(groups), startUs, endUs))
  {
    hide ClosedReps, FilterRange, Flatten, Shown, Before, SkippedIsEmpty, Sorted, AllHold;
    RepsHold(files, source, groups, segs, duration);
    ReadSegmentsShown(files, segs, groups, groups, startUs, endUs);
    forall i | 0 <= i < |groups|
      ensures SkippedIsEmpty(groups[i], groups[i], startUs, endUs)
    {
      assert GroupOk(groups[i]) && Sorted(groups[i]);
      SortedIsWithin(groups[i]);
      SkippingExactly(groups[i], groups[i]);
    }
    ShownExactly(groups, groups, startUs, endUs);
  }

  // ---- sorting ----

  lemma {:induction false} InsertKeepsFrames(fs: seq<Frame>, f: Frame)
    ensures multiset(InsertByTime(fs, f)) == multiset(fs) + multiset{f}
    decreases |fs|
  {
    if fs != [] {
      assert fs == fs[..|fs| - 1] + [fs[|fs| - 1]];
      InsertKeepsFrames(fs[..|fs| - 1], f);
    }
  }

  /** Sorting loses and adds nothing. */
  lemma {:induction false} SortKeepsFrames(fs: seq<Frame>)
    ensures multiset(SortByTime(fs)) == multiset(fs)
    decreases |fs|
  {
    hide InsertByTime;
    if fs != [] {
      assert fs == fs[..|fs| - 1] + [fs[|fs| - 1]];
      SortKeepsFrames(fs[..|fs| - 1]);
      InsertKeepsFrames(SortByTime(fs[..|fs| - 1]), fs[|fs| - 1]);
    }
  }

  lemma SortKeepsLength(fs: seq<Frame>)
    ensures |SortByTime(fs)| == |fs|
  {
    hide SortByTime;
    SortKeepsFrames(fs);
    assert |multiset(SortByTime(fs))| == |SortByTime(fs)| && |multiset(fs)| == |fs|;
  }

  predicate NoneAfter(fs: seq<Frame>, us: U64) {
    forall f :: f in fs ==> f.timestampUs <= us
  }

  lemma {:induction false} InsertSorts(fs: seq<Frame>, f: Frame)
    requires Sorted(fs)
    ensures Sorted(InsertByTime(fs, f))
    ensures forall us: U64 :: NoneAfter(fs, us) && f.timestampUs <= us ==> NoneAfter(InsertByTime(fs, f), us)
    decreases |fs|
  {
    if fs != [] && fs[|fs| - 1].timestampUs > f.timestampUs {
      var init, last := fs[..|fs| - 1], fs[|fs| - 1];
      assert fs == init + [last];
      InsertSorts(init, f);
      assert NoneAfter(init, last.timestampUs);
    }
  }

  lemma {:induction false} SortIsSorted(fs: seq<Frame>)
    ensures Sorted(SortByTime(fs))
    decreases |fs|
  {
    hide InsertByTime;
    if fs != [] {
      SortIsSorted(fs[..|fs| - 1]);
      InsertSorts(SortByTime(fs[..|fs| - 1]), fs[|fs| - 1]);
    }
  }

  lemma FilterOne(f: Frame, startUs: U64, endUs: U64)
    ensures FilterRange([f], startUs, endUs) == if InRange(f, startUs, endUs) then [f] else []
  {
    assert [f][1..] == [];
  }

  lemma InsertLast(fs: seq<Frame>, f: Frame)
    requires NoneAfter(fs, f.timestampUs)
    ensures InsertByTime(fs, f) == fs + [f]
  {
  }

  lemma InsertBefore(fs: seq<Frame>, last: Frame, f: Frame)
    requires f.timestampUs < last.timestampUs
    ensures InsertByTime(fs + [last], f) == InsertByTime(fs, f) + [last]
  {
    SnocParts(fs, last);
  }

  lemma FilterSnoc(fs: seq<Frame>, f: Frame, startUs: U64, endUs: U64)
    ensures var kept := FilterRange(fs, startUs, endUs);
            FilterRange(fs + [f], startUs, endUs) == if InRange(f, startUs, endUs) then kept + [f] else kept
  {
    hide FilterRange;
    FilterAppend(fs, [f], startUs, endUs);
    FilterOne(f, startUs, endUs);
    assert FilterRange(fs, startUs, endUs) + [] == FilterRange(fs, startUs, endUs);
  }

  lemma SortedBounds(fs: seq<Frame>, startUs: U64, endUs: U64)
    requires Sorted(fs) && fs != []
    ensures NoneAfter(fs, fs[|fs| - 1].timestampUs)
    ensures NoneAfter(FilterRange(fs, startUs, endUs), fs[|fs| - 1].timestampUs)
  {
    hide FilterRange;
    FilterSorted(fs, startUs, endUs);
  }

  /** Filtering before or after an insertion into a sorted list. */
  lemma {:induction false} InsertFilters(fs: seq<Frame>, f: Frame, startUs: U64, endUs: U64)
    requires Sorted(fs)
    ensures var kept := FilterRange(fs, startUs, endUs);
            FilterRange(InsertByTime(fs, f), startUs, endUs)
            == if InRange(f, startUs, endUs) then InsertByTime(kept, f) else kept
    decreases |fs|
  {
    hide FilterRange, InsertByTime;
    if fs == [] {
      NothingFiltered(startUs, endUs);
      FilterSnoc([], f, startUs, endUs);
      InsertLast([], f);
    } else {
      var init, last := fs[..|fs| - 1], fs[|fs| - 1];
      var kept := FilterRange(init, startUs, endUs);
      assert fs == init + [last];
      if last.timestampUs <= f.timestampUs {
        SortedBounds(fs, startUs, endUs);
        InsertLast(fs, f);
        InsertLast(FilterRange(fs, startUs, endUs), f);
        FilterSnoc(fs, f, startUs, endUs);
      } else {
        InsertFilters(init, f, startUs, endUs);
        InsertBefore(init, last, f);
        InsertBefore(kept, last, f);
        FilterSnoc(init, last, startUs, endUs);
        FilterSnoc(InsertByTime(init, f), last, startUs, endUs);
      }
    }
  }

  /** Filtering and sorting commute. */
  lemma {:induction false} SortFilters(fs: seq<Frame>, startUs: U64, endUs: U64)
    ensures SortByTime(FilterRange(fs, startUs, endUs)) == FilterRange(SortByTime(fs), startUs, endUs)
    decreases |fs|
  {
    hide FilterRange, InsertByTime;
    if fs == [] {
      NothingFiltered(startUs, endUs);
    } else {
      var init, last := fs[..|fs| - 1], fs[|fs| - 1];
      assert fs == init + [last];
      SortFilters(init, startUs, endUs);
      FilterSnoc(init, last, startUs, endUs);
      SortIsSorted(init);
      InsertFilters(SortByTime(init), last, startUs, endUs);
      SnocParts(FilterRange(init, startUs, endUs), last);
    }
  }

  lemma SameFiltered(a: seq<Frame>, b: seq<Frame>, startUs: U64, endUs: U64)
    requires SortByTime(a) == SortByTime(b)
    ensures SortByTime(FilterRange(a, startUs, endUs)) == SortByTime(FilterRange(b, startUs, endUs))
    ensures |FilterRange(a, startUs, endUs)| == |FilterRange(b, startUs, endUs)|
  {
    hide SortByTime, FilterRange;
    SortFilters(a, startUs, endUs);
    SortFilters(b, startUs, endUs);
    SortKeepsLength(FilterRange(a, startUs, endUs));
    SortKeepsLength(FilterRange(b, startUs, endUs));
  }

  // ---- queries ----

  /** Every query of the source answers as these frames, filtered and sorted by time, would. */
  ghost predicate Answers(st: Store, source: SourceId, frames: seq<Frame>) {
    forall startUs: U64, endUs: U64 :: AnswersAt(st, source, frames, startUs, endUs)
  }

  predicate AnswersAt(st: Store, source: SourceId, frames: seq<Frame>, startUs: U64, endUs: U64) {
    GetFrames(st, source, startUs, endUs) == Ok(SortByTime(FilterRange(frames, startUs, endUs)))
  }

  lemma {:induction false} FilterEverything(fs: seq<Frame>)
    ensures FilterRange(fs, 0, MAX_TIME) == fs
    decreases |fs|
  {
    if fs != [] {
      FilterEverything(fs[1..]);
    }
  }

  /** A query over all times returns all contents. */
  lemma ShowAll(groups: seq<seq<Frame>>, contents: seq<seq<Frame>>)
    requires |groups| == |contents|
    ensures Shown(groups, contents, 0, MAX_TIME) == Flatten(contents)
  {
    hide Shown, FilterRange, Flatten;
    ShownExactly(groups, contents, 0, MAX_TIME);
    FilterEverything(Flatten(contents));
  }

  /** Every query answers as the list `frames` if and only if the contents of the segments,
  one after the other, sort to the same list, and those of each lie between the first and the
  last frame that was written to it. */
  lemma QueriesExactly(st: Store, source: SourceId, groups: seq<seq<Frame>>, contents: seq<seq<Frame>>,
                       frames: seq<Frame>)
    requires AllHold(st.files, Segments(st, source), groups, contents)
    ensures Answers(st, source, frames)
            <==> SortByTime(Flatten(contents)) == SortByTime(frames)
                 && forall i | 0 <= i < |groups| :: Between(contents[i], groups[i])
  {
    hide AllHold, Flatten, Between, Segments, Answers, AnswersAt, SkippedIsEmpty, SortByTime;
    AllHoldFacts(st.files, Segments(st, source), groups, contents);
    AllTimes(st, source, groups, contents, frames);
    if SortByTime(Flatten(contents)) != SortByTime(frames) {
      NotAnswered(st, source, frames, 0, MAX_TIME);
    } else if forall i | 0 <= i < |groups| :: Between(contents[i], groups[i]) {
      forall startUs: U64, endUs: U64
        ensures AnswersAt(st, source, frames, startUs, endUs)
      {
        forall i | 0 <= i < |groups|
          ensures SkippedIsEmpty(groups[i], contents[i], startUs, endUs)
        {
          SkippingExactly(groups[i], contents[i]);
        }
        AnswersWhenShown(st, source, groups, contents, frames, startUs, endUs);
      }
      AllAnswered(st, source, frames);
    } else {
      var i :| 0 <= i < |groups| && !Between(contents[i], groups[i]);
      SkippingExactly(groups[i], contents[i]);
      var startUs: U64, endUs: U64 :| !SkippedIsEmpty(groups[i], contents[i], startUs, endUs);
      AnswersWhenShown(st, source, groups, contents, frames, startUs, endUs);
      NotAnswered(st, source, frames, startUs, endUs);
    }
  }

  lemma AllHoldFacts(files: map<Path, seq<Byte>>, segs: seq<SegmentIndex>, groups: seq<seq<Frame>>,
                     contents: seq<seq<Frame>>)
    requires AllHold(files, segs, groups, contents)
    ensures |segs| == |groups| == |contents| && forall i | 0 <= i < |groups| :: groups[i] != []
  {
  }

  lemma AllTimes(st: Store, source: SourceId, groups: seq<seq<Frame>>, contents: seq<seq<Frame>>, frames: seq<Frame>)
    requires AllHold(st.files, Segments(st, source), groups, contents)
    ensures AnswersAt(st, source, frames, 0, MAX_TIME) <==> SortByTime(Flatten(contents)) == SortByTime(frames)
  {
    hide AllHold, Flatten, Segments, SortByTime, ReadSegments, Shown, FilterRange;
    AllHoldFacts(st.files, Segments(st, source), groups, contents);
    ReadSegmentsShown(st.files, Segments(st, source), groups, contents, 0, MAX_TIME);
    ShowAll(groups, contents);
    FilterEverything(frames);
  }

  lemma AllAnswered(st: Store, source: SourceId, frames: seq<Frame>)
    requires forall startUs: U64, endUs: U64 :: AnswersAt(st, source, frames, startUs, endUs)
    ensures Answers(st, source, frames)
  {
    hide AnswersAt;
  }

  lemma NotAnswered(st: Store, source: SourceId, frames: seq<Frame>, startUs: U64, endUs: U64)
    requires !AnswersAt(st, source, frames, startUs, endUs)
    ensures !Answers(st, source, frames)
  {
    hide AnswersAt;
  }

  lemma AnswersWhenShown(st: Store, source: SourceId, groups: seq<seq<Frame>>, contents: seq<seq<Frame>>,
                         frames: seq<Frame>, startUs: U64, endUs: U64)
    requires AllHold(st.files, Segments(st, source), groups, contents) && |groups| == |contents|
    requires SortByTime(Flatten(contents)) == SortByTime(frames)
    ensures AnswersAt(st, source, frames, startUs, endUs)
            <==> (forall i | 0 <= i < |groups| :: SkippedIsEmpty(groups[i], contents[i], startUs, endUs))
  {
    hide AllHold, Flatten, Segments, SkippedIsEmpty, Shown, FilterRange, SortByTime, ReadSegments;
    ReadSegmentsShown(st.files, Segments(st, source), groups, contents, startUs, endUs);
    ShownExactly(groups, contents, startUs, endUs);
    SameFiltered(Flatten(contents), frames, startUs, endUs);
    SortKeepsLength(Shown(groups, contents, startUs, endUs));
    SortKeepsLength(FilterRange(frames, startUs, endUs));
  }
}
