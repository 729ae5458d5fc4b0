/** What a whole run of the storage guarantees: queries answer as a plain list of the
stored frames would, cleanup does not disturb newer queries, and the byte total is
always the sum of the indexed sizes. */
module StorageRuns {
  import opened Bytes
  import opened Frames
  import opened Seqs
  import opened StorageSpec
  import opened StorageCodec
  import opened StorageViews
  import opened StorageRefinement
  import opened StorageCleanup
  import opened StorageQueries

  /** The operations; `order` is the order in which a hash map yields its keys, and
  `failing` are the files that the file system refuses to delete. */
  datatype Op =
    | StoreOp(f: Frame)
    | FlushOp(order: seq<SourceId>)
    | CleanupOp(order: seq<SourceId>, beforeUs: U64, failing: set<Path>)

  function Apply(st: Store, op: Op, duration: Duration): Store {
    match op
    case StoreOp(f) => StoreFrame(st, f, duration)
    case FlushOp(order) => FlushIn(st, order)
    case CleanupOp(order, beforeUs, failing) => CleanupIn(st, order, beforeUs, failing)
  }

  /** The store after a run from fresh storage. */
  function Run(ops: seq<Op>, duration: Duration): Store {
    if ops == [] then EMPTY else Apply(Run(ops[..|ops| - 1], duration), ops[|ops| - 1], duration)
  }

  function ApplyView(source: SourceId, v: View, op: Op, duration: Duration): View {
    match op
    case StoreOp(f) => if f.source == source then StoreView(v, f, duration) else v
    case FlushOp(order) => if source in order then CloseView(v) else v
    case CleanupOp(order, beforeUs, failing) =>
      if source in order then CleanView(source, v, duration, beforeUs, failing) else v
  }

  function ViewOf(ops: seq<Op>, source: SourceId, duration: Duration): View {
    if ops == [] then NO_FRAMES
    else ApplyView(source, ViewOf(ops[..|ops| - 1], source, duration), ops[|ops| - 1], duration)
  }

  /** Every frame stored meets the premises of `Allowed` when it is stored. */
  predicate Safe(ops: seq<Op>, duration: Duration) {
    ops == []
    || (var before, op := ops[..|ops| - 1], ops[|ops| - 1];
        && Safe(before, duration)
        && (op.StoreOp? ==> Allowed(ViewOf(before, op.f.source, duration), op.f, duration)))
  }

  /** The frames of a source that a run was asked to store, in order. */
  function Recorded(ops: seq<Op>, source: SourceId): seq<Frame> {
    if ops == [] then []
    else
      var before, op := Recorded(ops[..|ops| - 1], source), ops[|ops| - 1];
      if op.StoreOp? && op.f.source == source then before + [op.f] else before
  }

  /** No cleanup of the run had a cutoff after `us`. */
  predicate CleanedUpTo(ops: seq<Op>, us: U64) {
    forall op :: op in ops && op.CleanupOp? ==> op.beforeUs <= us
  }

  // ---- every safe run is represented ----

  lemma EmptyRep(duration: Duration, source: SourceId)
    ensures Own(EMPTY) && Rep(EMPTY, duration, source, NO_FRAMES)
  {
  }

  /** One operation keeps the representation of every source. */
  lemma ApplyRep(st: Store, op: Op, duration: Duration, source: SourceId, v: View)
    requires Own(st) && Rep(st, duration, source, v)
    requires op.StoreOp? && op.f.source == source ==> Allowed(v, op.f, duration)
    ensures Own(Apply(st, op, duration))
        && Rep(Apply(st, op, duration), duration, source, ApplyView(source, v, op, duration))
  {
    hide Own, Rep, Allowed, SameFor, StoreFrame, FlushIn, CleanupIn, StoreView, CloseView, CleanView;
    match op
    case StoreOp(f) =>
      StoreFrameFrame(st, f, duration, source);
      if f.source == source {
        StoreRep(st, duration, v, f);
      } else {
        RepFrame(st, StoreFrame(st, f, duration), duration, source, v);
      }
    case FlushOp(order) =>
      FlushRep(st, duration, order, source, v);
    case CleanupOp(order, beforeUs, failing) =>
      CleanupRep(st, duration, order, beforeUs, failing, source, v);
  }

  lemma {:induction false} RunRep(ops: seq<Op>, duration: Duration, source: SourceId)
    requires Safe(ops, duration)
    ensures Own(Run(ops, duration)) && Rep(Run(ops, duration), duration, source, ViewOf(ops, source, duration))
    decreases |ops|
  {
    hide Own, Rep, Allowed, Apply, ApplyView;
    if ops == [] {
      EmptyRep(duration, source);
    } else {
      var before, op := ops[..|ops| - 1], ops[|ops| - 1];
      RunRep(before, duration, source);
      ApplyRep(Run(before, duration), op, duration, source, ViewOf(before, source, duration));
    }
  }

  // ---- queries ----

  /** A query of a represented source is a filter over its finished frames, in stored order. */
  lemma QueryIsFilter(st: Store, duration: Duration, source: SourceId, v: View, startUs: U64, endUs: U64)
    requires Rep(st, duration, source, v)
    ensures GetFrames(st, source, startUs, endUs) == Ok(FilterRange(Flatten(v.closed), startUs, endUs))
  {
    hide GroupsOk, ClosedReps, OpenRep, FilesKnown, ReadSegments, FilterRange, Flatten, SortByTime, Segments;
    ClosedOk(v, duration);
    ReadSegmentsRep(st.files, source, v.closed, Segments(st, source), duration, startUs, endUs);
    FlattenSorted(v.closed, duration);
    FilterSorted(Flatten(v.closed), startUs, endUs);
    SortSorted(FilterRange(Flatten(v.closed), startUs, endUs));
  }

  /** Whatever the run, the groups of a source hold the recorded frames, but for those
  that cleanup could remove. */
  lemma {:induction false} ViewIsRecorded(ops: seq<Op>, duration: Duration, source: SourceId, startUs: U64, endUs: U64)
    requires Safe(ops, duration) && CleanedUpTo(ops, startUs)
    ensures FilterRange(Flatten(Groups(ViewOf(ops, source, duration))), startUs, endUs)
         == FilterRange(Recorded(ops, source), startUs, endUs)
    decreases |ops|
  {
    hide Allowed, FilterRange, Flatten, StoreView, CloseView, CleanView, Groups, GroupsOk;
    if ops == [] {
      NoGroups();
    } else {
      var before, op := ops[..|ops| - 1], ops[|ops| - 1];
      assert forall o :: o in before ==> o in ops;
      ViewIsRecorded(before, duration, source, startUs, endUs);
      var v := ViewOf(before, source, duration);
      match op
      case StoreOp(f) =>
        if f.source == source {
          StoreViewFlatten(v, f, duration);
          FilterAppend(Flatten(Groups(v)), [f], startUs, endUs);
          FilterAppend(Recorded(before, source), [f], startUs, endUs);
        }
      case FlushOp(order) =>
        CloseViewGroups(v);
      case CleanupOp(order, beforeUs, failing) =>
        assert op in ops;
        RunRep(before, duration, source);
        RepOk(Run(before, duration), duration, source, v);
        CleanViewFilter(source, v, duration, beforeUs, failing, startUs, endUs);
    }
  }

  lemma NoGroups()
    ensures Flatten(Groups(NO_FRAMES)) == []
  {
  }

  lemma StoreViewFlatten(v: View, f: Frame, duration: Duration)
    ensures Flatten(Groups(StoreView(v, f, duration))) == Flatten(Groups(v)) + [f]
  {
    hide Flatten, SegmentStart;
    if v.open != [] && WindowOf(v.open, duration) == SegmentStart(f.timestampUs, duration) {
      FlattenSnoc(v.closed, v.open);
      FlattenSnoc(v.closed, v.open + [f]);
      assert Flatten(v.closed) + (v.open + [f]) == Flatten(v.closed) + v.open + [f];
    } else {
      FlattenSnoc(Groups(v), [f]);
    }
  }

  lemma CloseViewGroups(v: View)
    ensures Groups(CloseView(v)) == Groups(v)
  {
  }

  lemma CleanViewFilter(source: SourceId, v: View, duration: Duration, beforeUs: U64, failing: set<Path>, startUs: U64,
                        endUs: U64)
    requires GroupsOk(Groups(v), duration) && beforeUs <= startUs
    ensures FilterRange(Flatten(Groups(CleanView(source, v, duration, beforeUs, failing))), startUs, endUs)
         == FilterRange(Flatten(Groups(v)), startUs, endUs)
  {
    hide GroupsOk, Flatten, FilterRange, KeepGroups;
    ClosedOk(v, duration);
    KeepFilter(source, v.closed, duration, beforeUs, failing, startUs, endUs);
    if v.open != [] {
      var kept := KeepGroups(source, v.closed, duration, beforeUs, failing);
      FlattenSnoc(v.closed, v.open);
      FlattenSnoc(kept, v.open);
      FilterAppend(Flatten(v.closed), v.open, startUs, endUs);
      FilterAppend(Flatten(kept), v.open, startUs, endUs);
    }
  }

  /** The storage refines a plain list. After any safe run of stores, flushes and cleanups
  over any number of sources, then a flush that visits the source, a query from `startUs` on
  returns exactly the frames of that source in range, in stored order, byte for byte,
  provided that no cleanup had a cutoff after `startUs`. */
  lemma StorageRefinesList(ops: seq<Op>, duration: Duration, order: seq<SourceId>, source: SourceId, startUs: U64,
                           endUs: U64)
    requires Safe(ops, duration) && CleanedUpTo(ops, startUs) && source in order
    ensures GetFrames(FlushIn(Run(ops, duration), order), source, startUs, endUs)
         == Ok(FilterRange(Recorded(ops, source), startUs, endUs))
  {
    hide Rep, Own, FlushIn, GetFrames, FilterRange, Recorded, Safe, CleanedUpTo;
    var v := ViewOf(ops, source, duration);
    RunRep(ops, duration, source);
    FlushRep(Run(ops, duration), duration, order, source, v);
    QueryIsFilter(FlushIn(Run(ops, duration), order), duration, source, CloseView(v), startUs, endUs);
    ViewIsRecorded(ops, duration, source, startUs, endUs);
  }

  lemma {:induction false} FilterCounts(fs: seq<Frame>, startUs: U64, endUs: U64, f: Frame)
    ensures multiset(FilterRange(fs, startUs, endUs))[f]
         == if startUs <= f.timestampUs <= endUs then multiset(fs)[f] else 0
    decreases |fs|
  {
    if fs != [] {
      assert fs == [fs[0]] + fs[1..];
      FilterCounts(fs[1..], startUs, endUs, f);
    }
  }

  /** In plain words: each frame is found as often as it was recorded if its time is in range,
  both ends included, and not at all otherwise; and what is found comes in order of time. */
  lemma QueryFindsExactly(ops: seq<Op>, duration: Duration, order: seq<SourceId>, source: SourceId, startUs: U64,
                          endUs: U64)
    requires Safe(ops, duration) && CleanedUpTo(ops, startUs) && source in order
    ensures var r := GetFrames(FlushIn(Run(ops, duration), order), source, startUs, endUs);
            && r.Ok?
            && (forall i, j | 0 <= i < j < |r.value| :: r.value[i].timestampUs <= r.value[j].timestampUs)
            && forall f :: multiset(r.value)[f]
                 == if startUs <= f.timestampUs <= endUs then multiset(Recorded(ops, source))[f] else 0
  {
    hide Rep, Own, FlushIn, GetFrames, FilterRange, Recorded, Safe, CleanedUpTo, Flatten, ViewOf, GroupsOk;
    var v := ViewOf(ops, source, duration);
    StorageRefinesList(ops, duration, order, source, startUs, endUs);
    RunRep(ops, duration, source);
    RepOk(Run(ops, duration), duration, source, v);
    FlattenSorted(Groups(v), duration);
    FilterSorted(Flatten(Groups(v)), startUs, endUs);
    ViewIsRecorded(ops, duration, source, startUs, endUs);
    forall f
      ensures multiset(FilterRange(Recorded(ops, source), startUs, endUs))[f]
           == if startUs <= f.timestampUs <= endUs then multiset(Recorded(ops, source))[f] else 0
    {
      FilterCounts(Recorded(ops, source), startUs, endUs, f);
    }
  }

  /** Without the flush, what is missing is exactly the frames of the open segment. */
  lemma OpenSegmentIsInvisible(ops: seq<Op>, duration: Duration, source: SourceId, startUs: U64, endUs: U64)
    requires Safe(ops, duration) && CleanedUpTo(ops, startUs)
    ensures GetFrames(Run(ops, duration), source, startUs, endUs).Ok?
    ensures GetFrames(Run(ops, duration), source, startUs, endUs).value
            + FilterRange(ViewOf(ops, source, duration).open, startUs, endUs)
         == FilterRange(Recorded(ops, source), startUs, endUs)
  {
    hide Rep, Own, GetFrames, FilterRange, Recorded, Safe, CleanedUpTo, Flatten, ViewOf;
    var v := ViewOf(ops, source, duration);
    RunRep(ops, duration, source);
    QueryIsFilter(Run(ops, duration), duration, source, v, startUs, endUs);
    ViewIsRecorded(ops, duration, source, startUs, endUs);
    if v.open == [] {
      NothingFiltered(startUs, endUs);
    } else {
      FlattenSnoc(v.closed, v.open);
      FilterAppend(Flatten(v.closed), v.open, startUs, endUs);
    }
  }

  /** Cleanup changes no query whose range starts at or after its cutoff. */
  lemma CleanupKeepsNewer(ops: seq<Op>, duration: Duration, order: seq<SourceId>, beforeUs: U64, failing: set<Path>,
                          source: SourceId, startUs: U64, endUs: U64)
    requires Safe(ops, duration) && beforeUs <= startUs
    ensures var st := Run(ops, duration);
            GetFrames(CleanupIn(st, order, beforeUs, failing), source, startUs, endUs)
                == GetFrames(st, source, startUs, endUs)
  {
    hide Rep, Own, GetFrames, FilterRange, Flatten, GroupsOk, CleanupIn, Safe, ViewOf, Groups, KeepGroups;
    var st, v := Run(ops, duration), ViewOf(ops, source, duration);
    RunRep(ops, duration, source);
    QueryIsFilter(st, duration, source, v, startUs, endUs);
    CleanupRep(st, duration, order, beforeUs, failing, source, v);
    var v' := if source in order then CleanView(source, v, duration, beforeUs, failing) else v;
    QueryIsFilter(CleanupIn(st, order, beforeUs, failing), duration, source, v', startUs, endUs);
    RepOk(st, duration, source, v);
    ClosedOk(v, duration);
    KeepFilter(source, v.closed, duration, beforeUs, failing, startUs, endUs);
  }
}
