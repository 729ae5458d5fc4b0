/** The running byte total over every run, safe or not: it is the sum of the indexed
sizes, so the saturating subtraction of cleanup never saturates. */
module StorageTotals {
  import opened Bytes
  import opened Frames
  import opened Seqs
  import opened StorageSpec
  import opened StorageRuns

  /** The indexed sizes of all sources. */
  ghost function SumIndex(index: map<SourceId, seq<SegmentIndex>>): nat
    decreases |index|
  {
    if index == map[] then 0
    else
      var source :| source in index;
      SumSizes(index[source]) + SumIndex(index - {source})
  }

  /** The sum does not depend on the order in which the sources are taken. */
  lemma {:induction false} SumIndexRemove(index: map<SourceId, seq<SegmentIndex>>, source: SourceId)
    requires source in index
    ensures SumIndex(index) == SumSizes(index[source]) + SumIndex(index - {source})
    decreases |index|
  {
    hide SumSizes;
    var first :| first in index && SumIndex(index) == SumSizes(index[first]) + SumIndex(index - {first});
    if first != source {
      SumIndexRemove(index - {first}, source);
      SumIndexRemove(index - {source}, first);
      assert index - {first} - {source} == index - {source} - {first};
    }
  }

  lemma SumIndexUpdate(index: map<SourceId, seq<SegmentIndex>>, source: SourceId, segs: seq<SegmentIndex>)
    ensures SumIndex(index[source := segs]) + (if source in index then SumSizes(index[source]) else 0)
         == SumIndex(index) + SumSizes(segs)
  {
    hide SumSizes, SumIndex;
    var index' := index[source := segs];
    SumIndexRemove(index', source);
    if source in index {
      SumIndexRemove(index, source);
      assert index' - {source} == index - {source};
    } else {
      assert index' - {source} == index;
    }
  }

  ghost predicate TotalOk(st: Store) {
    st.totalBytes == SumIndex(st.index)
  }

  lemma CloseTotal(st: Store, source: SourceId)
    requires TotalOk(st)
    ensures TotalOk(CloseWriter(st, source))
  {
    hide SumIndex, Header;
    if source in st.writers {
      var w := st.writers[source];
      var entry := SegmentIndex(w.path, w.startTimeUs, w.endTimeUs, w.frameCount, w.bytesWritten);
      SumIndexUpdate(st.index, source, Segments(st, source) + [entry]);
      SnocParts(Segments(st, source), entry);
    }
  }

  lemma {:induction false} FlushTotal(st: Store, order: seq<SourceId>)
    requires TotalOk(st)
    ensures TotalOk(FlushIn(st, order))
    decreases |order|
  {
    hide TotalOk, CloseWriter;
    if order != [] {
      FlushTotal(st, order[..|order| - 1]);
      CloseTotal(FlushIn(st, order[..|order| - 1]), order[|order| - 1]);
    }
  }

  lemma StoreTotal(st: Store, f: Frame, duration: Duration)
    requires TotalOk(st)
    ensures TotalOk(StoreFrame(st, f, duration))
  {
    hide SumIndex, Record, Finalize, SegmentStart;
    CloseTotal(st, f.source);
  }

  /** What one source loses in the index is what is counted as deleted. */
  lemma {:induction false} CleanSegmentsTotal(files: map<Path, seq<Byte>>, segs: seq<SegmentIndex>, beforeUs: U64,
                                              failing: set<Path>)
    ensures var c := CleanSegments(files, segs, beforeUs, failing);
            SumSizes(c.kept) + c.deletedBytes == SumSizes(segs)
    decreases |segs|
  {
    hide Deletable;
    if segs != [] {
      var c := CleanSegments(files, segs[..|segs| - 1], beforeUs, failing);
      CleanSegmentsTotal(files, segs[..|segs| - 1], beforeUs, failing);
      SnocParts(c.kept, segs[|segs| - 1]);
    }
  }

  lemma {:induction false} CleanSourcesTotal(st: Store, order: seq<SourceId>, beforeUs: U64, failing: set<Path>)
    ensures var (st', deleted) := CleanSources(st, order, beforeUs, failing);
            SumIndex(st'.index) + deleted == SumIndex(st.index) && st'.totalBytes == st.totalBytes
    decreases |order|
  {
    hide SumIndex, CleanSegments;
    if order != [] {
      CleanSourcesTotal(st, order[..|order| - 1], beforeUs, failing);
      var before := CleanSources(st, order[..|order| - 1], beforeUs, failing).0;
      var source := order[|order| - 1];
      if source in before.index {
        var c := CleanSegments(before.files, before.index[source], beforeUs, failing);
        CleanSegmentsTotal(before.files, before.index[source], beforeUs, failing);
        SumIndexUpdate(before.index, source, c.kept);
      }
    }
  }

  /** Cleanup never saturates: it deletes no more than the total, which stays exact. */
  lemma CleanupTotal(st: Store, order: seq<SourceId>, beforeUs: U64, failing: set<Path>)
    requires TotalOk(st)
    ensures TotalOk(CleanupIn(st, order, beforeUs, failing))
    ensures var deleted := CleanSources(st, order, beforeUs, failing).1;
            deleted <= st.totalBytes && CleanupIn(st, order, beforeUs, failing).totalBytes == st.totalBytes - deleted
  {
    hide SumIndex, CleanSources;
    CleanSourcesTotal(st, order, beforeUs, failing);
  }

  /** `total_bytes` is the sum of the indexed sizes after any run of stores, flushes and
  cleanups, in any order, with any timestamps and any failing deletions. */
  lemma {:induction false} TotalInEveryRun(ops: seq<Op>, duration: Duration)
    ensures TotalOk(Run(ops, duration))
    decreases |ops|
  {
    hide TotalOk, StoreFrame, FlushIn, CleanupIn;
    if ops == [] {
      EmptyTotal();
    } else {
      var before := Run(ops[..|ops| - 1], duration);
      TotalInEveryRun(ops[..|ops| - 1], duration);
      match ops[|ops| - 1]
      case StoreOp(f) => StoreTotal(before, f, duration);
      case FlushOp(order) => FlushTotal(before, order);
      case CleanupOp(order, beforeUs, failing) => CleanupTotal(before, order, beforeUs, failing);
    }
  }

  lemma EmptyTotal()
    ensures TotalOk(EMPTY)
  {
  }
}
