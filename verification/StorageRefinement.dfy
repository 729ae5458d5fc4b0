/** Each storage operation keeps the representation: it changes the view of the
sources it names as the operations on views say, and no other. */
module StorageRefinement {
  import opened Bytes
  import opened Frames
  import opened FrameCodec
  import opened StorageSpec
  import opened StorageCodec
  import opened StorageViews

  // ---- closing a writer ----

  lemma CloseFrame(st: Store, source: SourceId, other: SourceId)
    requires Own(st) && other != source
    ensures SameFor(st, CloseWriter(st, source), other)
  {
  }

  lemma CloseOwn(st: Store, source: SourceId)
    requires Own(st)
    ensures Own(CloseWriter(st, source))
  {
    hide Header;
    if source in st.writers {
      var st' := Finalize(st, source);
      forall s, i | s in st'.index && 0 <= i < |st'.index[s]|
        ensures st'.index[s][i].path.source == s
      {
        if s == source && i < |st'.index[s]| - 1 {
          assert st'.index[s][i] == st.index[s][i];
        }
      }
    }
  }

  /** The finished file of the open group. */
  lemma FinalizeFile(g: seq<Frame>, file: seq<Byte>)
    requires GroupOk(g) && |file| == HEADER_SIZE + |Records(g)| && file[HEADER_SIZE..] == Records(g)
    ensures Header(g[0].timestampUs, g[|g| - 1].timestampUs, |g|) + file[HEADER_SIZE..] == SegmentFile(g)
  {
  }

  lemma CloseRep(st: Store, duration: Duration, source: SourceId, v: View)
    requires Rep(st, duration, source, v)
    ensures Rep(CloseWriter(st, source), duration, source, CloseView(v))
  {
    hide GroupsOk, GroupOk, Records, SegmentFile, Header;
    if v.open != [] {
      CloseClosedReps(st, duration, source, v);
      CloseFilesKnown(st, duration, source, v);
    }
  }

  lemma CloseFilesKnown(st: Store, duration: Duration, source: SourceId, v: View)
    requires Rep(st, duration, source, v) && v.open != []
    ensures source in st.writers && FilesKnown(Finalize(st, source).files, source, Groups(v), duration)
  {
    hide GroupsOk, GroupOk, Records, SegmentFile, Header, ClosedReps, PathOf;
  }

  lemma CloseClosedReps(st: Store, duration: Duration, source: SourceId, v: View)
    requires Rep(st, duration, source, v) && v.open != []
    ensures source in st.writers
    ensures var st' := Finalize(st, source);
            ClosedReps(st'.files, source, Groups(v), Segments(st', source), duration)
  {
    hide GroupsOk, GroupOk, ClosedReps, OpenRep, FilesKnown, Finalize;
    OpenPathFresh(st, duration, source, v);
    FinalizeReps(st, duration, source, v.closed, v.open);
  }

  /** Finalizing the open segment of a group, sorted or not, makes it one more finished one. */
  lemma FinalizeReps(st: Store, duration: Duration, source: SourceId, closed: seq<seq<Frame>>, open: seq<Frame>)
    requires ClosedReps(st.files, source, closed, Segments(st, source), duration)
    requires source in st.writers && GroupOk(open) && OpenRep(st.files, source, open, st.writers[source], duration)
    requires forall i | 0 <= i < |closed| :: PathOf(source, closed[i], duration) != PathOf(source, open, duration)
    ensures var st' := Finalize(st, source);
            ClosedReps(st'.files, source, closed + [open], Segments(st', source), duration)
  {
    hide GroupOk, Records, SegmentFile, Header;
    var st' := Finalize(st, source);
    var w := st.writers[source];
    FinalizeFile(open, st.files[w.path]);
    OpenEntry(open, w, PathOf(source, open, duration));
    forall i | 0 <= i < |closed + [open]|
      ensures GroupOk((closed + [open])[i])
      ensures ClosedRep(st'.files, source, (closed + [open])[i], Segments(st', source)[i], duration)
    {
      if i < |closed| {
        assert GroupOk(closed[i]) && ClosedRep(st.files, source, closed[i], Segments(st, source)[i], duration);
      }
    }
  }

  lemma OpenEntry(g: seq<Frame>, w: SegmentWriter, path: Path)
    requires GroupOk(g)
    requires w == SegmentWriter(path, g[0].timestampUs, g[|g| - 1].timestampUs, |g|, HEADER_SIZE + |Records(g)|)
    ensures SegmentIndex(path, w.startTimeUs, w.endTimeUs, w.frameCount, w.bytesWritten) == Entry(path, g)
  {
    hide Records, Header;
  }

  // ---- flush ----

  lemma {:induction false} FlushRep(st: Store, duration: Duration, order: seq<SourceId>, source: SourceId, v: View)
    requires Own(st) && Rep(st, duration, source, v)
    ensures Own(FlushIn(st, order))
    ensures Rep(FlushIn(st, order), duration, source, if source in order then CloseView(v) else v)
    decreases |order|
  {
    hide Rep, Own, CloseWriter, SameFor;
    if order != [] {
      var init, s := order[..|order| - 1], order[|order| - 1];
      FlushRep(st, duration, init, source, v);
      assert order == init + [s];
      var st' := FlushIn(st, init);
      CloseOwn(st', s);
      if s == source {
        CloseRep(st', duration, source, if source in init then CloseView(v) else v);
      } else {
        CloseFrame(st', s, source);
        RepFrame(st', CloseWriter(st', s), duration, source, if source in init then CloseView(v) else v);
      }
    }
  }

  // ---- storing a frame ----

  lemma OpenFrame(st: Store, source: SourceId, timestampUs: U64, duration: Duration, other: SourceId)
    requires other != source
    ensures SameFor(st, OpenSegment(st, source, timestampUs, duration), other)
  {
    hide SegmentStart;
  }

  lemma AppendFrameFrame(st: Store, f: Frame, other: SourceId)
    requires Own(st) && f.source in st.writers && other != f.source
    ensures SameFor(st, AppendFrame(st, f), other)
  {
    hide Record;
  }

  lemma SameForTrans(a: Store, b: Store, c: Store, source: SourceId)
    requires SameFor(a, b, source) && SameFor(b, c, source)
    ensures SameFor(a, c, source)
  {
    hide Segments;
    forall p: Path | p.source == source
      ensures (p in a.files <==> p in c.files) && (p in a.files ==> a.files[p] == c.files[p])
    {
      assert p in a.files <==> p in b.files;
    }
  }

  lemma SameForSelf(st: Store, source: SourceId)
    ensures SameFor(st, st, source)
  {
  }

  lemma OpenOwn(st: Store, source: SourceId, timestampUs: U64, duration: Duration)
    requires Own(st)
    ensures Own(OpenSegment(st, source, timestampUs, duration))
  {
    hide SegmentStart;
  }

  lemma AppendOwn(st: Store, f: Frame)
    requires Own(st) && f.source in st.writers
    ensures Own(AppendFrame(st, f))
  {
    hide Record;
  }

  lemma StoreFrameFrame(st: Store, f: Frame, duration: Duration, other: SourceId)
    requires Own(st)
    ensures Own(StoreFrame(st, f, duration))
    ensures other != f.source ==> SameFor(st, StoreFrame(st, f, duration), other)
  {
    hide Own, SameFor, CloseWriter, OpenSegment, AppendFrame, SegmentStart;
    var source, ts := f.source, f.timestampUs;
    CloseOwn(st, source);
    CloseIsFinalize(st, source);
    OpenOwn(st, source, ts, duration);
    OpenOwn(CloseWriter(st, source), source, ts, duration);
    var st' := EnsureWriter(st, source, ts, duration);
    AppendOwn(st', f);
    if other != source {
      CloseFrame(st, source, other);
      OpenFrame(st, source, ts, duration, other);
      OpenFrame(CloseWriter(st, source), source, ts, duration, other);
      SameForTrans(st, CloseWriter(st, source), OpenSegment(CloseWriter(st, source), source, ts, duration), other);
      SameForSelf(st, other);
      AppendFrameFrame(st', f, other);
      SameForTrans(st, st', AppendFrame(st', f), other);
    }
  }

  lemma CloseIsFinalize(st: Store, source: SourceId)
    ensures source in st.writers ==> CloseWriter(st, source) == Finalize(st, source)
    ensures source !in st.writers ==> CloseWriter(st, source) == st
  {
  }

  /** One more record in the open segment. */
  lemma AppendRep(st: Store, duration: Duration, v: View, f: Frame)
    requires Rep(st, duration, f.source, v) && v.open != []
    requires GroupOk(v.open + [f]) && GroupsOk(v.closed + [v.open + [f]], duration)
    ensures f.source in st.writers && Rep(AppendFrame(st, f), duration, f.source, v.(open := v.open + [f]))
  {
    hide GroupsOk, GroupOk, Records, SegmentFile, Record, OpenRep, ClosedReps, FilesKnown, PathOf;
    var source, st' := f.source, AppendFrame(st, f);
    AppendOpenRep(st, duration, v, f);
    OpenPathFresh(st, duration, source, v);
    AppendClosed(st, st', duration, source, v, PathOf(source, v.open, duration));
    AppendKnown(st, st', duration, v, f);
  }

  lemma AppendOpenRep(st: Store, duration: Duration, v: View, f: Frame)
    requires Rep(st, duration, f.source, v) && v.open != [] && GroupOk(v.open + [f])
    ensures var st', path := AppendFrame(st, f), PathOf(f.source, v.open, duration);
            && OpenRep(st'.files, f.source, v.open + [f], st'.writers[f.source], duration)
            && st.writers[f.source].path == path && st'.files.Keys == st.files.Keys
  {
    hide GroupsOk, GroupOk, Records, Record, ClosedReps, FilesKnown, Segments;
    var path := PathOf(f.source, v.open, duration);
    AppendedFile(st.files[path], v.open, f);
    assert (v.open + [f])[0] == v.open[0];
    GroupBound(v.open + [f]);
  }

  lemma GroupBound(g: seq<Frame>)
    requires GroupOk(g)
    ensures 0 < |g| < TWO_32
  {
  }

  lemma AppendedFile(file: seq<Byte>, g: seq<Frame>, f: Frame)
    requires |file| == HEADER_SIZE + |Records(g)| && file[HEADER_SIZE..] == Records(g)
    ensures var file' := file + Record(f);
            |file'| == HEADER_SIZE + |Records(g + [f])| && file'[HEADER_SIZE..] == Records(g + [f])
    ensures |Record(f)| == 4 + |ToBytes(f)|
  {
    RecordsSnoc(g, f);
    hide Records, ToBytes, LittleEndian;
  }

  /** No finished segment of the source has the path of the open one. */
  lemma OpenPathFresh(st: Store, duration: Duration, source: SourceId, v: View)
    requires Rep(st, duration, source, v) && v.open != []
    ensures forall i | 0 <= i < |v.closed| :: PathOf(source, v.closed[i], duration) != PathOf(source, v.open, duration)
  {
    hide GroupOk, ClosedReps, OpenRep, FilesKnown, Sorted;
    var groups := Groups(v);
    assert groups[|v.closed|] == v.open;
    forall i | 0 <= i < |v.closed|
      ensures PathOf(source, v.closed[i], duration) != PathOf(source, v.open, duration)
    {
      assert Before(groups[i], groups[|v.closed|], duration);
    }
  }

  /** Changing a file of another path leaves the finished segments as they are. */
  lemma AppendClosed(st: Store, st': Store, duration: Duration, source: SourceId, v: View, path: Path)
    requires ClosedReps(st.files, source, v.closed, Segments(st, source), duration)
    requires Segments(st', source) == Segments(st, source)
    requires forall p :: p in st.files && p != path ==> p in st'.files && st'.files[p] == st.files[p]
    requires forall i | 0 <= i < |v.closed| :: PathOf(source, v.closed[i], duration) != path
    ensures ClosedReps(st'.files, source, v.closed, Segments(st', source), duration)
  {
    hide GroupOk, Segments, SegmentFile, Entry, PathOf;
    forall i | 0 <= i < |v.closed|
      ensures GroupOk(v.closed[i]) && ClosedRep(st'.files, source, v.closed[i], Segments(st', source)[i], duration)
    {
      assert GroupOk(v.closed[i]) && ClosedRep(st.files, source, v.closed[i], Segments(st, source)[i], duration);
    }
  }

  lemma AppendKnown(st: Store, st': Store, duration: Duration, v: View, f: Frame)
    requires FilesKnown(st.files, f.source, Groups(v), duration) && v.open != [] && st'.files.Keys == st.files.Keys
    ensures FilesKnown(st'.files, f.source, Groups(v.(open := v.open + [f])), duration)
  {
    var groups, groups' := Groups(v), Groups(v.(open := v.open + [f]));
    forall p | p in st'.files && p.source == f.source
      ensures PathIn(p, f.source, groups', duration)
    {
      assert p in st.files && PathIn(p, f.source, groups, duration);
      var i :| 0 <= i < |groups| && p == PathOf(f.source, groups[i], duration);
      assert PathOf(f.source, groups'[i], duration) == PathOf(f.source, groups[i], duration);
    }
  }

  /** A new segment with its first record. */
  lemma OpenRepNew(st: Store, duration: Duration, v: View, f: Frame)
    requires Rep(st, duration, f.source, v) && v.open == []
    requires Storable(f) && GroupsOk(v.closed + [[f]], duration)
    ensures var st1 := OpenSegment(st, f.source, f.timestampUs, duration);
            Rep(AppendFrame(st1, f), duration, f.source, View(v.closed, [f]))
  {
    hide GroupsOk, Records, SegmentFile, Record, Storable, Placeholder;
    var source := f.source;
    var st' := AppendFrame(OpenSegment(st, source, f.timestampUs, duration), f);
    var path := PathOf(source, [f], duration);
    FirstRecord(f);
    NewPathFresh(v.closed, [f], duration, source);
    AppendClosed(st, st', duration, source, v, path);
    OpenKnown(st, st', duration, v, f);
    SingleGroup(f);
  }

  lemma FirstRecord(f: Frame)
    ensures var file := Placeholder() + Record(f);
            |file| == HEADER_SIZE + |Records([f])| && file[HEADER_SIZE..] == Records([f])
    ensures |Record(f)| == 4 + |ToBytes(f)|
  {
    assert Placeholder()[HEADER_SIZE..] == [];
    NoRecords();
    AppendedFile(Placeholder(), [], f);
    assert [] + [f] == [f];
  }

  lemma NewPathFresh(closed: seq<seq<Frame>>, g: seq<Frame>, duration: Duration, source: SourceId)
    requires GroupsOk(closed + [g], duration)
    ensures forall i | 0 <= i < |closed| :: PathOf(source, closed[i], duration) != PathOf(source, g, duration)
  {
    hide GroupOk, Sorted;
    var groups := closed + [g];
    forall i | 0 <= i < |closed|
      ensures PathOf(source, closed[i], duration) != PathOf(source, g, duration)
    {
      assert Before(groups[i], groups[|closed|], duration);
    }
  }

  lemma OpenKnown(st: Store, st': Store, duration: Duration, v: View, f: Frame)
    requires FilesKnown(st.files, f.source, v.closed, duration)
    requires st'.files.Keys == st.files.Keys + {PathOf(f.source, [f], duration)}
    ensures FilesKnown(st'.files, f.source, v.closed + [[f]], duration)
  {
    hide PathIn;
    var groups' := v.closed + [[f]];
    forall p | p in st'.files && p.source == f.source
      ensures PathIn(p, f.source, groups', duration)
    {
      PathInSnoc(p, f.source, v.closed, [f], duration);
    }
  }

  lemma PathInSnoc(p: Path, source: SourceId, groups: seq<seq<Frame>>, g: seq<Frame>, duration: Duration)
    ensures PathIn(p, source, groups + [g], duration)
        <==> PathIn(p, source, groups, duration) || p == PathOf(source, g, duration)
  {
    hide PathOf;
    var all := groups + [g];
    assert all[|groups|] == g && forall i | 0 <= i < |groups| :: all[i] == groups[i];
  }

  lemma StoreRep(st: Store, duration: Duration, v: View, f: Frame)
    requires Own(st) && Rep(st, duration, f.source, v) && Allowed(v, f, duration)
    ensures Rep(StoreFrame(st, f, duration), duration, f.source, StoreView(v, f, duration))
  {
    hide Rep, GroupsOk, OpenSegment, AppendFrame, Finalize, SegmentStart;
    RepOk(st, duration, f.source, v);
    StoreViewOk(v, f, duration);
    RepWriter(st, duration, f.source, v);
    GroupsAllOk(StoreView(v, f, duration), duration);
    if v.open != [] && WindowOf(v.open, duration) == SegmentStart(f.timestampUs, duration) {
      AppendRep(st, duration, v, f);
    } else {
      CloseRep(st, duration, f.source, v);
      CloseIsFinalize(st, f.source);
      OpenRepNew(CloseWriter(st, f.source), duration, CloseView(v), f);
    }
  }

  lemma RepOk(st: Store, duration: Duration, source: SourceId, v: View)
    requires Rep(st, duration, source, v)
    ensures GroupsOk(Groups(v), duration)
  {
  }

  lemma RepWriter(st: Store, duration: Duration, source: SourceId, v: View)
    requires Rep(st, duration, source, v)
    ensures source in st.writers <==> v.open != []
    ensures v.open != [] ==> SegmentStart(st.writers[source].startTimeUs, duration) == WindowOf(v.open, duration)
  {
    hide GroupsOk, SegmentStart, Records;
  }

  lemma GroupsAllOk(v: View, duration: Duration)
    requires GroupsOk(Groups(v), duration)
    ensures v.open != [] ==> GroupOk(v.open)
  {
    assert v.open != [] ==> Groups(v)[|v.closed|] == v.open;
  }
}
