/** What a store holds when frames come in any order of time, and what each operation makes of
it. A frame of a window whose segment is closed opens that segment again, which truncates its
file (`truncate(true)`): the file keeps what comes from then on only, while every index entry
of the window names it. */
module StorageOverlay {
  import opened Bytes
  import opened Frames
  import opened Seqs
  import opened StorageSpec
  import opened StorageCodec
  import opened StorageViews
  import opened StorageRefinement

  // ---- what a store holds after stores in any order ----

  /** The newest group of a window. */
  function LatestOf(groups: seq<seq<Frame>>, window: nat, duration: Duration): seq<Frame>
    decreases |groups|
  {
    if groups == [] then []
    else if WindowOf(groups[|groups| - 1], duration) == window then groups[|groups| - 1]
    else LatestOf(groups[..|groups| - 1], window, duration)
  }

  /** What the entries of these groups show: for each, the newest group of its window. */
  function Contents(groups: seq<seq<Frame>>, duration: Duration): (contents: seq<seq<Frame>>)
    ensures |contents| == |groups|
  {
    seq(|groups|, i requires 0 <= i < |groups| => LatestOf(groups, WindowOf(groups[i], duration), duration))
  }

  ghost predicate FileHolds(files: map<Path, seq<Byte>>, path: Path, g: seq<Frame>) {
    path in files && |files[path]| >= HEADER_SIZE && files[path][HEADER_SIZE..] == Records(g)
  }

  /** The file of each group's window holds the records of the window's newest group. */
  ghost predicate FilesHold(files: map<Path, seq<Byte>>, source: SourceId, groups: seq<seq<Frame>>, duration: Duration)
  {
    forall i | 0 <= i < |groups| :: GroupOk(groups[i])
      && FileHolds(files, PathOf(source, groups[i], duration), Contents(groups, duration)[i])
  }

  ghost predicate EntriesOf(segs: seq<SegmentIndex>, source: SourceId, closed: seq<seq<Frame>>, duration: Duration) {
    && |segs| == |closed|
    && forall i | 0 <= i < |closed| :: EntryOf(segs[i], source, closed[i], duration)
  }

  ghost predicate EntryOf(seg: SegmentIndex, source: SourceId, g: seq<Frame>, duration: Duration) {
    GroupOk(g) && seg == Entry(PathOf(source, g, duration), g)
  }

  ghost predicate WriterOf(st: Store, source: SourceId, open: seq<Frame>, duration: Duration) {
    && (source in st.writers <==> open != [])
    && (open != [] ==> Writes(st.writers[source], source, open, duration))
  }

  ghost predicate Writes(w: SegmentWriter, source: SourceId, g: seq<Frame>, duration: Duration) {
    var path := PathOf(source, g, duration);
    && GroupOk(g)
    && w == SegmentWriter(path, g[0].timestampUs, g[|g| - 1].timestampUs, |g|, HEADER_SIZE + |Records(g)|)
  }

  /** The store holds this view of the source: groups in any order, windows opened any number
  of times, older groups of a window lost. */
  ghost predicate Overlaid(st: Store, duration: Duration, source: SourceId, v: View) {
    && EntriesOf(Segments(st, source), source, v.closed, duration) && WriterOf(st, source, v.open, duration)
    && FilesHold(st.files, source, Groups(v), duration)
  }

  lemma LatestSnoc(groups: seq<seq<Frame>>, g: seq<Frame>, window: nat, duration: Duration)
    ensures LatestOf(groups + [g], window, duration)
         == if WindowOf(g, duration) == window then g else LatestOf(groups, window, duration)
  {
    hide WindowOf;
    SnocParts(groups, g);
  }

  /** A new group overlays those of its window. */
  lemma ContentsSnoc(groups: seq<seq<Frame>>, g: seq<Frame>, duration: Duration)
    ensures var contents := Contents(groups + [g], duration);
            && contents[|groups|] == g
            && forall i | 0 <= i < |groups| :: contents[i] ==
                 if WindowOf(groups[i], duration) == WindowOf(g, duration) then g else Contents(groups, duration)[i]
  {
    hide WindowOf, LatestOf;
    var all := groups + [g];
    LatestSnoc(groups, g, WindowOf(g, duration), duration);
    forall i | 0 <= i < |groups|
      ensures Contents(all, duration)[i] == LatestOf(all, WindowOf(groups[i], duration), duration)
    {
      assert all[i] == groups[i];
    }
    forall i | 0 <= i < |groups|
      ensures Contents(all, duration)[i] ==
              if WindowOf(groups[i], duration) == WindowOf(g, duration) then g else Contents(groups, duration)[i]
    {
      LatestSnoc(groups, g, WindowOf(groups[i], duration), duration);
    }
  }

  /** The files after group `g` was written to its window's file, from empty or from a part
  `was` of it. */
  lemma FilesHoldSnoc(files: map<Path, seq<Byte>>, files': map<Path, seq<Byte>>, source: SourceId,
                      groups: seq<seq<Frame>>, was: seq<Frame>, g: seq<Frame>, duration: Duration)
    requires FilesHold(files, source, groups, duration)
        || (FilesHold(files, source, groups + [was], duration) && WindowOf(was, duration) == WindowOf(g, duration))
    requires GroupOk(g) && FileHolds(files', PathOf(source, g, duration), g)
    requires forall p :: p in files && p != PathOf(source, g, duration) ==> p in files' && files'[p] == files[p]
    ensures FilesHold(files', source, groups + [g], duration)
  {
    hide WindowOf, LatestOf, GroupOk, Contents, FileHolds;
    ContentsSnoc(groups, g, duration);
    var all := groups + [g];
    forall i | 0 <= i < |all|
      ensures GroupOk(all[i]) && FileHolds(files', PathOf(source, all[i], duration), Contents(all, duration)[i])
    {
      if i < |groups| {
        assert all[i] == groups[i];
        HeldBefore(files, source, groups, was, i, duration);
        if WindowOf(groups[i], duration) != WindowOf(g, duration) {
          FileKept(files, files', PathOf(source, g, duration), PathOf(source, groups[i], duration),
              Contents(groups, duration)[i]);
        }
      } else {
        assert all[i] == g;
      }
    }
  }

  lemma HeldBefore(files: map<Path, seq<Byte>>, source: SourceId, groups: seq<seq<Frame>>, was: seq<Frame>, i: nat,
                   duration: Duration)
    requires i < |groups|
    requires FilesHold(files, source, groups, duration) || FilesHold(files, source, groups + [was], duration)
    ensures GroupOk(groups[i])
    ensures FilesHold(files, source, groups, duration) || WindowOf(groups[i], duration) != WindowOf(was, duration)
            ==> FileHolds(files, PathOf(source, groups[i], duration), Contents(groups, duration)[i])
  {
    hide WindowOf, LatestOf, GroupOk, Contents, FileHolds;
    ContentsSnoc(groups, was, duration);
    assert (groups + [was])[i] == groups[i];
  }

  lemma FileKept(files: map<Path, seq<Byte>>, files': map<Path, seq<Byte>>, changed: Path, path: Path, g: seq<Frame>)
    requires FileHolds(files, path, g) && path != changed
    requires forall p :: p in files && p != changed ==> p in files' && files'[p] == files[p]
    ensures FileHolds(files', path, g)
  {
    hide Records;
  }

  // ---- the steps ----

  lemma OverlaidFrame(st: Store, st': Store, duration: Duration, source: SourceId, v: View)
    requires Overlaid(st, duration, source, v) && SameFor(st, st', source)
    ensures Overlaid(st', duration, source, v)
  {
    hide GroupOk, Contents, Records, Segments, WindowOf, Entry;
    var groups := Groups(v);
    forall i | 0 <= i < |groups|
      ensures GroupOk(groups[i])
      ensures FileHolds(st'.files, PathOf(source, groups[i], duration), Contents(groups, duration)[i])
    {
      var path := PathOf(source, groups[i], duration);
      assert path.source == source && FileHolds(st.files, path, Contents(groups, duration)[i]);
      assert SameFile(st.files, st'.files, path);
    }
  }

  /** Rewriting a header leaves the records. */
  lemma HeaderKeepsRecords(files: map<Path, seq<Byte>>, path: Path, header: seq<Byte>, p: Path, g: seq<Frame>)
    requires |header| == HEADER_SIZE && path in files && |files[path]| >= HEADER_SIZE && FileHolds(files, p, g)
    ensures FileHolds(files[path := header + files[path][HEADER_SIZE..]], p, g)
  {
    hide Records;
  }

  lemma OpenHeld(files: map<Path, seq<Byte>>, source: SourceId, closed: seq<seq<Frame>>, open: seq<Frame>,
                 duration: Duration)
    requires FilesHold(files, source, closed + [open], duration)
    ensures GroupOk(open) && FileHolds(files, PathOf(source, open, duration), open)
  {
    hide GroupOk, FileHolds, WindowOf, Contents;
    ContentsSnoc(closed, open, duration);
    assert (closed + [open])[|closed|] == open;
  }

  lemma FinalizeOverlaid(st: Store, duration: Duration, source: SourceId, v: View)
    requires Overlaid(st, duration, source, v) && v.open != []
    ensures source in st.writers && Overlaid(Finalize(st, source), duration, source, CloseView(v))
  {
    hide GroupOk, FileHolds, WindowOf, Contents, Records, Header;
    var st', w := Finalize(st, source), st.writers[source];
    OpenHeld(st.files, source, v.closed, v.open, duration);
    OpenFile(st.files, w.path, v.open);
    FinalEntry(v.open, w, w.path);
    var groups := Groups(v);
    var header := Header(w.startTimeUs, w.endTimeUs, w.frameCount);
    forall i | 0 <= i < |groups|
      ensures GroupOk(groups[i])
      ensures FileHolds(st'.files, PathOf(source, groups[i], duration), Contents(groups, duration)[i])
    {
      var path := PathOf(source, groups[i], duration);
      HeaderKeepsRecords(st.files, w.path, header, path, Contents(groups, duration)[i]);
    }
    var seg := Segments(st', source)[|v.closed|];
    EntriesSnoc(Segments(st, source), seg, source, v.closed, v.open, duration);
  }

  lemma OpenFile(files: map<Path, seq<Byte>>, path: Path, g: seq<Frame>)
    requires FileHolds(files, path, g)
    ensures path in files && |files[path]| >= HEADER_SIZE
  {
  }

  lemma FinalEntry(g: seq<Frame>, w: SegmentWriter, path: Path)
    requires GroupOk(g)
    requires w == SegmentWriter(path, g[0].timestampUs, g[|g| - 1].timestampUs, |g|, HEADER_SIZE + |Records(g)|)
    ensures 0 < |g| < TWO_32
    ensures SegmentIndex(path, w.startTimeUs, w.endTimeUs, w.frameCount, w.bytesWritten) == Entry(path, g)
  {
    OpenEntry(g, w, path);
  }

  lemma EntriesSnoc(segs: seq<SegmentIndex>, seg: SegmentIndex, source: SourceId, closed: seq<seq<Frame>>,
                    g: seq<Frame>, duration: Duration)
    requires EntriesOf(segs, source, closed, duration) && EntryOf(seg, source, g, duration)
    ensures EntriesOf(segs + [seg], source, closed + [g], duration)
  {
    hide EntryOf;
  }

  lemma CloseOverlaid(st: Store, duration: Duration, source: SourceId, v: View)
    requires Overlaid(st, duration, source, v)
    ensures Overlaid(CloseWriter(st, source), duration, source, CloseView(v))
  {
    hide EntriesOf, FilesHold, Finalize;
    if v.open != [] {
      FinalizeOverlaid(st, duration, source, v);
    }
  }

  /** The frame can be encoded, and the frame counter of its segment does not wrap. */
  predicate Fits(v: View, f: Frame) {
    Storable(f) && |v.open| + 1 < TWO_32
  }

  /** The frame falls in the window of the open segment. */
  predicate Continues(v: View, f: Frame, duration: Duration) {
    v.open != [] && WindowOf(v.open, duration) == SegmentStart(f.timestampUs, duration)
  }

  lemma GroupExtends(g: seq<Frame>, f: Frame)
    requires GroupOk(g) && Storable(f) && |g| + 1 < TWO_32
    ensures GroupOk(g + [f])
  {
    hide Storable;
  }

  /** One more record in the open segment. */
  lemma AppendOverlaid(st: Store, duration: Duration, v: View, f: Frame)
    requires Overlaid(st, duration, f.source, v) && Fits(v, f) && v.open != []
    ensures f.source in st.writers && Overlaid(AppendFrame(st, f), duration, f.source, v.(open := v.open + [f]))
  {
    hide GroupOk, SegmentStart, Contents, Records, Record, FilesHold, EntriesOf, Storable;
    var source, path, open := f.source, PathOf(f.source, v.open, duration), v.open + [f];
    var st' := AppendFrame(st, f);
    OpenHeld(st.files, source, v.closed, v.open, duration);
    GroupExtends(v.open, f);
    GroupBound(open);
    AppendedFile(st.files[path], v.open, f);
    assert open[0] == v.open[0];
    assert st'.files[path] == st.files[path] + Record(f);
    FilesHoldSnoc(st.files, st'.files, source, v.closed, v.open, open, duration);
    assert Writes(st'.writers[source], source, open, duration);
  }

  /** A new file with its first record. */
  lemma OpenOverlaid(st: Store, duration: Duration, v: View, f: Frame)
    requires Overlaid(st, duration, f.source, v) && Storable(f) && v.open == []
    ensures var st1 := OpenSegment(st, f.source, f.timestampUs, duration);
            Overlaid(AppendFrame(st1, f), duration, f.source, View(v.closed, [f]))
  {
    hide GroupOk, SegmentStart, Contents, Records, Record, FilesHold, EntriesOf, Storable, Placeholder;
    var path := PathOf(f.source, [f], duration);
    FirstRecord(f);
    SingleGroup(f);
    var st' := AppendFrame(OpenSegment(st, f.source, f.timestampUs, duration), f);
    assert st'.files[path] == Placeholder() + Record(f);
    FilesHoldSnoc(st.files, st'.files, f.source, v.closed, [], [f], duration);
  }

  lemma WriterStart(st: Store, duration: Duration, source: SourceId, v: View)
    requires Overlaid(st, duration, source, v)
    ensures source in st.writers <==> v.open != []
    ensures v.open != [] ==> SegmentStart(st.writers[source].startTimeUs, duration) == WindowOf(v.open, duration)
  {
    hide SegmentStart, FilesHold, EntriesOf, Records;
  }

  /** A frame of any time is stored as its view says. */
  lemma StoreOverlaid(st: Store, duration: Duration, v: View, f: Frame)
    requires Overlaid(st, duration, f.source, v) && Fits(v, f)
    ensures Overlaid(StoreFrame(st, f, duration), duration, f.source, StoreView(v, f, duration))
  {
    hide Overlaid, Storable, SegmentStart, AppendFrame, OpenSegment, Finalize;
    WriterStart(st, duration, f.source, v);
    if Continues(v, f, duration) {
      AppendOverlaid(st, duration, v, f);
    } else {
      CloseOverlaid(st, duration, f.source, v);
      CloseIsFinalize(st, f.source);
      OpenOverlaid(CloseWriter(st, f.source), duration, CloseView(v), f);
    }
  }

  /** A store whose frames came in order of time is one of these. */
  lemma RepIsOverlaid(st: Store, duration: Duration, source: SourceId, v: View)
    requires Rep(st, duration, source, v)
    ensures Overlaid(st, duration, source, v) && WindowsDiffer(Groups(v), duration)
  {
    hide GroupsOk, GroupOk, Records, WindowOf, SegmentFile, Header, FilesKnown, Contents;
    var groups := Groups(v);
    OrderedDiffer(groups, duration);
    DifferingContents(groups, duration);
    forall i | 0 <= i < |groups|
      ensures GroupOk(groups[i]) && FileHolds(st.files, PathOf(source, groups[i], duration), groups[i])
      ensures i < |v.closed| ==> EntryOf(Segments(st, source)[i], source, groups[i], duration)
    {
      if i < |v.closed| {
        assert GroupOk(groups[i]) && ClosedRep(st.files, source, groups[i], Segments(st, source)[i], duration);
        FinishedRecords(groups[i]);
      }
    }
  }

  lemma FinishedRecords(g: seq<Frame>)
    requires GroupOk(g)
    ensures 0 < |g| < TWO_32 && |SegmentFile(g)| >= HEADER_SIZE && SegmentFile(g)[HEADER_SIZE..] == Records(g)
  {
    hide Records, Header;
  }

  /** No window was opened twice. */
  predicate WindowsDiffer(groups: seq<seq<Frame>>, duration: Duration) {
    forall i, j | 0 <= i < j < |groups| :: WindowOf(groups[i], duration) != WindowOf(groups[j], duration)
  }

  lemma OrderedDiffer(groups: seq<seq<Frame>>, duration: Duration)
    requires GroupsOk(groups, duration)
    ensures WindowsDiffer(groups, duration)
  {
    hide GroupOk, Sorted, WindowOf;
    forall i, j | 0 <= i < j < |groups|
      ensures WindowOf(groups[i], duration) != WindowOf(groups[j], duration)
    {
      assert Before(groups[i], groups[j], duration);
    }
  }

  /** Then every entry shows what was written under it. */
  lemma {:induction false} DifferingContents(groups: seq<seq<Frame>>, duration: Duration)
    requires WindowsDiffer(groups, duration)
    ensures Contents(groups, duration) == groups
    decreases |groups|
  {
    hide WindowOf, Contents;
    if groups != [] {
      var init, g := groups[..|groups| - 1], groups[|groups| - 1];
      assert init + [g] == groups;
      DifferingContents(init, duration);
      ContentsSnoc(init, g, duration);
    }
  }
}
