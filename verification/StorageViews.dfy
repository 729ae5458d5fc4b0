/** What the storage holds for one source, as a list of groups of frames, and how a
store represents it.

A group is what one segment file holds. `Rep` relates the concrete store to a view,
source by source; each operation of `StorageSpec` is matched by one on views. */
module StorageViews {
  import opened Bytes
  import opened Frames
  import opened Seqs
  import opened StorageSpec
  import opened StorageCodec

  /** The groups in finished segments, and the one in the open segment, if any. */
  datatype View = View(closed: seq<seq<Frame>>, open: seq<Frame>)

  const NO_FRAMES := View([], [])

  function Groups(v: View): seq<seq<Frame>> {
    if v.open == [] then v.closed else v.closed + [v.open]
  }

  predicate GroupOk(g: seq<Frame>) {
    0 < |g| < TWO_32 && forall f :: f in g ==> Storable(f)
  }

  /** The start of the window that a group's first frame lies in. */
  function WindowOf(g: seq<Frame>, duration: Duration): nat {
    if g == [] then 0 else SegmentStart(g[0].timestampUs, duration)
  }

  function PathOf(source: SourceId, g: seq<Frame>, duration: Duration): Path {
    Path(source, WindowOf(g, duration))
  }

  /** Groups are nonempty and storable, each group is sorted, and each ends no later
  than the next begins, in an earlier window. */
  ghost predicate GroupsOk(groups: seq<seq<Frame>>, duration: Duration) {
    && (forall i | 0 <= i < |groups| :: GroupOk(groups[i]) && Sorted(groups[i]))
    && (forall i, j | 0 <= i < j < |groups| :: Before(groups[i], groups[j], duration))
  }

  predicate Before(g: seq<Frame>, h: seq<Frame>, duration: Duration) {
    g != [] && h != [] && g[|g| - 1].timestampUs <= h[0].timestampUs && WindowOf(g, duration) < WindowOf(h, duration)
  }

  // ---- operations on views ----

  function CloseView(v: View): View {
    View(Groups(v), [])
  }

  function StoreView(v: View, f: Frame, duration: Duration): View {
    if v.open != [] && WindowOf(v.open, duration) == SegmentStart(f.timestampUs, duration)
    then v.(open := v.open + [f])
    else View(Groups(v), [f])
  }

  /** The premises on storing a frame: it can be encoded, time does not run backwards,
  no flush came between it and an earlier frame of its window, and the frame counter
  of the segment does not wrap. */
  predicate Allowed(v: View, f: Frame, duration: Duration) {
    && Storable(f)
    && |v.open| + 1 < TWO_32
    && (Groups(v) != [] && Last(v) != [] ==> Last(v)[|Last(v)| - 1].timestampUs <= f.timestampUs)
    && (v.open == [] && v.closed != [] && Last(v) != []
        ==> WindowOf(Last(v), duration) != SegmentStart(f.timestampUs, duration))
  }

  /** The newest group. */
  function Last(v: View): seq<Frame>
    requires Groups(v) != []
  {
    Groups(v)[|Groups(v)| - 1]
  }

  /** A finished group that cleanup removes. */
  predicate Expired(source: SourceId, g: seq<Frame>, duration: Duration, beforeUs: U64, failing: set<Path>) {
    g != [] && g[|g| - 1].timestampUs < beforeUs && PathOf(source, g, duration) !in failing
  }

  function KeepGroups(source: SourceId, groups: seq<seq<Frame>>, duration: Duration, beforeUs: U64,
                      failing: set<Path>): seq<seq<Frame>>
  {
    if groups == [] then []
    else
      var init, g := KeepGroups(source, groups[..|groups| - 1], duration, beforeUs, failing), groups[|groups| - 1];
      if Expired(source, g, duration, beforeUs, failing) then init else init + [g]
  }

  function CleanView(source: SourceId, v: View, duration: Duration, beforeUs: U64, failing: set<Path>): View {
    v.(closed := KeepGroups(source, v.closed, duration, beforeUs, failing))
  }

  // ---- facts about views ----

  lemma SegmentStartMono(a: U64, b: U64, duration: Duration)
    requires a <= b
    ensures SegmentStart(a, duration) <= SegmentStart(b, duration)
  {
    DivMono(a, b, duration);
    MulMono(a / duration, b / duration, duration);
  }

  lemma DivMono(a: nat, b: nat, d: nat)
    requires a <= b && d > 0
    ensures a / d <= b / d
  {
    var qa, qb := a / d, b / d;
    assert a == qa * d + a % d && b == qb * d + b % d;
    TimesAtLeast(qa - qb, d);
    assert (qa - qb) * d == qa * d - qb * d;
  }

  lemma TimesAtLeast(k: int, d: nat)
    ensures k >= 1 ==> k * d >= d
  {
    if k >= 1 {
      MulMono(1, k, d);
    }
  }

  lemma MulMono(x: nat, y: nat, d: nat)
    requires x <= y
    ensures x * d <= y * d
  {
  }

  lemma GroupsOkSnoc(groups: seq<seq<Frame>>, g: seq<Frame>, duration: Duration)
    requires GroupsOk(groups, duration) && GroupOk(g) && Sorted(g)
    requires groups != [] ==> Before(groups[|groups| - 1], g, duration)
    ensures GroupsOk(groups + [g], duration)
  {
    hide GroupOk, Sorted, SegmentStart;
    var all := groups + [g];
    forall i | 0 <= i < |groups|
      ensures Before(all[i], g, duration)
    {
      if i < |groups| - 1 {
        assert Before(groups[i], groups[|groups| - 1], duration);
        assert Sorted(groups[|groups| - 1]);
        SortedEnds(groups[|groups| - 1]);
      }
    }
  }

  lemma SortedEnds(g: seq<Frame>)
    requires Sorted(g) && g != []
    ensures g[0].timestampUs <= g[|g| - 1].timestampUs
  {
  }

  lemma GroupsOkPrefix(groups: seq<seq<Frame>>, k: nat, duration: Duration)
    requires GroupsOk(groups, duration) && k <= |groups|
    ensures GroupsOk(groups[..k], duration)
  {
  }

  lemma ClosedOk(v: View, duration: Duration)
    requires GroupsOk(Groups(v), duration)
    ensures GroupsOk(v.closed, duration)
  {
    hide GroupsOk;
    GroupsOkPrefix(Groups(v), |v.closed|, duration);
    assert Groups(v)[..|v.closed|] == v.closed;
  }

  lemma GroupGrows(g: seq<Frame>, f: Frame)
    requires GroupOk(g) && Sorted(g) && Storable(f) && |g| + 1 < TWO_32
    requires g[|g| - 1].timestampUs <= f.timestampUs
    ensures GroupOk(g + [f]) && Sorted(g + [f])
  {
  }

  lemma SingleGroup(f: Frame)
    requires Storable(f)
    ensures GroupOk([f]) && Sorted([f])
  {
  }

  /** Storing an allowed frame keeps the groups in order. */
  lemma StoreViewOk(v: View, f: Frame, duration: Duration)
    requires GroupsOk(Groups(v), duration) && Allowed(v, f, duration)
    ensures GroupsOk(Groups(StoreView(v, f, duration)), duration)
  {
    hide GroupOk, Sorted, SegmentStart, Storable;
    var groups := Groups(v);
    if groups == [] {
      SingleGroup(f);
      GroupsOkSnoc([], [f], duration);
      assert [] + [[f]] == [[f]];
    } else {
      var g := Last(v);
      GroupNotEmpty(g);
      SortedEnds(g);
      SegmentStartMono(g[0].timestampUs, f.timestampUs, duration);
      if v.open != [] && WindowOf(v.open, duration) == SegmentStart(f.timestampUs, duration) {
        GroupGrows(g, f);
        GroupsOkPrefix(groups, |v.closed|, duration);
        assert groups[..|v.closed|] == v.closed;
        assert (g + [f])[0] == g[0];
        assert v.closed != [] ==> groups[|v.closed| - 1] == v.closed[|v.closed| - 1]
                                  && Before(groups[|v.closed| - 1], groups[|v.closed|], duration);
        GroupsOkSnoc(v.closed, g + [f], duration);
      } else {
        SingleGroup(f);
        GroupsOkSnoc(groups, [f], duration);
      }
    }
  }

  lemma GroupNotEmpty(g: seq<Frame>)
    requires GroupOk(g)
    ensures g != []
  {
  }

  /** The newest group, and how it follows the one before it. */
  lemma LastGroup(groups: seq<seq<Frame>>, duration: Duration)
    requires GroupsOk(groups, duration) && groups != []
    ensures var g := groups[|groups| - 1];
            && g != [] && Sorted(g)
            && (|groups| > 1 ==> groups[|groups| - 2] != []
                                 && groups[|groups| - 2][|groups[|groups| - 2]| - 1].timestampUs <= g[0].timestampUs)
  {
    hide Sorted;
    assert GroupOk(groups[|groups| - 1]);
    assert |groups| > 1 ==> Before(groups[|groups| - 2], groups[|groups| - 1], duration);
  }

  /** The frames of groups in order are a sorted list, ending with the newest group's last. */
  lemma {:induction false} FlattenSorted(groups: seq<seq<Frame>>, duration: Duration)
    requires GroupsOk(groups, duration)
    ensures Sorted(Flatten(groups))
    ensures groups != [] ==> Flatten(groups) != []
    ensures var all := Flatten(groups);
            groups != [] ==> all[|all| - 1] == groups[|groups| - 1][|groups[|groups| - 1]| - 1]
    decreases |groups|
  {
    hide GroupsOk, Sorted, Flatten;
    if groups == [] {
      NothingFlat();
    } else {
      var init, g := groups[..|groups| - 1], groups[|groups| - 1];
      GroupsOkPrefix(groups, |groups| - 1, duration);
      LastGroup(groups, duration);
      FlattenSorted(init, duration);
      FlattenSnoc(init, g);
      assert init + [g] == groups;
      if init == [] {
        NothingFlat();
        assert [] + g == g;
      } else {
        SortedConcat(Flatten(init), g);
      }
    }
  }

  lemma NothingFlat()
    ensures Flatten<Frame>([]) == [] && Sorted([])
  {
  }

  lemma SortedConcat(a: seq<Frame>, b: seq<Frame>)
    requires Sorted(a) && Sorted(b) && a != [] && b != []
    requires a[|a| - 1].timestampUs <= b[0].timestampUs
    ensures Sorted(a + b)
  {
    forall i, j | 0 <= i < j < |a + b|
      ensures (a + b)[i].timestampUs <= (a + b)[j].timestampUs
    {
      if i < |a| <= j {
        assert a[i].timestampUs <= a[|a| - 1].timestampUs;
        assert b[0].timestampUs <= b[j - |a|].timestampUs;
      }
    }
  }

  // ---- representation ----

  /** The finished segment of one group: its index entry and its file. */
  ghost predicate ClosedRep(files: map<Path, seq<Byte>>, source: SourceId, g: seq<Frame>, seg: SegmentIndex,
                            duration: Duration)
    requires GroupOk(g)
  {
    var path := PathOf(source, g, duration);
    seg == Entry(path, g) && path in files && files[path] == SegmentFile(g)
  }

  /** The open segment: its writer, and its file with a header still to come. */
  ghost predicate OpenRep(files: map<Path, seq<Byte>>, source: SourceId, g: seq<Frame>, w: SegmentWriter,
                          duration: Duration)
    requires GroupOk(g)
  {
    var path := PathOf(source, g, duration);
    && w == SegmentWriter(path, g[0].timestampUs, g[|g| - 1].timestampUs, |g|, HEADER_SIZE + |Records(g)|)
    && path in files && |files[path]| == HEADER_SIZE + |Records(g)| && files[path][HEADER_SIZE..] == Records(g)
  }

  ghost predicate ClosedReps(files: map<Path, seq<Byte>>, source: SourceId, closed: seq<seq<Frame>>,
                             segs: seq<SegmentIndex>, duration: Duration)
  {
    && |segs| == |closed|
    && forall i | 0 <= i < |closed| :: GroupOk(closed[i]) && ClosedRep(files, source, closed[i], segs[i], duration)
  }

  lemma ClosedRepsLength(files: map<Path, seq<Byte>>, source: SourceId, groups: seq<seq<Frame>>,
                         segs: seq<SegmentIndex>, duration: Duration)
    requires ClosedReps(files, source, groups, segs, duration)
    ensures |segs| == |groups|
  {
  }

  ghost predicate PathIn(p: Path, source: SourceId, groups: seq<seq<Frame>>, duration: Duration) {
    exists i :: 0 <= i < |groups| && p == PathOf(source, groups[i], duration)
  }

  /** Every file of the source belongs to one of its groups. */
  ghost predicate FilesKnown(files: map<Path, seq<Byte>>, source: SourceId, groups: seq<seq<Frame>>, duration: Duration)
  {
    forall p :: p in files && p.source == source ==> PathIn(p, source, groups, duration)
  }

  ghost predicate Rep(st: Store, duration: Duration, source: SourceId, v: View) {
    && GroupsOk(Groups(v), duration)
    && ClosedReps(st.files, source, v.closed, Segments(st, source), duration)
    && (source in st.writers <==> v.open != [])
    && (v.open != [] ==> GroupOk(v.open) && OpenRep(st.files, source, v.open, st.writers[source], duration))
    && FilesKnown(st.files, source, Groups(v), duration)
    && (source in st.dirs <==> source in st.index || source in st.writers)
  }

  ghost predicate SameFile(a: map<Path, seq<Byte>>, b: map<Path, seq<Byte>>, p: Path) {
    (p in a <==> p in b) && (p in a ==> a[p] == b[p])
  }

  /** Two stores that hold the same for a source. */
  ghost predicate SameFor(st: Store, st': Store, source: SourceId) {
    && (forall p: Path | p.source == source :: SameFile(st.files, st'.files, p))
    && (source in st.index <==> source in st'.index) && Segments(st, source) == Segments(st', source)
    && (source in st.writers <==> source in st'.writers)
        && (source in st.writers ==> st.writers[source] == st'.writers[source])
    && (source in st.dirs <==> source in st'.dirs)
  }

  lemma RepFrame(st: Store, st': Store, duration: Duration, source: SourceId, v: View)
    requires Rep(st, duration, source, v) && SameFor(st, st', source)
    ensures Rep(st', duration, source, v)
  {
    hide GroupsOk, GroupOk, SegmentFile, Records, Segments;
    if v.open != [] {
      assert PathOf(source, v.open, duration).source == source;
    }
    forall i | 0 <= i < |v.closed|
      ensures GroupOk(v.closed[i]) && ClosedRep(st'.files, source, v.closed[i], Segments(st', source)[i], duration)
    {
      assert GroupOk(v.closed[i]) && ClosedRep(st.files, source, v.closed[i], Segments(st, source)[i], duration);
      ClosedRepFrame(st, st', duration, source, v.closed[i], Segments(st, source)[i]);
    }
  }

  lemma ClosedRepFrame(st: Store, st': Store, duration: Duration, source: SourceId, g: seq<Frame>, seg: SegmentIndex)
    requires GroupOk(g) && SameFor(st, st', source) && ClosedRep(st.files, source, g, seg, duration)
    ensures ClosedRep(st'.files, source, g, seg, duration)
  {
    hide SegmentFile, Entry, Segments;
    assert PathOf(source, g, duration).source == source;
  }

  /** Writers and index entries name files of their own source. */
  ghost predicate Own(st: Store) {
    && (forall s :: s in st.writers ==> st.writers[s].path.source == s)
    && (forall s, i :: s in st.index && 0 <= i < |st.index[s]| ==> st.index[s][i].path.source == s)
  }
}
