/** Cleanup removes exactly the expired groups of each source it visits, whatever
deletions fail, and the byte total stays the sum of the indexed sizes. */
module StorageCleanup {
  import opened Bytes
  import opened Frames
  import opened Seqs
  import opened StorageSpec
  import opened StorageCodec
  import opened StorageViews
  import opened StorageRefinement

  // ---- which groups stay ----

  lemma {:induction false} KeepMember(source: SourceId, groups: seq<seq<Frame>>, duration: Duration, beforeUs: U64,
                                      failing: set<Path>)
    ensures forall g :: g in KeepGroups(source, groups, duration, beforeUs, failing)
                        <==> g in groups && !Expired(source, g, duration, beforeUs, failing)
    decreases |groups|
  {
    hide Expired;
    if groups != [] {
      var init, g := groups[..|groups| - 1], groups[|groups| - 1];
      KeepMember(source, init, duration, beforeUs, failing);
      assert groups == init + [g];
      var kept := KeepGroups(source, init, duration, beforeUs, failing);
      assert forall h :: h in kept + [g] <==> h in kept || h == g;
    }
  }

  lemma {:induction false} KeepOk(source: SourceId, groups: seq<seq<Frame>>, duration: Duration, beforeUs: U64,
                                  failing: set<Path>)
    requires GroupsOk(groups, duration)
    ensures GroupsOk(KeepGroups(source, groups, duration, beforeUs, failing), duration)
    decreases |groups|
  {
    hide Expired, Before, GroupOk, Sorted;
    if groups != [] {
      var init, g := groups[..|groups| - 1], groups[|groups| - 1];
      GroupsOkPrefix(groups, |groups| - 1, duration);
      KeepOk(source, init, duration, beforeUs, failing);
      KeepSnocOk(source, groups, duration, beforeUs, failing);
    }
  }

  /** What is kept of the older groups still comes before the newest. */
  lemma KeepSnocOk(source: SourceId, groups: seq<seq<Frame>>, duration: Duration, beforeUs: U64, failing: set<Path>)
    requires GroupsOk(groups, duration) && groups != []
    requires GroupsOk(KeepGroups(source, groups[..|groups| - 1], duration, beforeUs, failing), duration)
    ensures GroupsOk(KeepGroups(source, groups[..|groups| - 1], duration, beforeUs, failing)
        + [groups[|groups| - 1]], duration)
  {
    hide Expired, Before, GroupOk, Sorted, KeepGroups;
    var init, g := groups[..|groups| - 1], groups[|groups| - 1];
    var kept := KeepGroups(source, init, duration, beforeUs, failing);
    KeepMember(source, init, duration, beforeUs, failing);
    if kept != [] {
      assert kept[|kept| - 1] in init;
      var i :| 0 <= i < |init| && init[i] == kept[|kept| - 1];
      assert Before(groups[i], groups[|groups| - 1], duration);
    }
    GroupsOkSnoc(kept, g, duration);
  }

  lemma {:induction false} KeepTwice(source: SourceId, groups: seq<seq<Frame>>, duration: Duration, beforeUs: U64,
                                     failing: set<Path>)
    ensures var kept := KeepGroups(source, groups, duration, beforeUs, failing);
            KeepGroups(source, kept, duration, beforeUs, failing) == kept
    decreases |groups|
  {
    hide Expired;
    if groups != [] {
      var init, g := groups[..|groups| - 1], groups[|groups| - 1];
      KeepTwice(source, init, duration, beforeUs, failing);
      SnocParts(KeepGroups(source, init, duration, beforeUs, failing), g);
    }
  }

  /** A query from the cutoff on does not see the difference. */
  lemma {:induction false} KeepFilter(source: SourceId, groups: seq<seq<Frame>>, duration: Duration, beforeUs: U64,
                                      failing: set<Path>, startUs: U64, endUs: U64)
    requires GroupsOk(groups, duration) && beforeUs <= startUs
    ensures FilterRange(Flatten(KeepGroups(source, groups, duration, beforeUs, failing)), startUs, endUs)
         == FilterRange(Flatten(groups), startUs, endUs)
    decreases |groups|
  {
    hide Before, GroupOk, Sorted, FilterRange, Flatten;
    if groups != [] {
      var init, g := groups[..|groups| - 1], groups[|groups| - 1];
      GroupsOkPrefix(groups, |groups| - 1, duration);
      KeepFilter(source, init, duration, beforeUs, failing, startUs, endUs);
      var kept := KeepGroups(source, init, duration, beforeUs, failing);
      assert groups == init + [g] && Sorted(g);
      FlattenSnoc(init, g);
      FlattenSnoc(kept, g);
      FilterAppend(Flatten(init), g, startUs, endUs);
      FilterAppend(Flatten(kept), g, startUs, endUs);
      if Expired(source, g, duration, beforeUs, failing) {
        OldGroup(g, startUs, endUs);
      }
    }
  }

  lemma OldGroup(g: seq<Frame>, startUs: U64, endUs: U64)
    requires Sorted(g) && g != [] && g[|g| - 1].timestampUs < startUs
    ensures FilterRange(g, startUs, endUs) == []
  {
    hide FilterRange;
    forall f | f in g
      ensures !InRange(f, startUs, endUs)
    {
      var i :| 0 <= i < |g| && g[i] == f;
    }
    FilterNone(g, startUs, endUs);
  }

  // ---- one source ----

  /** A file stays if it belongs to no cleaned group, or to a kept one. */
  ghost predicate Survives(p: Path, source: SourceId, groups: seq<seq<Frame>>, kept: seq<seq<Frame>>,
                           duration: Duration)
  {
    PathIn(p, source, groups, duration) ==> PathIn(p, source, kept, duration)
  }

  /** Cleaning the segments of well-formed groups: the entries and the files of the kept
  groups stay, the files of the others go, and no other file changes. */
  ghost predicate CleanedAs(files: map<Path, seq<Byte>>, c: Cleaned, source: SourceId, groups: seq<seq<Frame>>,
                            kept: seq<seq<Frame>>, duration: Duration)
  {
    && ClosedReps(c.files, source, kept, c.kept, duration)
    && (forall p :: p in c.files <==> p in files && Survives(p, source, groups, kept, duration))
    && (forall p :: p in c.files ==> p in files && c.files[p] == files[p])
  }

  lemma {:induction false} CleanSegmentsRep(files: map<Path, seq<Byte>>, source: SourceId, groups: seq<seq<Frame>>,
                                            segs: seq<SegmentIndex>,
                                            duration: Duration, beforeUs: U64, failing: set<Path>)
    requires GroupsOk(groups, duration) && ClosedReps(files, source, groups, segs, duration)
    ensures CleanedAs(files, CleanSegments(files, segs, beforeUs, failing), source, groups,
                      KeepGroups(source, groups, duration, beforeUs, failing), duration)
    decreases |groups|
  {
    hide GroupsOk, ClosedReps, CleanedAs, Expired, PathIn, Deletable;
    if groups == [] {
      CleanNothing(files, source, duration);
      ClosedRepsLength(files, source, groups, segs, duration);
    } else {
      ClosedRepsLength(files, source, groups, segs, duration);
      var init, sinit := groups[..|groups| - 1], segs[..|segs| - 1];
      GroupsOkPrefix(groups, |groups| - 1, duration);
      ClosedRepsPrefix(files, source, groups, segs, duration);
      CleanSegmentsRep(files, source, init, sinit, duration, beforeUs, failing);
      CleanStepRep(files, source, groups, segs, duration, beforeUs, failing);
    }
  }

  lemma CleanNothing(files: map<Path, seq<Byte>>, source: SourceId, duration: Duration)
    ensures CleanedAs(files, Cleaned(files, [], 0), source, [], [], duration)
  {
  }

  lemma ClosedRepsPrefix(files: map<Path, seq<Byte>>, source: SourceId, groups: seq<seq<Frame>>,
                         segs: seq<SegmentIndex>, duration: Duration)
    requires ClosedReps(files, source, groups, segs, duration) && groups != []
    ensures ClosedReps(files, source, groups[..|groups| - 1], segs[..|segs| - 1], duration)
    ensures var g := groups[|groups| - 1];
            GroupOk(g) && ClosedRep(files, source, g, segs[|segs| - 1], duration)
  {
    hide GroupOk, ClosedRep;
  }

  lemma ClosedRepsSnoc(files: map<Path, seq<Byte>>, source: SourceId, groups: seq<seq<Frame>>, segs: seq<SegmentIndex>,
                       g: seq<Frame>, seg: SegmentIndex, duration: Duration)
    requires ClosedReps(files, source, groups, segs, duration) && GroupOk(g)
        && ClosedRep(files, source, g, seg, duration)
    ensures ClosedReps(files, source, groups + [g], segs + [seg], duration)
  {
    hide GroupOk, ClosedRep;
  }

  lemma CleanStepRep(files: map<Path, seq<Byte>>, source: SourceId, groups: seq<seq<Frame>>, segs: seq<SegmentIndex>,
                     duration: Duration, beforeUs: U64, failing: set<Path>)
    requires GroupsOk(groups, duration) && ClosedReps(files, source, groups, segs, duration) && groups != []
    requires |segs| == |groups|
    requires CleanedAs(files, CleanSegments(files, segs[..|segs| - 1], beforeUs, failing), source,
        groups[..|groups| - 1],
                       KeepGroups(source, groups[..|groups| - 1], duration, beforeUs, failing), duration)
    ensures CleanedAs(files, CleanSegments(files, segs, beforeUs, failing), source, groups,
                      KeepGroups(source, groups, duration, beforeUs, failing), duration)
  {
    hide GroupsOk, ClosedReps, PathIn, GroupOk, PathOf, SegmentFile, CleanedAs;
    var init, g, seg := groups[..|groups| - 1], groups[|groups| - 1], segs[|segs| - 1];
    var c := CleanSegments(files, segs[..|segs| - 1], beforeUs, failing);
    var kept := KeepGroups(source, init, duration, beforeUs, failing);
    assert groups == init + [g];
    ClosedRepsPrefix(files, source, groups, segs, duration);
    GroupNotEmpty(g);
    LastPathFresh(source, groups, duration);
    KeptPathsWithin(source, init, duration, beforeUs, failing);
    StillThere(files, c, source, init, kept, duration, PathOf(source, g, duration));
    if Expired(source, g, duration, beforeUs, failing) {
      ExpiredCleaned(files, c, source, init, g, kept, duration);
    } else {
      KeptCleaned(files, c, source, init, g, seg, kept, duration);
    }
  }

  /** The file of a group that has not been looked at is still there. */
  lemma StillThere(files: map<Path, seq<Byte>>, c: Cleaned, source: SourceId, init: seq<seq<Frame>>,
                   kept: seq<seq<Frame>>,
                   duration: Duration, path: Path)
    requires CleanedAs(files, c, source, init, kept, duration) && path in files && !PathIn(path, source, init, duration)
    ensures path in c.files && c.files[path] == files[path]
  {
    hide ClosedReps, PathIn;
  }

  lemma PathsSnoc(source: SourceId, groups: seq<seq<Frame>>, g: seq<Frame>, duration: Duration)
    ensures var path := PathOf(source, g, duration);
            forall p :: PathIn(p, source, groups + [g], duration) <==> PathIn(p, source, groups, duration) || p == path
  {
    hide PathIn, PathOf;
    forall p
      ensures PathIn(p, source, groups + [g], duration)
          <==> PathIn(p, source, groups, duration) || p == PathOf(source, g, duration)
    {
      PathInSnoc(p, source, groups, g, duration);
    }
  }

  lemma ExpiredCleaned(files: map<Path, seq<Byte>>, c: Cleaned, source: SourceId, init: seq<seq<Frame>>, g: seq<Frame>,
                       kept: seq<seq<Frame>>, duration: Duration)
    requires CleanedAs(files, c, source, init, kept, duration)
    requires var path := PathOf(source, g, duration);
             !PathIn(path, source, init, duration) && !PathIn(path, source, kept, duration)
    ensures forall bytes: nat :: CleanedAs(files, Cleaned(c.files - {PathOf(source, g, duration)}, c.kept, bytes),
        source, init + [g], kept, duration)
  {
    hide ClosedReps, PathIn, PathOf;
    var path := PathOf(source, g, duration);
    PathsSnoc(source, init, g, duration);
    ClosedRepsOther(c.files, c.files - {path}, source, kept, c.kept, duration, path);
  }

  lemma KeptCleaned(files: map<Path, seq<Byte>>, c: Cleaned, source: SourceId, init: seq<seq<Frame>>, g: seq<Frame>,
                    seg: SegmentIndex,
                    kept: seq<seq<Frame>>, duration: Duration)
    requires CleanedAs(files, c, source, init, kept, duration)
    requires GroupOk(g) && ClosedRep(c.files, source, g, seg, duration)
    requires !PathIn(PathOf(source, g, duration), source, init, duration)
    ensures CleanedAs(files, c.(kept := c.kept + [seg]), source, init + [g], kept + [g], duration)
  {
    hide ClosedReps, PathIn, PathOf, GroupOk, ClosedRep;
    PathsSnoc(source, init, g, duration);
    PathsSnoc(source, kept, g, duration);
    ClosedRepsSnoc(c.files, source, kept, c.kept, g, seg, duration);
  }

  lemma LastPathFresh(source: SourceId, groups: seq<seq<Frame>>, duration: Duration)
    requires GroupsOk(groups, duration) && groups != []
    ensures var path := PathOf(source, groups[|groups| - 1], duration);
            !PathIn(path, source, groups[..|groups| - 1], duration)
  {
    hide GroupOk, Sorted;
    assert groups == groups[..|groups| - 1] + [groups[|groups| - 1]];
    NewPathFresh(groups[..|groups| - 1], groups[|groups| - 1], duration, source);
  }

  lemma KeptPathsWithin(source: SourceId, groups: seq<seq<Frame>>, duration: Duration, beforeUs: U64,
                        failing: set<Path>)
    ensures forall p :: PathIn(p, source, KeepGroups(source, groups, duration, beforeUs, failing), duration)
                        ==> PathIn(p, source, groups, duration)
  {
    hide PathOf, Expired, KeepGroups;
    var kept := KeepGroups(source, groups, duration, beforeUs, failing);
    KeepMember(source, groups, duration, beforeUs, failing);
    forall p | PathIn(p, source, kept, duration)
      ensures PathIn(p, source, groups, duration)
    {
      var i :| 0 <= i < |kept| && p == PathOf(source, kept[i], duration);
      assert kept[i] in groups;
    }
  }

  lemma ClosedRepsOther(files: map<Path, seq<Byte>>, files': map<Path, seq<Byte>>, source: SourceId,
                        groups: seq<seq<Frame>>,
                        segs: seq<SegmentIndex>, duration: Duration, path: Path)
    requires ClosedReps(files, source, groups, segs, duration)
    requires forall p :: p in files && p != path ==> p in files' && files'[p] == files[p]
    requires !PathIn(path, source, groups, duration)
    ensures ClosedReps(files', source, groups, segs, duration)
  {
    hide GroupOk, SegmentFile, Entry, PathOf;
    forall i | 0 <= i < |groups|
      ensures GroupOk(groups[i]) && ClosedRep(files', source, groups[i], segs[i], duration)
    {
      assert GroupOk(groups[i]) && ClosedRep(files, source, groups[i], segs[i], duration);
      assert PathOf(source, groups[i], duration) != path;
    }
  }

  // ---- the other sources ----

  /** Cleaning deletes files of the listed segments only, and keeps entries only. */
  lemma {:induction false} CleanSegmentsFrame(files: map<Path, seq<Byte>>, segs: seq<SegmentIndex>, beforeUs: U64,
                                              failing: set<Path>)
    ensures var c := CleanSegments(files, segs, beforeUs, failing);
            && (forall p :: p in c.files ==> p in files && c.files[p] == files[p])
            && (forall p :: p in files && (forall s :: s in segs ==> s.path != p) ==> p in c.files)
            && (forall s :: s in c.kept ==> s in segs)
    decreases |segs|
  {
    hide Deletable;
    if segs != [] {
      CleanSegmentsFrame(files, segs[..|segs| - 1], beforeUs, failing);
      var c := CleanSegments(files, segs[..|segs| - 1], beforeUs, failing);
      assert forall s :: s in segs <==> s in segs[..|segs| - 1] || s == segs[|segs| - 1] by {
        assert segs == segs[..|segs| - 1] + [segs[|segs| - 1]];
      }
      assert forall s :: s in c.kept + [segs[|segs| - 1]] <==> s in c.kept || s == segs[|segs| - 1];
    }
  }

  lemma CleanSourceFrame(st: Store, source: SourceId, beforeUs: U64, failing: set<Path>, other: SourceId)
    requires Own(st)
    ensures Own(CleanSource(st, source, beforeUs, failing).0)
    ensures other != source ==> SameFor(st, CleanSource(st, source, beforeUs, failing).0, other)
  {
    hide CleanSegments;
    if source in st.index {
      var segs := st.index[source];
      CleanSegmentsFrame(st.files, segs, beforeUs, failing);
      var c := CleanSegments(st.files, segs, beforeUs, failing);
      assert forall s :: s in segs ==> s.path.source == source;
    }
  }

  lemma CleanSourceRep(st: Store, duration: Duration, source: SourceId, v: View, beforeUs: U64, failing: set<Path>)
    requires Rep(st, duration, source, v)
    ensures Rep(CleanSource(st, source, beforeUs, failing).0, duration, source,
        CleanView(source, v, duration, beforeUs, failing))
  {
    hide GroupsOk, ClosedReps, OpenRep, FilesKnown, CleanSegments, KeepGroups, GroupOk;
    CleanGroupsOk(source, v, duration, beforeUs, failing);
    ClosedRepsLength(st.files, source, v.closed, Segments(st, source), duration);
    if source in st.index {
      ClosedOk(v, duration);
      CleanSegmentsRep(st.files, source, v.closed, st.index[source], duration, beforeUs, failing);
      var c := CleanSegments(st.files, st.index[source], beforeUs, failing);
      var kept := KeepGroups(source, v.closed, duration, beforeUs, failing);
      CleanedClosed(st.files, c, source, v.closed, kept, duration);
      CleanedKnown(st.files, c, source, v, kept, duration);
      if v.open != [] {
        CleanedOpen(st, c, source, v, kept, duration);
      }
    } else {
      assert v.closed == [];
      KeepEmpty(source, duration, beforeUs, failing);
      assert CleanView(source, v, duration, beforeUs, failing) == v;
    }
  }

  lemma KeepEmpty(source: SourceId, duration: Duration, beforeUs: U64, failing: set<Path>)
    ensures KeepGroups(source, [], duration, beforeUs, failing) == []
  {
  }

  lemma CleanGroupsOk(source: SourceId, v: View, duration: Duration, beforeUs: U64, failing: set<Path>)
    requires GroupsOk(Groups(v), duration)
    ensures GroupsOk(Groups(CleanView(source, v, duration, beforeUs, failing)), duration)
  {
    hide GroupsOk, KeepGroups;
    ClosedOk(v, duration);
    KeepOk(source, v.closed, duration, beforeUs, failing);
    if v.open != [] {
      assert Groups(v)[..|v.closed|] == v.closed;
      KeepSnocOk(source, Groups(v), duration, beforeUs, failing);
    }
  }

  lemma CleanedClosed(files: map<Path, seq<Byte>>, c: Cleaned, source: SourceId, groups: seq<seq<Frame>>,
                      kept: seq<seq<Frame>>, duration: Duration)
    requires CleanedAs(files, c, source, groups, kept, duration)
    ensures ClosedReps(c.files, source, kept, c.kept, duration)
  {
  }

  lemma CleanedKnown(files: map<Path, seq<Byte>>, c: Cleaned, source: SourceId, v: View, kept: seq<seq<Frame>>,
                     duration: Duration)
    requires CleanedAs(files, c, source, v.closed, kept, duration) && FilesKnown(files, source, Groups(v), duration)
    ensures FilesKnown(c.files, source, Groups(v.(closed := kept)), duration)
  {
    hide PathIn, ClosedReps, PathOf;
    forall p | p in c.files && p.source == source
      ensures PathIn(p, source, Groups(v.(closed := kept)), duration)
    {
      PathInSnoc(p, source, v.closed, v.open, duration);
      PathInSnoc(p, source, kept, v.open, duration);
    }
  }

  /** The open segment's file is not among those cleaned. */
  lemma CleanedOpen(st: Store, c: Cleaned, source: SourceId, v: View, kept: seq<seq<Frame>>, duration: Duration)
    requires Rep(st, duration, source, v) && v.open != []
    requires CleanedAs(st.files, c, source, v.closed, kept, duration)
    ensures OpenRep(c.files, source, v.open, st.writers[source], duration)
  {
    hide GroupsOk, ClosedReps, FilesKnown, GroupOk, Records, PathOf;
    OpenPathFresh(st, duration, source, v);
  }

  // ---- all sources ----

  lemma {:induction false} CleanSourcesRep(st: Store, duration: Duration, order: seq<SourceId>, beforeUs: U64,
                                           failing: set<Path>,
                                           source: SourceId, v: View)
    requires Own(st) && Rep(st, duration, source, v)
    ensures Own(CleanSources(st, order, beforeUs, failing).0)
    ensures Rep(CleanSources(st, order, beforeUs, failing).0, duration, source,
                if source in order then CleanView(source, v, duration, beforeUs, failing) else v)
    decreases |order|
  {
    hide Rep, Own, SameFor, CleanSource, KeepGroups;
    if order != [] {
      var init, s := order[..|order| - 1], order[|order| - 1];
      CleanSourcesRep(st, duration, init, beforeUs, failing, source, v);
      assert order == init + [s];
      var before := CleanSources(st, init, beforeUs, failing).0;
      var v' := if source in init then CleanView(source, v, duration, beforeUs, failing) else v;
      CleanSourceFrame(before, s, beforeUs, failing, source);
      if s == source {
        CleanSourceRep(before, duration, source, v', beforeUs, failing);
        KeepTwice(source, v.closed, duration, beforeUs, failing);
      } else {
        RepFrame(before, CleanSource(before, s, beforeUs, failing).0, duration, source, v');
      }
    }
  }

  lemma CleanupRep(st: Store, duration: Duration, order: seq<SourceId>, beforeUs: U64, failing: set<Path>,
                   source: SourceId, v: View)
    requires Own(st) && Rep(st, duration, source, v)
    ensures Own(CleanupIn(st, order, beforeUs, failing))
    ensures Rep(CleanupIn(st, order, beforeUs, failing), duration, source,
                if source in order then CleanView(source, v, duration, beforeUs, failing) else v)
  {
    hide GroupsOk, ClosedReps, OpenRep, FilesKnown, CleanSources, CleanView, GroupOk;
    CleanSourcesRep(st, duration, order, beforeUs, failing, source, v);
  }
}
