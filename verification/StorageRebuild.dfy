/** Opening the storage again rebuilds the index that was live when it was closed. */
module StorageRebuild {
  import opened Bytes
  import opened Frames
  import opened Seqs
  import opened StorageSpec
  import opened StorageCodec
  import opened StorageViews
  import opened StorageRefinement
  import opened StorageRuns
  import opened StorageTotals

  /** rebuild_index_sync, with the source directories in `order` and each directory's
  files in the order of its listing: the index and the byte total. */
  function Rebuild(files: map<Path, seq<Byte>>, order: seq<SourceId>,
                   listings: map<SourceId, seq<Path>>): (map<SourceId, seq<SegmentIndex>>, nat)
    decreases |order|
  {
    if order == [] then (map[], 0)
    else
      var (index, total) := Rebuild(files, order[..|order| - 1], listings);
      var source := order[|order| - 1];
      var segs := ReadListing(files, if source in listings then listings[source] else []);
      (index[source := SortByStart(segs)], total + SumSizes(segs))
  }

  predicate NoDup<T(==)>(s: seq<T>) {
    forall i, j | 0 <= i < j < |s| :: s[i] != s[j]
  }

  /** A directory listing: each file of the source once, in any order. */
  ghost predicate ListsDirectory(files: map<Path, seq<Byte>>, source: SourceId, listing: seq<Path>) {
    NoDup(listing) && forall p :: p in listing <==> p in files && p.source == source
  }

  // ---- sorting by start time ----

  predicate StrictByStart(segs: seq<SegmentIndex>) {
    forall i, j | 0 <= i < j < |segs| :: segs[i].startTimeUs < segs[j].startTimeUs
  }

  predicate DistinctStarts(segs: seq<SegmentIndex>) {
    forall i, j | 0 <= i < j < |segs| :: segs[i].startTimeUs != segs[j].startTimeUs
  }

  ghost predicate SameElements(a: seq<SegmentIndex>, b: seq<SegmentIndex>) {
    forall e :: e in a <==> e in b
  }

  lemma {:induction false} InsertIsSorted(segs: seq<SegmentIndex>, seg: SegmentIndex)
    requires StrictByStart(segs) && forall e :: e in segs ==> e.startTimeUs != seg.startTimeUs
    ensures StrictByStart(InsertByStart(segs, seg))
    ensures forall e :: e in InsertByStart(segs, seg) <==> e in segs || e == seg
    decreases |segs|
  {
    hide StrictByStart;
    if segs == [] {
      StrictSnoc([], seg);
    } else {
      var init, last := segs[..|segs| - 1], segs[|segs| - 1];
      StrictInit(segs);
      assert segs == init + [last] && last in segs;
      if last.startTimeUs > seg.startTimeUs {
        InsertIsSorted(init, seg);
        StrictSnoc(InsertByStart(init, seg), last);
      } else {
        StrictSnoc(segs, seg);
      }
    }
  }

  lemma StrictInit(segs: seq<SegmentIndex>)
    requires StrictByStart(segs) && segs != []
    ensures StrictByStart(segs[..|segs| - 1])
    ensures forall i | 0 <= i < |segs| - 1 :: segs[i].startTimeUs < segs[|segs| - 1].startTimeUs
  {
  }

  lemma StrictSnoc(segs: seq<SegmentIndex>, seg: SegmentIndex)
    requires StrictByStart(segs) && forall e :: e in segs ==> e.startTimeUs < seg.startTimeUs
    ensures StrictByStart(segs + [seg])
  {
  }

  lemma {:induction false} SortIsSorted(segs: seq<SegmentIndex>)
    requires DistinctStarts(segs)
    ensures StrictByStart(SortByStart(segs)) && SameElements(SortByStart(segs), segs)
    decreases |segs|
  {
    hide InsertByStart, StrictByStart;
    if segs == [] {
      NothingIsSorted();
    } else {
      var init, last := segs[..|segs| - 1], segs[|segs| - 1];
      SortIsSorted(init);
      assert segs == init + [last];
      forall e | e in SortByStart(init)
        ensures e.startTimeUs != last.startTimeUs
      {
        assert e in init;
      }
      InsertIsSorted(SortByStart(init), last);
    }
  }

  lemma NothingIsSorted()
    ensures StrictByStart([])
  {
  }

  /** A strictly sorted list is determined by its elements. */
  lemma {:induction false} SortedIsUnique(a: seq<SegmentIndex>, b: seq<SegmentIndex>)
    requires StrictByStart(a) && StrictByStart(b) && SameElements(a, b)
    ensures a == b
    decreases |a|
  {
    HeadIn(a);
    HeadIn(b);
    if a != [] {
      SameInits(a, b);
      SortedIsUnique(a[..|a| - 1], b[..|b| - 1]);
      assert a == a[..|a| - 1] + [a[|a| - 1]] && b == b[..|b| - 1] + [b[|b| - 1]];
    }
  }

  lemma HeadIn(a: seq<SegmentIndex>)
    ensures a != [] ==> a[0] in a
  {
  }

  lemma SameLast(a: seq<SegmentIndex>, b: seq<SegmentIndex>)
    requires StrictByStart(a) && StrictByStart(b) && SameElements(a, b) && a != [] && b != []
    ensures a[|a| - 1] == b[|b| - 1]
  {
    hide StrictByStart;
    AtMostLast(b, a[|a| - 1]);
    AtMostLast(a, b[|b| - 1]);
  }

  lemma AtMostLast(a: seq<SegmentIndex>, e: SegmentIndex)
    requires StrictByStart(a) && e in a
    ensures e.startTimeUs < a[|a| - 1].startTimeUs || e == a[|a| - 1]
  {
  }

  lemma InitElements(a: seq<SegmentIndex>, init: seq<SegmentIndex>)
    requires StrictByStart(a) && a != [] && init == a[..|a| - 1]
    ensures forall e :: e in init <==> e in a && e != a[|a| - 1]
  {
    assert a == init + [a[|a| - 1]];
    forall e | e in init
      ensures e.startTimeUs < a[|a| - 1].startTimeUs
    {
      var i :| 0 <= i < |a| - 1 && a[i] == e;
    }
  }

  lemma SameInits(a: seq<SegmentIndex>, b: seq<SegmentIndex>)
    requires StrictByStart(a) && StrictByStart(b) && SameElements(a, b) && a != [] && b != []
    ensures SameElements(a[..|a| - 1], b[..|b| - 1]) && a[|a| - 1] == b[|b| - 1]
  {
    hide StrictByStart;
    SameLast(a, b);
    InitElements(a, a[..|a| - 1]);
    InitElements(b, b[..|b| - 1]);
  }

  lemma {:induction false} InsertSum(segs: seq<SegmentIndex>, seg: SegmentIndex)
    ensures SumSizes(InsertByStart(segs, seg)) == SumSizes(segs) + seg.sizeBytes
    decreases |segs|
  {
    if segs != [] && segs[|segs| - 1].startTimeUs > seg.startTimeUs {
      InsertSum(segs[..|segs| - 1], seg);
      SnocParts(InsertByStart(segs[..|segs| - 1], seg), segs[|segs| - 1]);
    } else {
      SnocParts(segs, seg);
    }
  }

  lemma {:induction false} SortSum(segs: seq<SegmentIndex>)
    ensures SumSizes(SortByStart(segs)) == SumSizes(segs)
    decreases |segs|
  {
    hide InsertByStart;
    if segs != [] {
      SortSum(segs[..|segs| - 1]);
      InsertSum(SortByStart(segs[..|segs| - 1]), segs[|segs| - 1]);
    }
  }

  // ---- one directory ----

  /** The entry is what the file that it names reads as. */
  predicate IsRead(files: map<Path, seq<Byte>>, e: SegmentIndex) {
    e.path in files && Some(e) == ReadSegmentIndex(e.path, files[e.path])
  }

  /** The segments read from a listing: one for each file that can be read, none twice. */
  lemma {:induction false} ListingRead(files: map<Path, seq<Byte>>, listing: seq<Path>)
    requires NoDup(listing)
    ensures forall e: SegmentIndex :: e in ReadListing(files, listing) <==> e.path in listing && IsRead(files, e)
    ensures NoDup(ReadListing(files, listing))
    decreases |listing|
  {
    hide ReadSegmentIndex;
    if listing != [] {
      var init, path := listing[..|listing| - 1], listing[|listing| - 1];
      assert listing == init + [path];
      ListingRead(files, init);
      assert path !in init;
      assert forall d: SegmentIndex :: d.path in listing <==> d.path in init || d.path == path;
      if path in files && ReadSegmentIndex(path, files[path]).Some? {
        var e := ReadSegmentIndex(path, files[path]).value;
        ReadKeepsPath(path, files[path]);
        assert forall d :: d in ReadListing(files, init) + [e] <==> d in ReadListing(files, init) || d == e;
      }
    }
  }

  lemma ReadKeepsPath(path: Path, file: seq<Byte>)
    ensures ReadSegmentIndex(path, file).Some? ==> ReadSegmentIndex(path, file).value.path == path
  {
  }

  /** Entries of ordered groups are strictly ordered by start time. */
  lemma EntriesSorted(files: map<Path, seq<Byte>>, source: SourceId, groups: seq<seq<Frame>>, segs: seq<SegmentIndex>,
                      duration: Duration)
    requires GroupsOk(groups, duration) && ClosedReps(files, source, groups, segs, duration)
    ensures StrictByStart(segs)
    ensures forall i, j | 0 <= i < |segs| && 0 <= j < |segs| && segs[i].path == segs[j].path :: i == j
  {
    hide SegmentFile, SegmentStart, GroupOk, Sorted;
    forall i, j | 0 <= i < j < |segs|
      ensures segs[i].startTimeUs < segs[j].startTimeUs && segs[i].path != segs[j].path
    {
      assert Before(groups[i], groups[j], duration);
      assert GroupOk(groups[i]) && ClosedRep(files, source, groups[i], segs[i], duration);
      assert GroupOk(groups[j]) && ClosedRep(files, source, groups[j], segs[j], duration);
      StartsOrdered(groups[i], groups[j], duration);
    }
  }

  lemma StartsOrdered(g: seq<Frame>, h: seq<Frame>, duration: Duration)
    requires Before(g, h, duration)
    ensures g[0].timestampUs < h[0].timestampUs
  {
    hide SegmentStart;
    if h[0].timestampUs <= g[0].timestampUs {
      SegmentStartMono(h[0].timestampUs, g[0].timestampUs, duration);
    }
  }

  /** The files of the source are those of the store, but for that of its open segment, if
  any, which is too short to be read. */
  ghost predicate OpenUnread(st: Store, files: map<Path, seq<Byte>>, source: SourceId) {
    forall p: Path | p.source == source :: AsLeft(st, files, p)
  }

  ghost predicate AsLeft(st: Store, files: map<Path, seq<Byte>>, p: Path) {
    && (p in files <==> p in st.files)
    && (p in files ==> if IsOpen(st, p) then |files[p]| < HEADER_SIZE else files[p] == st.files[p])
  }

  predicate IsOpen(st: Store, p: Path) {
    p.source in st.writers && st.writers[p.source].path == p
  }

  /** Then every file that can be read is that of an entry of the live index, and every entry
  is read from its file. */
  lemma FilesAreEntries(st: Store, files: map<Path, seq<Byte>>, duration: Duration, source: SourceId, v: View)
    requires Rep(st, duration, source, v) && OpenUnread(st, files, source)
    ensures forall e: SegmentIndex :: e in Segments(st, source) <==> e.path.source == source && IsRead(files, e)
  {
    hide GroupsOk, GroupOk, SegmentFile, ReadSegmentIndex, Segments, WindowOf, Entry, OpenUnread;
    var segs := Segments(st, source);
    forall i | 0 <= i < |segs|
      ensures segs[i].path == PathOf(source, v.closed[i], duration) && IsRead(files, segs[i])
    {
      assert GroupOk(v.closed[i]) && ClosedRep(st.files, source, v.closed[i], segs[i], duration);
      GroupBound(v.closed[i]);
      EntryPath(PathOf(source, v.closed[i], duration), v.closed[i]);
      SegmentFileIndexed(segs[i].path, v.closed[i]);
      NotOpen(st, duration, source, v, i);
      LeftAs(st, files, source, segs[i].path);
    }
    forall p | p in files && p.source == source && ReadSegmentIndex(p, files[p]).Some?
      ensures exists i :: 0 <= i < |segs| && segs[i].path == p
    {
      LeftAs(st, files, source, p);
      TooShort(p, files[p]);
      KnownClosed(st, duration, source, v, p);
      var i :| 0 <= i < |v.closed| && p == PathOf(source, v.closed[i], duration);
      assert segs[i].path == p;
    }
    forall e: SegmentIndex | e.path.source == source && IsRead(files, e)
      ensures e in segs
    {
      var i :| 0 <= i < |segs| && segs[i].path == e.path;
      assert IsRead(files, segs[i]);
    }
  }

  lemma LeftAs(st: Store, files: map<Path, seq<Byte>>, source: SourceId, p: Path)
    requires OpenUnread(st, files, source) && p.source == source
    ensures AsLeft(st, files, p)
  {
  }

  lemma TooShort(p: Path, file: seq<Byte>)
    ensures |file| < HEADER_SIZE <==> ReadSegmentIndex(p, file).None?
  {
  }

  lemma NotOpen(st: Store, duration: Duration, source: SourceId, v: View, i: nat)
    requires Rep(st, duration, source, v) && i < |v.closed|
    ensures !IsOpen(st, PathOf(source, v.closed[i], duration))
  {
    hide GroupsOk, GroupOk, ClosedReps, FilesKnown, Records, WindowOf;
    if v.open != [] {
      OpenPathFresh(st, duration, source, v);
    }
  }

  lemma KnownClosed(st: Store, duration: Duration, source: SourceId, v: View, p: Path)
    requires Rep(st, duration, source, v) && p in st.files && p.source == source && !IsOpen(st, p)
    ensures exists i :: 0 <= i < |v.closed| && p == PathOf(source, v.closed[i], duration)
  {
    hide GroupsOk, GroupOk, ClosedReps, Records, WindowOf;
    assert PathIn(p, source, Groups(v), duration);
    var i :| 0 <= i < |Groups(v)| && p == PathOf(source, Groups(v)[i], duration);
    assert i < |v.closed|;
  }

  lemma EntryPath(path: Path, g: seq<Frame>)
    requires 0 < |g| < TWO_32
    ensures Entry(path, g).path == path
  {
    hide SegmentFile;
  }

  /** Reading a directory in any order and sorting gives the live index of its source. */
  lemma DirectoryRebuilds(st: Store, files: map<Path, seq<Byte>>, duration: Duration, source: SourceId, v: View,
                          listing: seq<Path>)
    requires Rep(st, duration, source, v) && OpenUnread(st, files, source) && ListsDirectory(files, source, listing)
    ensures SortByStart(ReadListing(files, listing)) == Segments(st, source)
    ensures SumSizes(ReadListing(files, listing)) == SumSizes(Segments(st, source))
  {
    hide ClosedReps, GroupsOk, OpenRep, FilesKnown, ReadSegmentIndex, SumSizes, SortByStart, ReadListing, Segments,
         StrictByStart, OpenUnread;
    var read, segs := ReadListing(files, listing), Segments(st, source);
    FilesAreEntries(st, files, duration, source, v);
    ListingRead(files, listing);
    ClosedOk(v, duration);
    EntriesSorted(st.files, source, v.closed, segs, duration);
    assert SameElements(read, segs);
    SubsetDistinct(read, segs);
    SortIsSorted(read);
    SortedIsUnique(SortByStart(read), segs);
    SortSum(read);
  }

  /** Different entries of a strictly sorted list start at different times. */
  lemma SubsetDistinct(read: seq<SegmentIndex>, segs: seq<SegmentIndex>)
    requires NoDup(read) && StrictByStart(segs) && forall e :: e in read ==> e in segs
    ensures DistinctStarts(read)
  {
    forall i, j | 0 <= i < j < |read|
      ensures read[i].startTimeUs != read[j].startTimeUs
    {
      assert read[i] in segs && read[j] in segs && read[i] != read[j];
      var k :| 0 <= k < |segs| && segs[k] == read[i];
      var l :| 0 <= l < |segs| && segs[l] == read[j];
      assert k < l || l < k;
    }
  }

  // ---- the whole storage ----

  ghost predicate Listed(files: map<Path, seq<Byte>>, source: SourceId, listings: map<SourceId, seq<Path>>) {
    source in listings && ListsDirectory(files, source, listings[source])
  }

  ghost function SegmentsMap(st: Store, order: seq<SourceId>): map<SourceId, seq<SegmentIndex>> {
    map source | source in order :: Segments(st, source)
  }

  /** The directory of one source after a safe run. */
  lemma DirectoryOfRun(ops: seq<Op>, duration: Duration, files: map<Path, seq<Byte>>, source: SourceId,
                       listing: seq<Path>)
    requires Safe(ops, duration) && OpenUnread(Run(ops, duration), files, source)
    requires ListsDirectory(files, source, listing)
    ensures var st := Run(ops, duration);
            && SortByStart(ReadListing(files, listing)) == Segments(st, source)
            && SumSizes(ReadListing(files, listing)) == SumSizes(Segments(st, source))
  {
    hide Safe, Run, Rep, Own, ListsDirectory, SumSizes, SortByStart, ReadListing, Segments, ViewOf, OpenUnread;
    RunRep(ops, duration, source);
    DirectoryRebuilds(Run(ops, duration), files, duration, source, ViewOf(ops, source, duration), listing);
  }

  lemma SegmentsMapSnoc(st: Store, order: seq<SourceId>, source: SourceId)
    requires source !in order
    ensures SegmentsMap(st, order + [source]) == SegmentsMap(st, order)[source := Segments(st, source)]
    ensures SumIndex(SegmentsMap(st, order + [source]))
        == SumIndex(SegmentsMap(st, order)) + SumSizes(Segments(st, source))
  {
    hide Segments, SumIndex, SumSizes;
    SumIndexUpdate(SegmentsMap(st, order), source, Segments(st, source));
  }

  lemma {:induction false} DirectoriesRebuild(ops: seq<Op>, duration: Duration, files: map<Path, seq<Byte>>,
                                              order: seq<SourceId>, listings: map<SourceId, seq<Path>>)
    requires Safe(ops, duration) && NoDup(order)
    requires forall s :: s in order ==> OpenUnread(Run(ops, duration), files, s) && Listed(files, s, listings)
    ensures var st := Run(ops, duration);
            Rebuild(files, order, listings) == (SegmentsMap(st, order), SumIndex(SegmentsMap(st, order)))
    decreases |order|
  {
    hide Safe, Run, ListsDirectory, SumIndex, SumSizes, SortByStart, ReadListing, Segments, SegmentsMap, OpenUnread;
    var st := Run(ops, duration);
    if order == [] {
      NothingSummed(st);
    } else {
      var init, source := order[..|order| - 1], order[|order| - 1];
      assert order == init + [source] && source in order && source !in init;
      DirectoriesRebuild(ops, duration, files, init, listings);
      assert OpenUnread(st, files, source) && Listed(files, source, listings);
      DirectoryOfRun(ops, duration, files, source, listings[source]);
      SegmentsMapSnoc(st, init, source);
    }
  }

  lemma NothingSummed(st: Store)
    ensures SegmentsMap(st, []) == map[] && SumIndex(map[]) == 0
  {
  }

  ghost function IndexOf(st: Store, order: seq<SourceId>): map<SourceId, seq<SegmentIndex>> {
    map source | source in order && source in st.index :: st.index[source]
  }

  /** Directories without an entry add nothing to the sum. */
  lemma {:induction false} SameSum(st: Store, order: seq<SourceId>)
    requires NoDup(order)
    ensures SumIndex(SegmentsMap(st, order)) == SumIndex(IndexOf(st, order))
    decreases |order|
  {
    hide SumIndex, SumSizes, SegmentsMap, Segments;
    if order == [] {
      NothingSummed(st);
      assert IndexOf(st, []) == map[];
    } else {
      var init, source := order[..|order| - 1], order[|order| - 1];
      assert order == init + [source] && source !in init;
      SameSum(st, init);
      SegmentsMapSnoc(st, init, source);
      IndexOfSnoc(st, init, source);
    }
  }

  lemma IndexOfSnoc(st: Store, order: seq<SourceId>, source: SourceId)
    requires source !in order
    ensures SumIndex(IndexOf(st, order + [source])) == SumIndex(IndexOf(st, order)) + SumSizes(Segments(st, source))
  {
    hide SumIndex;
    if source in st.index {
      assert IndexOf(st, order + [source]) == IndexOf(st, order)[source := st.index[source]];
      SumIndexUpdate(IndexOf(st, order), source, st.index[source]);
    } else {
      assert IndexOf(st, order + [source]) == IndexOf(st, order);
    }
  }

  /** After any safe run whose open segments, if any, cannot be read: the directory of every
  source reads as its live segments, and the total is the live one. */
  lemma RebuildOfUnread(ops: seq<Op>, duration: Duration, files: map<Path, seq<Byte>>, order: seq<SourceId>,
                        listings: map<SourceId, seq<Path>>)
    requires Safe(ops, duration) && NoDup(order) && forall s :: s in order <==> s in Run(ops, duration).dirs
    requires forall s :: s in order ==> OpenUnread(Run(ops, duration), files, s) && Listed(files, s, listings)
    ensures var st := Run(ops, duration);
            && Rebuild(files, order, listings) == (SegmentsMap(st, order), st.totalBytes)
            && forall s :: s in st.index ==> s in order
  {
    hide Safe, Run, Rep, Own, Listed, SumIndex, Rebuild, OpenUnread, SegmentsMap;
    var st := Run(ops, duration);
    DirectoriesRebuild(ops, duration, files, order, listings);
    SameSum(st, order);
    TotalInEveryRun(ops, duration);
    forall s | s in st.index
      ensures s in order
    {
      RunRep(ops, duration, s);
      RepDirectory(st, duration, s, ViewOf(ops, s, duration));
    }
    assert IndexOf(st, order) == st.index;
  }

  /** After any safe run that left no segment open, opening the directory again gives the
  live index, source by source and segment by segment, and the same byte total, in
  whatever order the file system lists directories and files. */
  lemma RebuildAgrees(ops: seq<Op>, duration: Duration, order: seq<SourceId>, listings: map<SourceId, seq<Path>>)
    requires Safe(ops, duration) && Run(ops, duration).writers == map[]
    requires NoDup(order) && forall s :: s in order <==> s in Run(ops, duration).dirs
    requires forall s :: s in order ==> Listed(Run(ops, duration).files, s, listings)
    ensures var st := Run(ops, duration);
            Rebuild(st.files, order, listings) == (st.index, st.totalBytes)
  {
    hide Safe, Run, Listed, Rebuild, SegmentsMap;
    var st := Run(ops, duration);
    RebuildOfUnread(ops, duration, st.files, order, listings);
    DirectoriesIndexed(ops, duration, order);
  }

  /** The directories are those of the live index, but for one whose first segment is open. */
  lemma DirectoriesIndexed(ops: seq<Op>, duration: Duration, order: seq<SourceId>)
    requires Safe(ops, duration) && forall s :: s in order <==> s in Run(ops, duration).dirs
    ensures var st := Run(ops, duration);
            SegmentsMap(st, order) == st.index <==> forall s :: s in st.writers ==> s in st.index
  {
    hide Safe, Run, Rep, Own;
    var st := Run(ops, duration);
    forall s
      ensures s in order <==> s in st.index || s in st.writers
    {
      RunRep(ops, duration, s);
      RepDirectory(st, duration, s, ViewOf(ops, s, duration));
    }
    if forall s :: s in st.writers ==> s in st.index {
      assert SegmentsMap(st, order) == st.index;
    } else {
      var s :| s in st.writers && s !in st.index;
      assert s in SegmentsMap(st, order);
    }
  }

  // ---- with a segment still open ----

  lemma {:induction false} InsertElements(segs: seq<SegmentIndex>, seg: SegmentIndex)
    ensures forall e :: e in InsertByStart(segs, seg) <==> e in segs || e == seg
    decreases |segs|
  {
    if segs != [] {
      InsertElements(segs[..|segs| - 1], seg);
      assert segs == segs[..|segs| - 1] + [segs[|segs| - 1]];
    }
  }

  /** Sorting keeps the elements, whatever their start times. */
  lemma {:induction false} SortElements(segs: seq<SegmentIndex>)
    ensures SameElements(SortByStart(segs), segs)
    decreases |segs|
  {
    hide InsertByStart;
    if segs != [] {
      SortElements(segs[..|segs| - 1]);
      InsertElements(SortByStart(segs[..|segs| - 1]), segs[|segs| - 1]);
      assert segs == segs[..|segs| - 1] + [segs[|segs| - 1]];
    }
  }

  /** Each directory's entry in a rebuilt index. */
  lemma {:induction false} RebuiltEntry(files: map<Path, seq<Byte>>, order: seq<SourceId>,
                                        listings: map<SourceId, seq<Path>>,
                                        source: SourceId)
    requires NoDup(order) && source in order && source in listings
    ensures var index := Rebuild(files, order, listings).0;
            source in index && index[source] == SortByStart(ReadListing(files, listings[source]))
    decreases |order|
  {
    hide SortByStart, ReadListing, SumSizes;
    var init, last := order[..|order| - 1], order[|order| - 1];
    assert order == init + [last];
    if source != last {
      RebuiltEntry(files, init, listings, source);
    }
  }

  /** The directory of a source whose open segment can be read has one segment too many. */
  lemma OpenSegmentIsRead(st: Store, files: map<Path, seq<Byte>>, duration: Duration, source: SourceId, v: View,
                          listing: seq<Path>)
    requires Rep(st, duration, source, v) && v.open != [] && ListsDirectory(files, source, listing)
    requires var path := PathOf(source, v.open, duration); path in files && |files[path]| >= HEADER_SIZE
    ensures SortByStart(ReadListing(files, listing)) != Segments(st, source)
  {
    hide GroupsOk, GroupOk, ReadSegmentIndex, Segments, SortByStart, ReadListing, Records, FilesKnown, ClosedReps;
    var path, segs, read := PathOf(source, v.open, duration), Segments(st, source), ReadListing(files, listing);
    ListingRead(files, listing);
    SortElements(read);
    assert path in listing;
    TooShort(path, files[path]);
    var e := ReadSegmentIndex(path, files[path]).value;
    ReadKeepsPath(path, files[path]);
    assert e in read && e in SortByStart(read);
    NoEntryForOpen(st, duration, source, v);
  }

  lemma NoEntryForOpen(st: Store, duration: Duration, source: SourceId, v: View)
    requires Rep(st, duration, source, v) && v.open != []
    ensures forall e: SegmentIndex :: e in Segments(st, source) ==> e.path != PathOf(source, v.open, duration)
  {
    hide GroupsOk, GroupOk, Segments, Entry, FilesKnown, PathOf;
    OpenPathFresh(st, duration, source, v);
    var segs := Segments(st, source);
    forall i | 0 <= i < |segs|
      ensures segs[i].path != PathOf(source, v.open, duration)
    {
      assert GroupOk(v.closed[i]) && ClosedRep(st.files, source, v.closed[i], segs[i], duration);
      GroupBound(v.closed[i]);
      EntryPath(PathOf(source, v.closed[i], duration), v.closed[i]);
    }
  }

  /** What is on disk when the writers stop: of an open segment, the bytes that were written
  out so far, if that many are given; the others are still buffered. */
  function OnDisk(st: Store, written: map<SourceId, nat>): map<Path, seq<Byte>> {
    map p | p in st.files ::
      if IsOpen(st, p) && p.source in written && written[p.source] <= |st.files[p]|
      then st.files[p][..written[p.source]] else st.files[p]
  }

  /** Not even the placeholder header was written out. */
  predicate HeaderBuffered(written: map<SourceId, nat>, source: SourceId) {
    source in written && written[source] < HEADER_SIZE
  }

  function IndexedFor(index: map<SourceId, seq<SegmentIndex>>, source: SourceId): seq<SegmentIndex> {
    if source in index then index[source] else []
  }

  /** Whenever the storage stops after a safe run, with any part of each open segment on disk:
  opening the directory again gives the live segments of every source and the live total if and
  only if the header of every open segment was still buffered. The file of any other open
  segment, with its placeholder header, is read as a segment that the live index does not
  have. The two maps are the same if, besides, each source with an open segment has an entry. */
  lemma RebuildExactly(ops: seq<Op>, duration: Duration, written: map<SourceId, nat>, order: seq<SourceId>,
                       listings: map<SourceId, seq<Path>>)
    requires Safe(ops, duration)
    requires NoDup(order) && forall s :: s in order <==> s in Run(ops, duration).dirs
    requires forall s :: s in order ==> Listed(Run(ops, duration).files, s, listings)
    ensures var st := Run(ops, duration);
            var (index, total) := Rebuild(OnDisk(st, written), order, listings);
            (forall s :: IndexedFor(index, s) == Segments(st, s)) && total == st.totalBytes
            <==> forall s :: s in st.writers ==> HeaderBuffered(written, s)
    ensures var st := Run(ops, duration);
            Rebuild(OnDisk(st, written), order, listings) == (st.index, st.totalBytes)
            <==> forall s :: s in st.writers ==> HeaderBuffered(written, s) && s in st.index
  {
    hide Safe, Run, Listed, Rebuild, OnDisk, SegmentsMap, HeaderBuffered;
    var st := Run(ops, duration);
    var files := OnDisk(st, written);
    SameListings(st, written, order, listings);
    if forall s :: s in st.writers ==> HeaderBuffered(written, s) {
      forall s | s in order
        ensures OpenUnread(st, files, s)
      {
        BufferedIsUnread(ops, duration, written, s);
      }
      RebuildOfUnread(ops, duration, files, order, listings);
      DirectoriesIndexed(ops, duration, order);
      SegmentsMapFor(st, order);
    } else {
      var s :| s in st.writers && !HeaderBuffered(written, s);
      WrittenOutDiffers(ops, duration, written, order, listings, s);
      assert s in st.index ==> Segments(st, s) == st.index[s];
    }
  }

  lemma SameListings(st: Store, written: map<SourceId, nat>, order: seq<SourceId>, listings: map<SourceId, seq<Path>>)
    requires forall s :: s in order ==> Listed(st.files, s, listings)
    ensures forall s :: s in order ==> Listed(OnDisk(st, written), s, listings)
  {
  }

  lemma SegmentsMapFor(st: Store, order: seq<SourceId>)
    requires forall s :: s in st.index ==> s in order
    ensures forall s :: IndexedFor(SegmentsMap(st, order), s) == Segments(st, s)
  {
  }

  lemma BufferedIsUnread(ops: seq<Op>, duration: Duration, written: map<SourceId, nat>, source: SourceId)
    requires Safe(ops, duration)
    requires source in Run(ops, duration).writers ==> HeaderBuffered(written, source)
    ensures OpenUnread(Run(ops, duration), OnDisk(Run(ops, duration), written), source)
  {
    hide Safe, Run, Own, GroupsOk, GroupOk, ClosedReps, FilesKnown, Records, WindowOf;
    RunRep(ops, duration, source);
  }

  lemma WrittenOutDiffers(ops: seq<Op>, duration: Duration, written: map<SourceId, nat>, order: seq<SourceId>,
                          listings: map<SourceId, seq<Path>>, source: SourceId)
    requires Safe(ops, duration) && source in Run(ops, duration).writers && !HeaderBuffered(written, source)
    requires NoDup(order) && forall s :: s in order <==> s in Run(ops, duration).dirs
    requires forall s :: s in order ==> Listed(OnDisk(Run(ops, duration), written), s, listings)
    ensures var st := Run(ops, duration);
            var index := Rebuild(OnDisk(st, written), order, listings).0;
            source in index && index[source] != Segments(st, source)
  {
    hide Safe, Run, Rep, Own, ListsDirectory, Segments, Rebuild, SortByStart, ReadListing, ViewOf, OnDisk,
         HeaderBuffered;
    var st, v := Run(ops, duration), ViewOf(ops, source, duration);
    var files := OnDisk(st, written);
    RunRep(ops, duration, source);
    RepDirectory(st, duration, source, v);
    RepWriter(st, duration, source, v);
    assert Listed(files, source, listings);
    WrittenOut(st, duration, source, v, written);
    OpenSegmentIsRead(st, files, duration, source, v, listings[source]);
    RebuiltEntry(files, order, listings, source);
  }

  lemma WrittenOut(st: Store, duration: Duration, source: SourceId, v: View, written: map<SourceId, nat>)
    requires Rep(st, duration, source, v) && v.open != [] && !HeaderBuffered(written, source)
    ensures var path, files := PathOf(source, v.open, duration), OnDisk(st, written);
            path in files && |files[path]| >= HEADER_SIZE
  {
    hide GroupsOk, GroupOk, ClosedReps, FilesKnown, Records, WindowOf;
  }

  /** A flush that visits every source with an open segment leaves none open. */
  lemma {:induction false} FlushClosesAll(st: Store, order: seq<SourceId>)
    ensures FlushIn(st, order).writers.Keys == st.writers.Keys - (set s | s in order)
    decreases |order|
  {
    hide Header;
    if order != [] {
      var init, source := order[..|order| - 1], order[|order| - 1];
      FlushClosesAll(st, init);
      assert order == init + [source];
      assert (set s | s in order) == (set s | s in init) + {source};
    }
  }

  lemma RepDirectory(st: Store, duration: Duration, source: SourceId, v: View)
    requires Rep(st, duration, source, v)
    ensures source in st.dirs <==> source in st.index || source in st.writers
  {
  }
}
