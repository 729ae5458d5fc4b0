/** `LocalStorage` as its source has it: maps and counters updated in place, loops over
writers, segments, records and directories. Each method is the step that `StorageSpec`
gives it, for the order in which its hash maps happened to be visited. */
module LocalStorages {
  import opened Bytes
  import opened Frames
  import opened FrameCodec
  import opened Seqs
  import opened StorageSpec
  import opened StorageRebuild

  /** The elements of `order`, each once, are those of `keys`. */
  ghost predicate Enumerates(order: seq<SourceId>, keys: set<SourceId>) {
    NoDup(order) && forall s :: s in order <==> s in keys
  }

  lemma NoDupSnoc<T>(s: seq<T>, x: T)
    requires NoDup(s) && x !in s
    ensures NoDup(s + [x])
  {
  }

  /** A listing for each directory of an order of directories. */
  ghost predicate ListsAll(files: map<Path, seq<Byte>>, order: seq<SourceId>, listings: map<SourceId, seq<Path>>) {
    forall s :: s in order ==> s in listings && ListsDirectory(files, s, listings[s])
  }

  /** A store just opened on a directory. */
  ghost predicate Opened(st: Store, files: map<Path, seq<Byte>>, dirs: set<SourceId>, order: seq<SourceId>,
                         listings: map<SourceId, seq<Path>>)
  {
    && Enumerates(order, dirs) && ListsAll(files, order, listings)
    && var (index, totalBytes) := Rebuild(files, order, listings);
       st == Store(files, dirs, index, totalBytes, map[])
  }

  ghost predicate Ascending(positions: seq<nat>, bound: nat) {
    && (forall k | 0 <= k < |positions| :: positions[k] < bound)
    && (forall j, k | 0 <= j < k < |positions| :: positions[j] < positions[k])
  }

  /** Removing at ascending positions, the last first, so that the earlier ones stay valid. */
  ghost function RemoveAll(segs: seq<SegmentIndex>, positions: seq<nat>): seq<SegmentIndex>
    requires Ascending(positions, |segs|)
    decreases |positions|
  {
    if positions == [] then segs
    else RemoveAll(RemoveAt(segs, positions[|positions| - 1]), positions[..|positions| - 1])
  }

  lemma {:induction false} RemoveAllSnoc(segs: seq<SegmentIndex>, positions: seq<nat>, seg: SegmentIndex)
    requires Ascending(positions, |segs|)
    ensures RemoveAll(segs + [seg], positions) == RemoveAll(segs, positions) + [seg]
    decreases |positions|
  {
    if positions != [] {
      var last := positions[|positions| - 1];
      assert RemoveAt(segs + [seg], last) == RemoveAt(segs, last) + [seg];
      RemoveAllSnoc(RemoveAt(segs, last), positions[..|positions| - 1], seg);
    }
  }

  lemma RemoveLastToo(segs: seq<SegmentIndex>, positions: seq<nat>, seg: SegmentIndex)
    requires Ascending(positions, |segs|)
    ensures Ascending(positions + [|segs|], |segs + [seg]|)
    ensures RemoveAll(segs + [seg], positions + [|segs|]) == RemoveAll(segs, positions)
  {
    assert RemoveAt(segs + [seg], |segs|) == segs;
    assert (positions + [|segs|])[..|positions|] == positions;
  }

  lemma NothingRemoved(segs: seq<SegmentIndex>)
    ensures RemoveAll(segs, []) == segs
  {
  }

  method RemovePositions(segs: seq<SegmentIndex>, positions: seq<nat>) returns (segments: seq<SegmentIndex>)
    requires Ascending(positions, |segs|)
    ensures segments == RemoveAll(segs, positions)
  {
    segments := segs;
    var k := |positions|;
    assert positions[..k] == positions;
    while k > 0
      invariant 0 <= k <= |positions|
      invariant Ascending(positions[..k], |segments|)
      invariant RemoveAll(segments, positions[..k]) == RemoveAll(segs, positions)
    {
      k := k - 1;
      assert positions[..k + 1][..k] == positions[..k];
      segments := RemoveAt(segments, positions[k]);
    }
  }

  lemma CleanSnoc(files: map<Path, seq<Byte>>, segs: seq<SegmentIndex>, seg: SegmentIndex, beforeUs: U64,
                  failing: set<Path>)
    ensures var c := CleanSegments(files, segs, beforeUs, failing);
            CleanSegments(files, segs + [seg], beforeUs, failing)
            == if Deletable(c.files, seg, beforeUs, failing)
               then Cleaned(c.files - {seg.path}, c.kept, c.deletedBytes + seg.sizeBytes)
               else Cleaned(c.files, c.kept + [seg], c.deletedBytes)
  {
    SnocParts(segs, seg);
  }

  lemma CleanNone(files: map<Path, seq<Byte>>, beforeUs: U64, failing: set<Path>)
    ensures CleanSegments(files, [], beforeUs, failing) == Cleaned(files, [], 0)
  {
  }

  /** The cleanup of one source: a pass that deletes files and notes positions, then the
  removals in reverse order. Together they are the filter that `CleanSegments` is. */
  method CleanOne(files0: map<Path, seq<Byte>>, segs: seq<SegmentIndex>, beforeUs: U64, failing: set<Path>)
    returns (files: map<Path, seq<Byte>>, segments: seq<SegmentIndex>, deletedBytes: nat)
    ensures Cleaned(files, segments, deletedBytes) == CleanSegments(files0, segs, beforeUs, failing)
  {
    hide CleanSegments, RemoveAll;
    files, deletedBytes := files0, 0;
    var toRemove: seq<nat> := [];
    CleanNone(files0, beforeUs, failing);
    NothingRemoved([]);
    assert segs[..0] == [];
    for i := 0 to |segs|
      invariant Ascending(toRemove, i)
      invariant CleanSegments(files0, segs[..i], beforeUs, failing)
          == Cleaned(files, RemoveAll(segs[..i], toRemove), deletedBytes)
    {
      var seg := segs[i];
      assert segs[..i + 1] == segs[..i] + [seg];
      CleanSnoc(files0, segs[..i], seg, beforeUs, failing);
      if seg.endTimeUs < beforeUs && seg.path in files && seg.path !in failing {
        files := files - {seg.path};
        deletedBytes := deletedBytes + seg.sizeBytes;
        RemoveLastToo(segs[..i], toRemove, seg);
        toRemove := toRemove + [i];
      } else {
        RemoveAllSnoc(segs[..i], toRemove, seg);
      }
    }
    assert segs[..|segs|] == segs;
    segments := RemovePositions(segs, toRemove);
  }

  /** A result with more frames in front. */
  function Prepend(done: seq<Frame>, r: Result<seq<Frame>>): Result<seq<Frame>> {
    if r.Ok? then Ok(done + r.value) else r
  }

  function KeepInRange(r: Result<seq<Frame>>, startUs: U64, endUs: U64): Result<seq<Frame>> {
    if r.Ok? then Ok(FilterRange(r.value, startUs, endUs)) else r
  }

  lemma PrependNothing(r: Result<seq<Frame>>)
    ensures Prepend([], r) == r
  {
    if r.Ok? {
      assert [] + r.value == r.value;
    }
  }

  lemma PrependTwice(a: seq<Frame>, b: seq<Frame>, r: Result<seq<Frame>>)
    ensures Prepend(a, Prepend(b, r)) == Prepend(a + b, r)
  {
    if r.Ok? {
      ConcatAssoc(a, b, r.value);
    }
  }

  lemma {:induction false} FilterSnoc(fs: seq<Frame>, f: Frame, startUs: U64, endUs: U64)
    ensures FilterRange(fs + [f], startUs, endUs)
         == FilterRange(fs, startUs, endUs) + (if InRange(f, startUs, endUs) then [f] else [])
    decreases |fs|
  {
    if fs == [] {
      assert (fs + [f])[1..] == [];
    } else {
      assert (fs + [f])[1..] == fs[1..] + [f];
      FilterSnoc(fs[1..], f, startUs, endUs);
    }
  }

  /** One record read: it goes from the rest of the file to the frames in hand. */
  lemma NextRecord(done: seq<Frame>, f: Frame, rest: seq<Byte>, len: nat)
    requires |rest| >= 4 + len && len == FromLittleEndian(rest[..4]) && FromBytes(rest[4..4 + len]) == Ok(f)
    ensures Prepend(done, ParseRecords(rest)) == Prepend(done + [f], ParseRecords(rest[4 + len..]))
  {
    hide FromBytes, FromLittleEndian;
    PrependTwice(done, [f], ParseRecords(rest[4 + len..]));
  }

  lemma NothingLeft(rest: seq<Byte>)
    requires |rest| < 4
    ensures ParseRecords(rest) == Ok([])
  {
  }

  /** Reads the records of one segment file, keeping those in range. */
  method ReadSegment(file: seq<Byte>, startUs: U64, endUs: U64) returns (r: Result<seq<Frame>>)
    ensures r == KeepInRange(ParseRecords(AfterHeader(file)), startUs, endUs)
  {
    hide FromBytes, FromLittleEndian, AfterHeader;
    var frames: seq<Frame> := [];
    var rest := AfterHeader(file);
    ghost var done: seq<Frame> := [];
    PrependNothing(ParseRecords(rest));
    while |rest| >= 4
      invariant frames == FilterRange(done, startUs, endUs)
      invariant ParseRecords(AfterHeader(file)) == Prepend(done, ParseRecords(rest))
      decreases |rest|
    {
      var len := FromLittleEndian(rest[..4]);
      if |rest| < 4 + len {
        return Err("unexpected end of file");
      }
      var decoded := FromBytes(rest[4..4 + len]);
      if decoded.Err? {
        return Err(decoded.error);
      }
      var frame := decoded.value;
      FilterSnoc(done, frame, startUs, endUs);
      NextRecord(done, frame, rest, len);
      if frame.timestampUs >= startUs && frame.timestampUs <= endUs {
        frames := frames + [frame];
      }
      done := done + [frame];
      rest := rest[4 + len..];
    }
    NothingLeft(rest);
    assert done + [] == done;
    return Ok(frames);
  }

  class LocalStorage {
    const segmentDurationUs: Duration
    var files: map<Path, seq<Byte>>
    var dirs: set<SourceId>
    var index: map<SourceId, seq<SegmentIndex>>
    var totalBytes: nat
    var writers: map<SourceId, SegmentWriter>

    function State(): Store
      reads this
    {
      Store(files, dirs, index, totalBytes, writers)
    }

    /** Opens a directory: scans it to rebuild the index. */
    constructor (duration: Duration, files: map<Path, seq<Byte>>, dirs: set<SourceId>)
      ensures segmentDurationUs == duration
      ensures exists order, listings :: Opened(State(), files, dirs, order, listings)
    {
      hide Rebuild;
      var rebuilt, total, order, listings := RebuildIndex(files, dirs);
      this.segmentDurationUs := duration;
      this.files, this.dirs, this.index, this.totalBytes, this.writers := files, dirs, rebuilt, total, map[];
      new;
      assert Opened(State(), files, dirs, order, listings);
    }

    /** rebuild_index_sync: directories and files come in any order. */
    static method RebuildIndex(files: map<Path, seq<Byte>>, dirs: set<SourceId>)
      returns (index: map<SourceId, seq<SegmentIndex>>, totalBytes: nat,
               ghost order: seq<SourceId>, ghost listings: map<SourceId, seq<Path>>)
      ensures Enumerates(order, dirs)
      ensures ListsAll(files, order, listings)
      ensures (index, totalBytes) == Rebuild(files, order, listings)
      ensures index.Keys == dirs
    {
      hide Rebuild, SortByStart, ReadListing, ListsAll, ListsDirectory, SumSizes;
      index, totalBytes, order, listings := map[], 0, [], map[];
      RebuildNone(files);
      var left := dirs;
      while left != {}
        invariant left <= dirs && Enumerates(order, dirs - left) && index.Keys == dirs - left
        invariant ListsAll(files, order, listings)
        invariant (index, totalBytes) == Rebuild(files, order, listings)
        decreases left
      {
        var source :| source in left;
        var segments, bytes, listing := ScanDirectory(files, source);
        RebuildSnoc(files, order, listings, source, listing);
        ListsSnoc(files, order, listings, source, listing);
        NoDupSnoc(order, source);
        index := index[source := SortByStart(segments)];
        totalBytes := totalBytes + bytes;
        order, listings := order + [source], listings[source := listing];
        left := left - {source};
      }
    }

    /** The readable segment files of one directory, in the order of its listing. */
    static method ScanDirectory(files: map<Path, seq<Byte>>, source: SourceId)
      returns (segments: seq<SegmentIndex>, bytes: nat, ghost listing: seq<Path>)
      ensures ListsDirectory(files, source, listing)
      ensures segments == ReadListing(files, listing) && bytes == SumSizes(segments)
    {
      hide ReadSegmentIndex;
      segments, bytes, listing := [], 0, [];
      var left := set p | p in files && p.source == source;
      while left != {}
        invariant forall p :: p in left ==> p in files && p.source == source
        invariant NoDup(listing) && forall p :: p in files && p.source == source <==> p in listing || p in left
        invariant forall p :: p in listing ==> p !in left
        invariant segments == ReadListing(files, listing) && bytes == SumSizes(segments)
        decreases left
      {
        var path :| path in left;
        NoDupSnoc(listing, path);
        SnocParts(listing, path);
        match ReadSegmentIndex(path, files[path]) {
          case None =>
          case Some(seg) =>
            SnocParts(segments, seg);
            bytes := bytes + seg.sizeBytes;
            segments := segments + [seg];
        }
        listing := listing + [path];
        left := left - {path};
      }
    }

    method GetOrCreateWriter(source: SourceId, timestampUs: U64)
      modifies this
      ensures State() == EnsureWriter(old(State()), source, timestampUs, segmentDurationUs)
    {
      hide Header, Placeholder;
      var segmentStart := (timestampUs / segmentDurationUs) * segmentDurationUs;
      if source in writers {
        var writer := writers[source];
        var writerSegment := (writer.startTimeUs / segmentDurationUs) * segmentDurationUs;
        if writerSegment == segmentStart {
          return;
        }
        writers := writers - {source};
        FinalizeSegment(source, writer);
        assert old(writers) - {source} == writers && writers[source := writer] == old(writers);
        assert State() == Finalize(old(State()), source);
      }
      var path := Path(source, segmentStart);
      dirs := dirs + {source};
      files := files[path := Placeholder()];
      writers := writers[source := SegmentWriter(path, timestampUs, timestampUs, 0, HEADER_SIZE)];
    }

    /** The writer has been taken out of the map by the caller. */
    method FinalizeSegment(source: SourceId, writer: SegmentWriter)
      requires source !in writers
      modifies this
      ensures State() == Finalize(old(State()).(writers := old(writers)[source := writer]), source)
      ensures writers == old(writers)
    {
      hide Header;
      if writer.path in files && |files[writer.path]| >= HEADER_SIZE {
        files := files[writer.path := Header(writer.startTimeUs, writer.endTimeUs, writer.frameCount)
                                      + files[writer.path][HEADER_SIZE..]];
      }
      var seg := SegmentIndex(writer.path, writer.startTimeUs, writer.endTimeUs, writer.frameCount,
          writer.bytesWritten);
      totalBytes := totalBytes + seg.sizeBytes;
      var segments := if source in index then index[source] else [];
      index := index[source := segments + [seg]];
      assert old(writers)[source := writer] - {source} == writers;
    }

    method StoreFrame(f: Frame)
      modifies this
      ensures State() == StorageSpec.StoreFrame(old(State()), f, segmentDurationUs)
    {
      hide LittleEndian, ToBytes, OpenSegment, Finalize, SegmentStart;
      GetOrCreateWriter(f.source, f.timestampUs);
      var writer := writers[f.source];
      var frameBytes := ToBytes(f);
      if writer.path in files {
        files := files[writer.path := files[writer.path] + (LittleEndian(|frameBytes|, 4) + frameBytes)];
      }
      writers := writers[f.source := SegmentWriter(writer.path, writer.startTimeUs, f.timestampUs,
                                                   (writer.frameCount + 1) % TWO_32,
                                                   writer.bytesWritten + 4 + |frameBytes|)];
    }

    /** Finalizes every open segment, in the order the map yields its keys. */
    method Flush() returns (ghost order: seq<SourceId>)
      modifies this
      ensures Enumerates(order, old(writers.Keys))
      ensures State() == FlushIn(old(State()), order)
      ensures writers == map[]
    {
      hide Finalize;
      var sources := writers.Keys;
      order := [];
      while sources != {}
        invariant Enumerates(order, old(writers.Keys) - sources)
        invariant State() == FlushIn(old(State()), order)
        invariant writers.Keys == sources <= old(writers.Keys)
        decreases sources
      {
        var source :| source in sources;
        NoDupSnoc(order, source);
        SnocParts(order, source);
        var writer := writers[source];
        ghost var before := State();
        writers := writers - {source};
        FinalizeSegment(source, writer);
        assert before.writers - {source} == writers && writers[source := writer] == before.writers;
        order := order + [source];
        sources := sources - {source};
      }
    }

    method GetFrames(source: SourceId, startUs: U64, endUs: U64) returns (r: Result<seq<Frame>>)
      ensures r == StorageSpec.GetFrames(State(), source, startUs, endUs)
    {
      hide ParseRecords, AfterHeader, FilterRange, SortByTime;
      if source !in index {
        assert SortByTime([]) == [] by { NothingToSort(); }
        return Ok([]);
      }
      var segments := index[source];
      var frames: seq<Frame> := [];
      PrependNothing(ReadSegments(files, segments, startUs, endUs));
      assert segments[0..] == segments;
      for i := 0 to |segments|
        invariant ReadSegments(files, segments, startUs, endUs)
               == Prepend(frames, ReadSegments(files, segments[i..], startUs, endUs))
      {
        var seg := segments[i];
        assert segments[i..][1..] == segments[i + 1..] && segments[i..][0] == seg;
        if seg.endTimeUs < startUs || seg.startTimeUs > endUs {
          continue;
        }
        if seg.path !in files {
          return Err("No such file");
        }
        var read := ReadSegment(files[seg.path], startUs, endUs);
        if read.Err? {
          return Err(read.error);
        }
        PrependTwice(frames, read.value, ReadSegments(files, segments[i + 1..], startUs, endUs));
        frames := frames + read.value;
      }
      assert frames + [] == frames;
      return Ok(SortByTime(frames));
    }

    lemma NothingToSort()
      ensures SortByTime([]) == []
    {
    }

    /** Deletes old segments of every source; `failing` are the files that cannot be deleted. */
    method Cleanup(beforeUs: U64, failing: set<Path>) returns (deletedBytes: nat, ghost order: seq<SourceId>)
      modifies this
      ensures Enumerates(order, old(index.Keys))
      ensures State() == CleanupIn(old(State()), order, beforeUs, failing)
      ensures deletedBytes == CleanSources(old(State()), order, beforeUs, failing).1
    {
      hide CleanSegments;
      var sources := index.Keys;
      deletedBytes, order := 0, [];
      while sources != {}
        invariant Enumerates(order, old(index.Keys) - sources) && sources <= old(index.Keys) == index.Keys
        invariant (State(), deletedBytes) == CleanSources(old(State()), order, beforeUs, failing)
        decreases sources
      {
        var source :| source in sources;
        NoDupSnoc(order, source);
        SnocParts(order, source);
        var remaining, segments, bytes := CleanOne(files, index[source], beforeUs, failing);
        files, index := remaining, index[source := segments];
        deletedBytes := deletedBytes + bytes;
        order := order + [source];
        sources := sources - {source};
      }
      CleanKeepsTotal(old(State()), order, beforeUs, failing);
      totalBytes := SaturatingSub(totalBytes, deletedBytes);
    }
  }

  lemma {:induction false} CleanKeepsTotal(st: Store, order: seq<SourceId>, beforeUs: U64, failing: set<Path>)
    ensures CleanSources(st, order, beforeUs, failing).0.totalBytes == st.totalBytes
    decreases |order|
  {
    hide CleanSegments;
    if order != [] {
      CleanKeepsTotal(st, order[..|order| - 1], beforeUs, failing);
    }
  }

  lemma RebuildNone(files: map<Path, seq<Byte>>)
    ensures Rebuild(files, [], map[]) == (map[], 0) && ListsAll(files, [], map[])
  {
  }

  lemma ListsSnoc(files: map<Path, seq<Byte>>, order: seq<SourceId>, listings: map<SourceId, seq<Path>>,
                  source: SourceId, listing: seq<Path>)
    requires source !in order && ListsAll(files, order, listings) && ListsDirectory(files, source, listing)
    ensures ListsAll(files, order + [source], listings[source := listing])
  {
    hide ListsDirectory;
  }

  /** One more directory scanned. */
  lemma RebuildSnoc(files: map<Path, seq<Byte>>, order: seq<SourceId>, listings: map<SourceId, seq<Path>>,
                    source: SourceId, listing: seq<Path>)
    requires source !in order
    ensures var (index, total) := Rebuild(files, order, listings);
            Rebuild(files, order + [source], listings[source := listing])
            == (index[source := SortByStart(ReadListing(files, listing))],
                total + SumSizes(ReadListing(files, listing)))
  {
    hide SortByStart, ReadListing, SumSizes;
    RebuildIgnores(files, order, listings, source, listing);
    SnocParts(order, source);
  }

  /** Directories not in the order do not matter to a rebuild. */
  lemma {:induction false} RebuildIgnores(files: map<Path, seq<Byte>>, order: seq<SourceId>,
                                          listings: map<SourceId, seq<Path>>,
                                          source: SourceId, listing: seq<Path>)
    requires source !in order
    ensures Rebuild(files, order, listings[source := listing]) == Rebuild(files, order, listings)
    decreases |order|
  {
    hide SortByStart, ReadListing, SumSizes;
    if order != [] {
      assert order[|order| - 1] in order;
      RebuildIgnores(files, order[..|order| - 1], listings, source, listing);
    }
  }
}
