/** Segmented local storage, on values (crates/kodama/src/storage/local.rs).

The file system is a map from paths to bytes. A path is `root/<source>/<start>.segment`;
source and start determine it. What a writer has buffered is taken to be in its file. */
module StorageSpec {
  import opened Bytes
  import opened Frames
  import opened FrameCodec

  datatype Path = Path(source: SourceId, segmentStart: nat)

  /** One index entry. */
  datatype SegmentIndex = SegmentIndex(path: Path, startTimeUs: U64, endTimeUs: U64, frameCount: U32, sizeBytes: nat)

  /** One open segment. */
  datatype SegmentWriter = SegmentWriter(path: Path, startTimeUs: U64, endTimeUs: U64, frameCount: U32,
                                         bytesWritten: nat)

  datatype Store = Store(
    files: map<Path, seq<Byte>>,
    dirs: set<SourceId>,
    index: map<SourceId, seq<SegmentIndex>>,
    totalBytes: nat,
    writers: map<SourceId, SegmentWriter>)

  /** A fresh storage directory. */
  const EMPTY := Store(map[], {}, map[], 0, map[])

  /** Segment duration; zero would divide by zero. */
  type Duration = d: nat | d > 0 witness 1

  function SegmentStart(timestampUs: U64, duration: Duration): nat {
    (timestampUs / duration) * duration
  }

  const HEADER_SIZE: nat := 20

  function Header(startUs: U64, endUs: U64, count: U32): (h: seq<Byte>)
    ensures |h| == HEADER_SIZE
  {
    LittleEndian(startUs, 8) + LittleEndian(endUs, 8) + LittleEndian(count, 4)
  }

  function Placeholder(): (h: seq<Byte>)
    ensures |h| == HEADER_SIZE
  {
    seq(HEADER_SIZE, i => 0)
  }

  /** A frame in a segment file; the length field keeps the low 32 bits. */
  function Record(f: Frame): seq<Byte> {
    LittleEndian(|ToBytes(f)|, 4) + ToBytes(f)
  }

  // ---- writing ----

  function Segments(st: Store, source: SourceId): seq<SegmentIndex> {
    if source in st.index then st.index[source] else []
  }

  /** finalize_segment: rewrite the header in place and enter the segment in the index. */
  function Finalize(st: Store, source: SourceId): Store
    requires source in st.writers
  {
    var w := st.writers[source];
    var files := if w.path in st.files && |st.files[w.path]| >= HEADER_SIZE
                 then st.files[w.path := Header(w.startTimeUs, w.endTimeUs, w.frameCount)
                     + st.files[w.path][HEADER_SIZE..]]
                 else st.files;
    st.(files := files,
        index := st.index[source := Segments(st, source)
                          + [SegmentIndex(w.path, w.startTimeUs, w.endTimeUs, w.frameCount, w.bytesWritten)]],
        totalBytes := st.totalBytes + w.bytesWritten,
        writers := st.writers - {source})
  }

  /** Create (and truncate) the segment file of a timestamp. */
  function OpenSegment(st: Store, source: SourceId, timestampUs: U64, duration: Duration): Store {
    var path := Path(source, SegmentStart(timestampUs, duration));
    st.(files := st.files[path := Placeholder()],
        dirs := st.dirs + {source},
        writers := st.writers[source := SegmentWriter(path, timestampUs, timestampUs, 0, HEADER_SIZE)])
  }

  /** get_or_create_writer. */
  function EnsureWriter(st: Store, source: SourceId, timestampUs: U64, duration: Duration): (r: Store)
    ensures source in r.writers
  {
    if source !in st.writers then OpenSegment(st, source, timestampUs, duration)
    else if SegmentStart(st.writers[source].startTimeUs, duration) == SegmentStart(timestampUs, duration) then st
    else OpenSegment(Finalize(st, source), source, timestampUs, duration)
  }

  /** The write of store_frame. */
  function AppendFrame(st: Store, f: Frame): Store
    requires f.source in st.writers
  {
    var w := st.writers[f.source];
    st.(files := if w.path in st.files then st.files[w.path := st.files[w.path] + Record(f)] else st.files,
        writers := st.writers[f.source := w.(endTimeUs := f.timestampUs, frameCount := (w.frameCount + 1) % TWO_32,
                                             bytesWritten := w.bytesWritten + 4 + |ToBytes(f)|)])
  }

  function StoreFrame(st: Store, f: Frame, duration: Duration): Store {
    AppendFrame(EnsureWriter(st, f.source, f.timestampUs, duration), f)
  }

  function CloseWriter(st: Store, source: SourceId): Store {
    if source in st.writers then Finalize(st, source) else st
  }

  /** flush, visiting the sources in `order`. */
  function FlushIn(st: Store, order: seq<SourceId>): Store
    decreases |order|
  {
    if order == [] then st else CloseWriter(FlushIn(st, order[..|order| - 1]), order[|order| - 1])
  }

  // ---- reading ----

  /** The records after the header, up to where no whole length field is left. */
  function ParseRecords(b: seq<Byte>): Result<seq<Frame>>
    decreases |b|
  {
    if |b| < 4 then Ok([])
    else
      var len := FromLittleEndian(b[..4]);
      if |b| < 4 + len then Err("unexpected end of file")
      else match FromBytes(b[4..4 + len])
        case Err(e) => Err(e)
        case Ok(f) =>
          match ParseRecords(b[4 + len..])
          case Err(e) => Err(e)
          case Ok(rest) => Ok([f] + rest)
  }

  function AfterHeader(file: seq<Byte>): seq<Byte> {
    if |file| < HEADER_SIZE then [] else file[HEADER_SIZE..]
  }

  predicate InRange(f: Frame, startUs: U64, endUs: U64) {
    startUs <= f.timestampUs <= endUs
  }

  function FilterRange(fs: seq<Frame>, startUs: U64, endUs: U64): seq<Frame> {
    if fs == [] then []
    else if InRange(fs[0], startUs, endUs) then [fs[0]] + FilterRange(fs[1..], startUs, endUs)
    else FilterRange(fs[1..], startUs, endUs)
  }

  /** The segments that overlap the range, read in index order. */
  function ReadSegments(files: map<Path, seq<Byte>>, segs: seq<SegmentIndex>, startUs: U64,
                        endUs: U64): Result<seq<Frame>>
    decreases |segs|
  {
    if segs == [] then Ok([])
    else
      var seg := segs[0];
      if seg.endTimeUs < startUs || seg.startTimeUs > endUs then ReadSegments(files, segs[1..], startUs, endUs)
      else if seg.path !in files then Err("No such file")
      else match ParseRecords(AfterHeader(files[seg.path]))
        case Err(e) => Err(e)
        case Ok(fs) =>
          match ReadSegments(files, segs[1..], startUs, endUs)
          case Err(e) => Err(e)
          case Ok(rest) => Ok(FilterRange(fs, startUs, endUs) + rest)
  }

  /** sort_by_key on the timestamp is stable: an element goes behind its equals. */
  function InsertByTime(fs: seq<Frame>, f: Frame): seq<Frame> {
    if fs == [] || fs[|fs| - 1].timestampUs <= f.timestampUs then fs + [f]
    else InsertByTime(fs[..|fs| - 1], f) + [fs[|fs| - 1]]
  }

  function SortByTime(fs: seq<Frame>): seq<Frame> {
    if fs == [] then [] else InsertByTime(SortByTime(fs[..|fs| - 1]), fs[|fs| - 1])
  }

  function GetFrames(st: Store, source: SourceId, startUs: U64, endUs: U64): Result<seq<Frame>> {
    match ReadSegments(st.files, Segments(st, source), startUs, endUs)
    case Err(e) => Err(e)
    case Ok(fs) => Ok(SortByTime(fs))
  }

  // ---- cleanup ----

  datatype Cleaned = Cleaned(files: map<Path, seq<Byte>>, kept: seq<SegmentIndex>, deletedBytes: nat)

  /** Old segments whose file can be deleted go; `failing` are the paths that the file
  system refuses to delete. */
  predicate Deletable(files: map<Path, seq<Byte>>, seg: SegmentIndex, beforeUs: U64, failing: set<Path>) {
    seg.endTimeUs < beforeUs && seg.path in files && seg.path !in failing
  }

  function CleanSegments(files: map<Path, seq<Byte>>, segs: seq<SegmentIndex>, beforeUs: U64,
                         failing: set<Path>): Cleaned
    decreases |segs|
  {
    if segs == [] then Cleaned(files, [], 0)
    else
      var c := CleanSegments(files, segs[..|segs| - 1], beforeUs, failing);
      var seg := segs[|segs| - 1];
      if Deletable(c.files, seg, beforeUs, failing)
      then Cleaned(c.files - {seg.path}, c.kept, c.deletedBytes + seg.sizeBytes)
      else c.(kept := c.kept + [seg])
  }

  /** One turn of the index loop of cleanup: the new store and the bytes deleted. */
  function CleanSource(st: Store, source: SourceId, beforeUs: U64, failing: set<Path>): (Store, nat) {
    if source !in st.index then (st, 0)
    else
      var c := CleanSegments(st.files, st.index[source], beforeUs, failing);
      (st.(files := c.files, index := st.index[source := c.kept]), c.deletedBytes)
  }

  /** The index loop over the sources in `order`. */
  function CleanSources(st: Store, order: seq<SourceId>, beforeUs: U64, failing: set<Path>): (Store, nat)
    decreases |order|
  {
    if order == [] then (st, 0)
    else
      var (before, deleted) := CleanSources(st, order[..|order| - 1], beforeUs, failing);
      var (after, more) := CleanSource(before, order[|order| - 1], beforeUs, failing);
      (after, deleted + more)
  }

  function CleanupIn(st: Store, order: seq<SourceId>, beforeUs: U64, failing: set<Path>): Store {
    var (st', deleted) := CleanSources(st, order, beforeUs, failing);
    st'.(totalBytes := SaturatingSub(st.totalBytes, deleted))
  }

  // ---- rebuilding the index ----

  /** read_segment_index: header and file size. */
  function ReadSegmentIndex(path: Path, file: seq<Byte>): Option<SegmentIndex> {
    if |file| < HEADER_SIZE then None
    else
      HeaderFieldBounds(file);
      Some(SegmentIndex(path, FromLittleEndian(file[0..8]), FromLittleEndian(file[8..16]),
                        FromLittleEndian(file[16..20]), |file|))
  }

  lemma HeaderFieldBounds(file: seq<Byte>)
    requires |file| >= HEADER_SIZE
    ensures FromLittleEndian(file[0..8]) < TWO_64 && FromLittleEndian(file[8..16]) < TWO_64
    ensures FromLittleEndian(file[16..20]) < TWO_32
  {
    FromLittleEndianBound(file[0..8]);
    FromLittleEndianBound(file[8..16]);
    FromLittleEndianBound(file[16..20]);
    Widths();
  }

  function InsertByStart(segs: seq<SegmentIndex>, seg: SegmentIndex): seq<SegmentIndex> {
    if segs == [] || segs[|segs| - 1].startTimeUs <= seg.startTimeUs then segs + [seg]
    else InsertByStart(segs[..|segs| - 1], seg) + [segs[|segs| - 1]]
  }

  function SortByStart(segs: seq<SegmentIndex>): seq<SegmentIndex> {
    if segs == [] then [] else InsertByStart(SortByStart(segs[..|segs| - 1]), segs[|segs| - 1])
  }

  /** The readable segments of a directory, in the order it lists its files. */
  function ReadListing(files: map<Path, seq<Byte>>, listing: seq<Path>): seq<SegmentIndex> {
    if listing == [] then []
    else
      var before, path := ReadListing(files, listing[..|listing| - 1]), listing[|listing| - 1];
      if path in files && ReadSegmentIndex(path, files[path]).Some?
      then before + [ReadSegmentIndex(path, files[path]).value]
      else before
  }

  function SumSizes(segs: seq<SegmentIndex>): nat {
    if segs == [] then 0 else SumSizes(segs[..|segs| - 1]) + segs[|segs| - 1].sizeBytes
  }
}
