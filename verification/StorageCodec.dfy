/** Segment files read back: the records and the header that writing puts there. */
module StorageCodec {
  import opened Bytes
  import opened Frames
  import opened FrameCodec
  import opened StorageSpec

  /** The frames a segment file can hold: a channel that decoding can produce, and a
  length that fits its 32-bit field. */
  predicate Storable(f: Frame) {
    f.channel.Canonical() && FRAME_HEADER_SIZE + |f.payload| < TWO_32
  }

  function Records(g: seq<Frame>): seq<Byte> {
    if g == [] then [] else Record(g[0]) + Records(g[1..])
  }

  lemma {:induction false} RecordsSnoc(g: seq<Frame>, f: Frame)
    ensures Records(g + [f]) == Records(g) + Record(f)
    decreases |g|
  {
    hide Record;
    if g == [] {
      assert (g + [f])[1..] == [];
      assert Records([]) == [] && Records(g + [f]) == Record(f) + [];
    } else {
      RecordsSnoc(g[1..], f);
      assert (g + [f])[1..] == g[1..] + [f];
    }
  }

  /** One record in front of anything parses as its frame. */
  lemma RecordParses(f: Frame, rest: seq<Byte>)
    requires Storable(f)
    ensures var b := Record(f) + rest;
            ParseRecords(b) == match ParseRecords(rest) case Err(e) => Err(e) case Ok(fs) => Ok([f] + fs)
  {
    var b := Record(f) + rest;
    var len := |ToBytes(f)|;
    RecordSlices(f, rest);
    EncodeDecode(f);
    hide ToBytes, FromBytes, LittleEndian, FromLittleEndian, Record;
    assert |b| >= 4 + len;
  }

  lemma RecordSlices(f: Frame, rest: seq<Byte>)
    requires Storable(f)
    ensures var b, len := Record(f) + rest, |ToBytes(f)|;
            && |b| >= 4 + len && FromLittleEndian(b[..4]) == len
            && b[4..4 + len] == ToBytes(f) && b[4 + len..] == rest
  {
    hide ToBytes, LittleEndian, FromLittleEndian;
    Widths();
    LittleEndianRoundTrip(|ToBytes(f)|, 4);
    var b, len := Record(f) + rest, |ToBytes(f)|;
    assert b[..4] == LittleEndian(len, 4);
  }

  lemma NoRecords()
    ensures ParseRecords([]) == Ok([]) && Records([]) == []
  {
  }

  /** Reading a segment gives back the frames that were written to it. */
  lemma {:induction false} RecordsParse(g: seq<Frame>)
    requires forall f :: f in g ==> Storable(f)
    ensures ParseRecords(Records(g)) == Ok(g)
    decreases |g|
  {
    hide ParseRecords, Record, Storable;
    if g == [] {
      NoRecords();
    } else {
      assert g[0] in g && forall f :: f in g[1..] ==> f in g;
      RecordsParse(g[1..]);
      RecordParses(g[0], Records(g[1..]));
      assert [g[0]] + g[1..] == g;
    }
  }

  /** A file that was cut inside a record: with less than its length field left, the records
  before it are read; with more, reading fails. */
  lemma {:induction false} TornRecord(g: seq<Frame>, f: Frame, n: nat)
    requires (forall x :: x in g ==> Storable(x)) && Storable(f) && n < |Record(f)|
    ensures ParseRecords(Records(g) + Record(f)[..n]) == if n < 4 then Ok(g) else Err("unexpected end of file")
    decreases |g|
  {
    hide Record, Storable, ParseRecords;
    var torn := Record(f)[..n];
    if g == [] {
      NoRecords();
      assert Records(g) + torn == torn;
      TornAlone(f, n);
    } else {
      assert g[0] in g && forall x :: x in g[1..] ==> x in g;
      TornRecord(g[1..], f, n);
      assert Records(g) + torn == Record(g[0]) + (Records(g[1..]) + torn);
      RecordParses(g[0], Records(g[1..]) + torn);
      assert [g[0]] + g[1..] == g;
    }
  }

  lemma TornAlone(f: Frame, n: nat)
    requires Storable(f) && n < |Record(f)|
    ensures ParseRecords(Record(f)[..n]) == if n < 4 then Ok([]) else Err("unexpected end of file")
  {
    hide ToBytes, LittleEndian, FromLittleEndian;
    RecordSlices(f, []);
    assert Record(f) + [] == Record(f);
    assert n >= 4 ==> Record(f)[..n][..4] == Record(f)[..4];
  }

  /** The finished file of a group of frames. */
  function SegmentFile(g: seq<Frame>): (file: seq<Byte>)
    requires 0 < |g| < TWO_32
    ensures |file| == HEADER_SIZE + |Records(g)|
  {
    Header(g[0].timestampUs, g[|g| - 1].timestampUs, |g|) + Records(g)
  }

  /** The index entry of a group of frames. */
  function Entry(path: Path, g: seq<Frame>): SegmentIndex
    requires 0 < |g| < TWO_32
  {
    SegmentIndex(path, g[0].timestampUs, g[|g| - 1].timestampUs, |g|, |SegmentFile(g)|)
  }

  /** A segment file as it lies on disk: the times of the first and the last frame, how many
  there are, and then each frame behind its length; all fields little-endian. */
  lemma SegmentFileLayout(g: seq<Frame>)
    requires 0 < |g| < TWO_32
    ensures var file := SegmentFile(g);
            && |file| >= 20
            && file[0..8] == LittleEndian(g[0].timestampUs, 8)
            && file[8..16] == LittleEndian(g[|g| - 1].timestampUs, 8)
            && file[16..20] == LittleEndian(|g|, 4) && file[20..] == Records(g)
    ensures Records(g) == LittleEndian(18 + |g[0].payload|, 4) + ToBytes(g[0]) + Records(g[1..])
  {
    hide LittleEndian, ToBytes;
    HeaderFields(g[0].timestampUs, g[|g| - 1].timestampUs, |g|, Records(g));
  }

  lemma SegmentFileParses(g: seq<Frame>)
    requires 0 < |g| < TWO_32 && forall f :: f in g ==> Storable(f)
    ensures ParseRecords(AfterHeader(SegmentFile(g))) == Ok(g)
  {
    hide ParseRecords, Records, Header, Storable;
    RecordsParse(g);
    assert SegmentFile(g)[HEADER_SIZE..] == Records(g);
  }

  /** The header of a finished file reads back as its index entry. */
  lemma SegmentFileIndexed(path: Path, g: seq<Frame>)
    requires 0 < |g| < TWO_32
    ensures ReadSegmentIndex(path, SegmentFile(g)) == Some(Entry(path, g))
  {
    hide LittleEndian, FromLittleEndian, Records;
    var file := SegmentFile(g);
    var startUs, endUs := g[0].timestampUs, g[|g| - 1].timestampUs;
    Widths();
    LittleEndianRoundTrip(startUs, 8);
    LittleEndianRoundTrip(endUs, 8);
    LittleEndianRoundTrip(|g|, 4);
    HeaderFields(startUs, endUs, |g|, Records(g));
  }

  lemma HeaderFields(startUs: U64, endUs: U64, count: U32, rest: seq<Byte>)
    ensures var file := Header(startUs, endUs, count) + rest;
            && file[0..8] == LittleEndian(startUs, 8)
            && file[8..16] == LittleEndian(endUs, 8)
            && file[16..20] == LittleEndian(count, 4)
  {
    hide LittleEndian;
  }

  // ---- filtering and sorting by time ----

  predicate Sorted(fs: seq<Frame>) {
    forall i, j | 0 <= i < j < |fs| :: fs[i].timestampUs <= fs[j].timestampUs
  }

  lemma {:induction false} FilterAppend(a: seq<Frame>, b: seq<Frame>, startUs: U64, endUs: U64)
    ensures FilterRange(a + b, startUs, endUs) == FilterRange(a, startUs, endUs) + FilterRange(b, startUs, endUs)
    decreases |a|
  {
    if a == [] {
      assert a + b == b;
    } else {
      FilterAppend(a[1..], b, startUs, endUs);
      assert (a + b)[1..] == a[1..] + b;
    }
  }

  lemma {:induction false} FilterNone(fs: seq<Frame>, startUs: U64, endUs: U64)
    requires forall f :: f in fs ==> !InRange(f, startUs, endUs)
    ensures FilterRange(fs, startUs, endUs) == []
    decreases |fs|
  {
    if fs != [] {
      assert fs[0] in fs && forall f :: f in fs[1..] ==> f in fs;
      FilterNone(fs[1..], startUs, endUs);
    }
  }

  /** Filtering keeps frames of the list only, and keeps it sorted. */
  lemma {:induction false} FilterSorted(fs: seq<Frame>, startUs: U64, endUs: U64)
    requires Sorted(fs)
    ensures Sorted(FilterRange(fs, startUs, endUs))
    ensures forall f :: f in FilterRange(fs, startUs, endUs) <==> f in fs && InRange(f, startUs, endUs)
    decreases |fs|
  {
    if fs != [] {
      var rest := fs[1..];
      FilterSorted(rest, startUs, endUs);
      assert fs == [fs[0]] + rest;
      assert forall f :: f in rest ==> fs[0].timestampUs <= f.timestampUs;
    }
  }

  /** Sorting a sorted list changes nothing. */
  lemma {:induction false} SortSorted(fs: seq<Frame>)
    requires Sorted(fs)
    ensures SortByTime(fs) == fs
    decreases |fs|
  {
    if fs != [] {
      SortSorted(fs[..|fs| - 1]);
    }
  }
}
