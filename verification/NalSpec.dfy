/** Splitting an H.264 byte stream into NAL units, on values
(crates/kodama/src/capture/h264.rs).

`Split` is the meaning of one pass of the parser over its buffer, `Feed` and
`Flush` are the meaning of the two calls. The lemmas say what the parser is for:
how the stream was cut into chunks does not matter, an Annex B stream comes back
as the list it was made from, and the quick keyframe scan is compared with the
full parse on every input. */
module NalSpec {
  import opened Bytes
  import opened Seqs

  const MAX_NAL_BUFFER_SIZE: nat := 2 * 1024 * 1024

  datatype NalUnitType =
    | SliceNonIdr | SliceDataPartA | SliceDataPartB | SliceDataPartC | SliceIdr
    | Sei | Sps | Pps | Aud | EndSeq | EndStream | Filler | Unknown(n: Byte)

  function NalUnitTypeFrom(header: Byte): NalUnitType {
    match header % 32
    case 1 => SliceNonIdr
    case 2 => SliceDataPartA
    case 3 => SliceDataPartB
    case 4 => SliceDataPartC
    case 5 => SliceIdr
    case 6 => Sei
    case 7 => Sps
    case 8 => Pps
    case 9 => Aud
    case 10 => EndSeq
    case 11 => EndStream
    case 12 => Filler
    case n => Unknown(n)
  }

  datatype NalUnit = NalUnit(nalType: NalUnitType, nalRefIdc: Byte, data: seq<Byte>) {
    predicate IsKeyframe() {
      nalType.SliceIdr?
    }
  }

  /** NalUnit::parse. */
  function Parse(data: seq<Byte>): Option<NalUnit> {
    if data == [] then None
    else Some(NalUnit(NalUnitTypeFrom(data[0]), (data[0] / 32) % 4, data))
  }

  function ParseToSeq(data: seq<Byte>): seq<NalUnit> {
    match Parse(data)
    case None => []
    case Some(u) => [u]
  }

  /** The unit type's number in Table 7-1 of ITU-T H.264. */
  function TypeNumber(t: NalUnitType): Byte {
    match t
    case SliceNonIdr => 1
    case SliceDataPartA => 2
    case SliceDataPartB => 3
    case SliceDataPartC => 4
    case SliceIdr => 5
    case Sei => 6
    case Sps => 7
    case Pps => 8
    case Aud => 9
    case EndSeq => 10
    case EndStream => 11
    case Filler => 12
    case Unknown(n) => n
  }

  /** The header byte of a unit is made of one bit that is ignored, two bits of reference
  importance and five of type, which has a name for the numbers 1 to 12 only. */
  lemma HeaderIsParsed(data: seq<Byte>)
    ensures Parse(data).None? <==> data == []
    ensures data != [] ==>
              var u := Parse(data).value;
              && u.data == data && u.nalRefIdc < 4 && TypeNumber(u.nalType) < 32
              && data[0] % 128 == 32 * u.nalRefIdc + TypeNumber(u.nalType)
              && (u.nalType.Unknown? <==> !(1 <= TypeNumber(u.nalType) <= 12))
              && (u.IsKeyframe() <==> TypeNumber(u.nalType) == 5)
  {
  }

  // ---- start codes ----

  predicate Code3At(b: seq<Byte>, i: nat) {
    i + 3 <= |b| && b[i] == 0 && b[i + 1] == 0 && b[i + 2] == 1
  }

  predicate Code4At(b: seq<Byte>, i: nat) {
    i + 4 <= |b| && b[i] == 0 && b[i + 1] == 0 && b[i + 2] == 0 && b[i + 3] == 1
  }

  predicate CodeAt(b: seq<Byte>, i: nat) {
    Code3At(b, i) || Code4At(b, i)
  }

  function CodeLen(b: seq<Byte>, i: nat): nat {
    if Code4At(b, i) then 4 else 3
  }

  /** The first start code at or after `offset`. */
  function NextCode(b: seq<Byte>, offset: nat): (r: Option<nat>)
    ensures r.Some? ==> offset <= r.value && CodeAt(b, r.value)
    ensures forall i :: offset <= i && (r.Some? ==> i < r.value) ==> !CodeAt(b, i)
    decreases |b| - offset
  {
    if offset + 3 > |b| then None
    else if CodeAt(b, offset) then Some(offset)
    else NextCode(b, offset + 1)
  }

  /** A search result is settled by its two defining facts. */
  lemma NextCodeIs(b: seq<Byte>, offset: nat, r: Option<nat>)
    requires r.Some? ==> offset <= r.value && CodeAt(b, r.value)
    requires forall i :: offset <= i && (r.Some? ==> i < r.value) ==> !CodeAt(b, i)
    ensures NextCode(b, offset) == r
  {
    var q := NextCode(b, offset);
    if q.Some? && r.Some? {
      assert !(q.value < r.value) && !(r.value < q.value);
    }
  }

  // ---- one pass over the buffer ----

  datatype Pass = Pass(nals: seq<NalUnit>, rest: seq<Byte>)

  /** Every NAL unit between two start codes, and what stays in the buffer: the
  last start code and everything after it, or everything if there is none. */
  function Split(b: seq<Byte>): Pass
    decreases |b|
  {
    match NextCode(b, 0)
    case None => Pass([], b)
    case Some(start) =>
      var nalStart := start + CodeLen(b, start);
      match NextCode(b, nalStart)
      case None => Pass([], b[start..])
      case Some(nalEnd) => Behind(b[nalStart..nalEnd], Split(b[nalEnd..]))
  }

  /** One unit, then what the pass finds behind it. */
  function Behind(unit: seq<Byte>, tail: Pass): Pass {
    Pass(ParseToSeq(unit) + tail.nals, tail.rest)
  }

  /** feed: append, reset on overflow, otherwise one pass. */
  function Feed(buffer: seq<Byte>, data: seq<Byte>): Pass {
    if |buffer + data| > MAX_NAL_BUFFER_SIZE then Pass([], [])
    else Split(buffer + data)
  }

  /** flush: what is left, without its start code. */
  function Flush(buffer: seq<Byte>): Option<NalUnit> {
    match NextCode(buffer, 0)
    case Some(pos) => Parse(buffer[pos + CodeLen(buffer, pos)..])
    case None => Parse(buffer)
  }

  function FeedAll(buffer: seq<Byte>, chunks: seq<seq<Byte>>): Pass
    decreases |chunks|
  {
    if chunks == [] then Pass([], buffer)
    else
      var p := Feed(buffer, chunks[0]);
      var q := FeedAll(p.rest, chunks[1..]);
      Pass(p.nals + q.nals, q.rest)
  }

  /** No call in the sequence overflows the buffer. */
  predicate NoReset(buffer: seq<Byte>, chunks: seq<seq<Byte>>)
    decreases |chunks|
  {
    chunks == [] ||
    (&& |buffer| + |chunks[0]| <= MAX_NAL_BUFFER_SIZE
     && NoReset(Feed(buffer, chunks[0]).rest, chunks[1..]))
  }

  // ---- chunking independence ----

  /** A start code is decided by at most the three bytes after its first, and a
  code already seen keeps its place and length when bytes arrive behind it. */
  lemma NextCodeAppend(a: seq<Byte>, d: seq<Byte>, offset: nat)
    requires NextCode(a, offset).Some?
    ensures NextCode(a + d, offset) == NextCode(a, offset)
    ensures CodeLen(a + d, NextCode(a, offset).value) == CodeLen(a, NextCode(a, offset).value)
  {
    var s := NextCode(a, offset).value;
    forall i | offset <= i < s
      ensures !CodeAt(a + d, i)
    {
      assert !CodeAt(a, i);
    }
    NextCodeIs(a + d, offset, Some(s));
  }

  /** Start codes of a suffix are start codes of the whole. */
  lemma CodeDrop(b: seq<Byte>, k: nat, i: nat)
    requires k <= |b|
    ensures CodeAt(b[k..], i) == CodeAt(b, k + i)
    ensures CodeAt(b, k + i) ==> CodeLen(b[k..], i) == CodeLen(b, k + i)
  {
  }

  lemma NextCodeDrop(b: seq<Byte>, k: nat, offset: nat)
    requires k <= |b|
    ensures NextCode(b[k..], offset) ==
            match NextCode(b, k + offset) case None => None case Some(s) => Some(s - k)
  {
    var r := match NextCode(b, k + offset) case None => None case Some(s) => Some(s - k);
    forall i: nat | offset <= i && (r.Some? ==> i < r.value)
      ensures !CodeAt(b[k..], i)
    {
      CodeDrop(b, k, i);
      assert !CodeAt(b, k + i);
    }
    if r.Some? {
      CodeDrop(b, k, r.value);
    }
    NextCodeIs(b[k..], offset, r);
  }

  /** One unit between two start codes, then the rest of the pass. */
  lemma SplitStep(b: seq<Byte>, s: nat, n: nat, e: nat)
    requires NextCode(b, 0) == Some(s) && n == s + CodeLen(b, s) && NextCode(b, n) == Some(e)
    ensures s + 3 <= n <= e && e + 3 <= |b|
    ensures Split(b) == Pass(ParseToSeq(b[n..e]) + Split(b[e..]).nals, Split(b[e..]).rest)
  {
    UnitBounds(b, s, n, e);
    SplitUnit(b, s, n, e);
    hide Split, NextCode, CodeLen, CodeAt, ParseToSeq;
  }

  lemma SplitUnit(b: seq<Byte>, s: nat, n: nat, e: nat)
    requires NextCode(b, 0) == Some(s) && n == s + CodeLen(b, s) && NextCode(b, n) == Some(e)
    requires s <= n <= e <= |b|
    ensures Split(b) == Behind(b[n..e], Split(b[e..]))
  {
    hide NextCode, CodeLen, CodeAt, ParseToSeq, Behind;
  }

  lemma SplitNone(b: seq<Byte>)
    requires NextCode(b, 0) == None
    ensures Split(b) == Pass([], b)
  {
  }

  lemma UnitBounds(b: seq<Byte>, s: nat, n: nat, e: nat)
    requires NextCode(b, 0) == Some(s) && n == s + CodeLen(b, s) && NextCode(b, n) == Some(e)
    ensures s + 3 <= n <= e && e + 3 <= |b|
  {
    assert CodeAt(b, s) && CodeAt(b, e);
  }

  lemma SplitLast(b: seq<Byte>, s: nat, n: nat)
    requires NextCode(b, 0) == Some(s) && n == s + CodeLen(b, s) && NextCode(b, n) == None
    ensures s + 3 <= n <= |b|
    ensures Split(b) == Pass([], b[s..]) && Flush(b[s..]) == Parse(b[n..])
  {
    assert CodeAt(b, s);
    NextCodeDrop(b, s, 0);
    CodeDrop(b, s, 0);
    assert b[s..][n - s..] == b[n..];
  }

  /** The buffer from its first start code on has the same first unit. */
  lemma FirstCodeToFront(b: seq<Byte>, s: nat, n: nat)
    requires NextCode(b, 0) == Some(s) && n == s + CodeLen(b, s)
    ensures s + 3 <= n <= |b|
    ensures NextCode(b[s..], 0) == Some(0) && CodeLen(b[s..], 0) == n - s
    ensures NextCode(b[s..], n - s) == match NextCode(b, n) case None => None case Some(e) => Some(e - s)
  {
    assert CodeAt(b, s);
    NextCodeDrop(b, s, 0);
    CodeDrop(b, s, 0);
    NextCodeDrop(b, s, n - s);
  }

  lemma SliceOfDrop(b: seq<Byte>, s: nat, n: nat, e: nat)
    requires s <= n <= e <= |b|
    ensures b[s..][e - s..] == b[e..] && b[s..][n - s..e - s] == b[n..e]
  {
  }

  /** Two buffers with the same first unit and the same bytes after it. */
  lemma SameUnit(b: seq<Byte>, s: nat, n: nat, e: nat, c: seq<Byte>, s': nat, n': nat, e': nat)
    requires NextCode(b, 0) == Some(s) && n == s + CodeLen(b, s) && NextCode(b, n) == Some(e)
    requires NextCode(c, 0) == Some(s') && n' == s' + CodeLen(c, s') && NextCode(c, n') == Some(e')
    requires n <= e <= |b| && n' <= e' <= |c| && c[n'..e'] == b[n..e] && c[e'..] == b[e..]
    ensures Split(c) == Split(b)
  {
    hide Split, NextCode, CodeLen, CodeAt, ParseToSeq;
    SplitStep(b, s, n, e);
    SplitStep(c, s', n', e');
  }

  lemma DropPrefixUnit(b: seq<Byte>, s: nat, n: nat, e: nat)
    requires NextCode(b, 0) == Some(s) && n == s + CodeLen(b, s) && NextCode(b, n) == Some(e)
    requires s <= n <= e <= |b|
    requires NextCode(b[s..], 0) == Some(0) && CodeLen(b[s..], 0) == n - s && NextCode(b[s..], n - s) == Some(e - s)
    ensures Split(b[s..]) == Split(b)
  {
    hide Split, NextCode, CodeLen, CodeAt;
    var c := b[s..];
    SliceOfDrop(b, s, n, e);
    SameUnit(b, s, n, e, c, 0, n - s, e - s);
  }

  /** Bytes before the first start code never matter. */
  lemma SplitDropsPrefix(b: seq<Byte>, s: nat)
    requires NextCode(b, 0) == Some(s)
    ensures s <= |b| && Split(b[s..]) == Split(b)
  {
    hide Split, Flush;
    var n := s + CodeLen(b, s);
    FirstCodeToFront(b, s, n);
    match NextCode(b, n) {
      case Some(e) =>
        UnitBounds(b, s, n, e);
        DropPrefixUnit(b, s, n, e);
      case None =>
        SplitLast(b, s, n);
        SplitLast(b[s..], 0, n - s);
        assert b[s..][0..] == b[s..];
    }
  }

  /** One pass over `a + d` is one pass over `a`, then one over its rest and `d`. */
  lemma {:induction false} SplitAppend(a: seq<Byte>, d: seq<Byte>)
    ensures Split(a + d) ==
            Pass(Split(a).nals + Split(Split(a).rest + d).nals, Split(Split(a).rest + d).rest)
    decreases |a|
  {
    hide Split;
    if NextCode(a, 0).None? {
      SplitNone(a);
    } else {
      var s := NextCode(a, 0).value;
      var n := s + CodeLen(a, s);
      NextCodeAppend(a, d, 0);
      if NextCode(a, n).None? {
        SplitLast(a, s, n);
        SplitDropsPrefix(a + d, s);
        assert (a + d)[s..] == a[s..] + d;
      } else {
        var e := NextCode(a, n).value;
        UnitBounds(a, s, n, e);
        NextCodeAppend(a, d, n);
        hide NextCode, CodeLen, CodeAt, ParseToSeq;
        SplitAppendUnit(a, d, s, n, e);
      }
    }
  }

  lemma {:induction false} SplitAppendUnit(a: seq<Byte>, d: seq<Byte>, s: nat, n: nat, e: nat)
    requires NextCode(a, 0) == Some(s) && n == s + CodeLen(a, s) && NextCode(a, n) == Some(e)
    requires NextCode(a + d, 0) == Some(s) && n == s + CodeLen(a + d, s) && NextCode(a + d, n) == Some(e)
    requires n <= e <= |a| && e > 0
    ensures Split(a + d) ==
            Pass(Split(a).nals + Split(Split(a).rest + d).nals, Split(Split(a).rest + d).rest)
    decreases |a|, 0
  {
    hide Split, NextCode, CodeLen, ParseToSeq;
    SplitStep(a, s, n, e);
    SplitStep(a + d, s, n, e);
    assert (a + d)[e..] == a[e..] + d;
    assert (a + d)[n..e] == a[n..e];
    SplitAppend(a[e..], d);
    var q := Split(Split(a[e..]).rest + d);
    assert ParseToSeq(a[n..e]) + (Split(a[e..]).nals + q.nals) ==
           (ParseToSeq(a[n..e]) + Split(a[e..]).nals) + q.nals;
  }

  /** What a pass leaves behind holds no further unit, so a second pass is idle. */
  lemma {:induction false} SplitSettled(b: seq<Byte>)
    ensures Split(Split(b).rest) == Pass([], Split(b).rest)
    decreases |b|
  {
    hide Split;
    if NextCode(b, 0).None? {
      SplitNone(b);
    } else {
      var s := NextCode(b, 0).value;
      var n := s + CodeLen(b, s);
      if NextCode(b, n).None? {
        SplitLast(b, s, n);
        SplitDropsPrefix(b, s);
      } else {
        SplitStep(b, s, n, NextCode(b, n).value);
        SplitSettled(b[NextCode(b, n).value..]);
      }
    }
  }

  /** Feeding chunks that overflow nothing is one pass over their concatenation. */
  lemma {:induction false} FeedAllIsSplit(buffer: seq<Byte>, chunks: seq<seq<Byte>>)
    requires Split(buffer) == Pass([], buffer)
    requires NoReset(buffer, chunks)
    ensures FeedAll(buffer, chunks) == Split(buffer + Flatten(chunks))
    decreases |chunks|
  {
    hide Split;
    if chunks == [] {
      assert buffer + Flatten(chunks) == buffer;
    } else {
      var p := Feed(buffer, chunks[0]);
      SplitSettled(buffer + chunks[0]);
      FeedAllIsSplit(p.rest, chunks[1..]);
      SplitAppend(buffer + chunks[0], Flatten(chunks[1..]));
      assert buffer + Flatten(chunks) == (buffer + chunks[0]) + Flatten(chunks[1..]);
    }
  }

  lemma FeedFresh(chunks: seq<seq<Byte>>)
    requires NoReset([], chunks)
    ensures FeedAll([], chunks) == Split(Flatten(chunks))
  {
    SplitNone([]);
    hide Split, FeedAll, NoReset, Flatten, NextCode;
    FeedAllIsSplit([], chunks);
    assert [] + Flatten(chunks) == Flatten(chunks);
  }

  /** Chunking independence: two ways of cutting the same stream give the same
  units and leave the same buffer. */
  lemma ChunkingIndependence(chunks: seq<seq<Byte>>, chunks': seq<seq<Byte>>)
    requires Flatten(chunks) == Flatten(chunks')
    requires NoReset([], chunks) && NoReset([], chunks')
    ensures FeedAll([], chunks) == FeedAll([], chunks') == Split(Flatten(chunks))
  {
    hide Split, FeedAll, NoReset, Flatten;
    FeedFresh(chunks);
    FeedFresh(chunks');
  }

  lemma {:induction false} SplitRestLength(b: seq<Byte>)
    ensures |Split(b).rest| <= |b|
    decreases |b|
  {
    hide Split;
    if NextCode(b, 0).None? {
      SplitNone(b);
    } else {
      var s := NextCode(b, 0).value;
      var n := s + CodeLen(b, s);
      if NextCode(b, n).None? {
        SplitLast(b, s, n);
      } else {
        SplitStep(b, s, n, NextCode(b, n).value);
        SplitRestLength(b[NextCode(b, n).value..]);
      }
    }
  }

  /** A stream no longer than the buffer limit can be cut in any way at all. */
  lemma {:induction false} ShortStreamsNeverReset(buffer: seq<Byte>, chunks: seq<seq<Byte>>)
    requires |buffer| + |Flatten(chunks)| <= 2 * 1024 * 1024
    ensures NoReset(buffer, chunks)
    decreases |chunks|
  {
    if chunks != [] {
      SplitRestLength(buffer + chunks[0]);
      ShortStreamsNeverReset(Feed(buffer, chunks[0]).rest, chunks[1..]);
    }
  }

  // ---- Annex B ----

  lemma NoCodeBefore(b: seq<Byte>, n: nat, e: nat)
    requires n <= e <= |b| && NextCode(b, n) == Some(e)
    ensures NextCode(b[n..e], 0) == None
  {
    forall i: nat
      ensures !CodeAt(b[n..e], i)
    {
      assert CodeAt(b[n..e], i) ==> n + i < e && CodeAt(b, n + i);
    }
    NextCodeIs(b[n..e], 0, None);
  }

  /** A unit as a pass emits it: not empty, and no 00 00 01 inside. */
  predicate Emittable(u: NalUnit) {
    Parse(u.data) == Some(u) && NextCode(u.data, 0) == None
  }

  /** Every unit that a pass emits holds no start code. */
  lemma {:induction false} EmittedHoldNoStartCode(b: seq<Byte>)
    ensures forall u :: u in Split(b).nals ==> Emittable(u)
    decreases |b|
  {
    hide Split;
    if NextCode(b, 0).None? {
      SplitNone(b);
    } else {
      var s := NextCode(b, 0).value;
      var n := s + CodeLen(b, s);
      if NextCode(b, n).None? {
        SplitLast(b, s, n);
      } else {
        var e := NextCode(b, n).value;
        SplitStep(b, s, n, e);
        EmittedHoldNoStartCode(b[e..]);
        NoCodeBefore(b, n, e);
        hide CodeAt, CodeLen;
      }
    }
  }

  /** The form section 7.4.1 of H.264 gives a NAL unit: not empty, no 00 00 01
  inside, last byte not zero. */
  predicate WellFormedNal(nal: seq<Byte>) {
    nal != [] && nal[|nal| - 1] != 0 && forall i: nat | i < |nal| :: !Code3At(nal, i)
  }

  function StartCode(long: bool): (c: seq<Byte>)
    ensures |c| == if long then 4 else 3
  {
    if long then [0, 0, 0, 1] else [0, 0, 1]
  }

  /** The Annex B byte stream of a list of units, each behind a start code of
  either length. */
  function AnnexB(nals: seq<seq<Byte>>, long: seq<bool>): seq<Byte>
    requires |nals| == |long|
  {
    if nals == [] then [] else StartCode(long[0]) + nals[0] + AnnexB(nals[1..], long[1..])
  }

  function Units(nals: seq<seq<Byte>>): seq<NalUnit> {
    if nals == [] then [] else ParseToSeq(nals[0]) + Units(nals[1..])
  }

  /** A well-formed unit holds no start code, not even one that a following code completes. */
  lemma NoCodeInside(b: seq<Byte>, nal: seq<Byte>, n: nat, i: nat)
    requires WellFormedNal(nal) && n <= i < n + |nal| <= |b| && b[n..n + |nal|] == nal
    requires n + |nal| < |b| ==> b[n + |nal|] == 0
    ensures !CodeAt(b, i)
  {
    var e := n + |nal|;
    assert forall j | n <= j < e :: b[j] == nal[j - n];
    assert b[e - 1] != 0;
    assert i + 2 < e ==> !Code3At(nal, i - n);
    assert i + 3 < e ==> !Code3At(nal, i + 1 - n);
  }

  /** In `code + nal + tail`, with a well-formed unit and a tail that is empty or
  begins with a start code, the search finds the code, then the tail. */
  lemma FirstUnit(nal: seq<Byte>, long: bool, tail: seq<Byte>)
    requires WellFormedNal(nal)
    requires tail == [] || CodeAt(tail, 0)
    ensures var b := StartCode(long) + nal + tail;
            var n := |StartCode(long)|;
            && NextCode(b, 0) == Some(0) && CodeLen(b, 0) == n
            && NextCode(b, n) == (if tail == [] then None else Some(n + |nal|))
            && CodeAt(b, 0) && b[n..n + |nal|] == nal && b[n + |nal|..] == tail
  {
    var b := StartCode(long) + nal + tail;
    var n := |StartCode(long)|;
    var e := n + |nal|;
    assert b[n..e] == nal && b[e..] == tail;
    assert forall j | e <= j < |b| :: b[j] == tail[j - e];
    assert b[e - 1] == nal[|nal| - 1];
    NextCodeIs(b, 0, Some(0));
    forall i | n <= i < e
      ensures !CodeAt(b, i)
    {
      NoCodeInside(b, nal, n, i);
    }
    if tail == [] {
      NextCodeIs(b, n, None);
    } else {
      assert CodeAt(b, e);
      NextCodeIs(b, n, Some(e));
    }
  }

  lemma {:induction false} AnnexBSplit(nals: seq<seq<Byte>>, long: seq<bool>)
    requires |nals| == |long| > 0
    requires forall nal :: nal in nals ==> WellFormedNal(nal)
    ensures CodeAt(AnnexB(nals, long), 0)
    ensures var p := Split(AnnexB(nals, long));
            && p.nals == Units(nals[..|nals| - 1])
            && Flush(p.rest) == Parse(nals[|nals| - 1])
    decreases |nals|
  {
    hide Split, Flush, NextCode, CodeAt, CodeLen;
    var b := AnnexB(nals, long);
    var tail := AnnexB(nals[1..], long[1..]);
    var n := |StartCode(long[0])|;
    assert nals[0] in nals;
    if |nals| == 1 {
      assert tail == [];
      FirstUnit(nals[0], long[0], tail);
      SplitLast(b, 0, n);
      assert b[0..] == b && b[n..] == nals[0];
    } else {
      AnnexBSplit(nals[1..], long[1..]);
      FirstUnit(nals[0], long[0], tail);
      SplitStep(b, 0, n, n + |nals[0]|);
      assert nals[1..][..|nals| - 2] == nals[..|nals| - 1][1..];
    }
  }

  /** Annex B round trip: feeding the stream to a fresh parser and flushing gives
  exactly the list of units, in order, and leaves nothing behind. */
  lemma AnnexBRoundTrip(nals: seq<seq<Byte>>, long: seq<bool>)
    requires |nals| == |long| > 0
    requires forall nal :: nal in nals ==> WellFormedNal(nal)
    requires |AnnexB(nals, long)| <= 2 * 1024 * 1024
    ensures var p := Feed([], AnnexB(nals, long));
            Flush(p.rest).Some? && p.nals + [Flush(p.rest).value] == Units(nals)
  {
    var b := AnnexB(nals, long);
    assert [] + b == b;
    AnnexBSplit(nals, long);
    UnitsSnoc(nals);
    assert nals[|nals| - 1] in nals;
  }

  /** The same through any chunking of the stream. */
  lemma AnnexBRoundTripInChunks(nals: seq<seq<Byte>>, long: seq<bool>, chunks: seq<seq<Byte>>)
    requires |nals| == |long| > 0
    requires forall nal :: nal in nals ==> WellFormedNal(nal)
    requires Flatten(chunks) == AnnexB(nals, long) && |Flatten(chunks)| <= 2 * 1024 * 1024
    ensures var p := FeedAll([], chunks);
            Flush(p.rest).Some? && p.nals + [Flush(p.rest).value] == Units(nals)
  {
    ShortStreamsNeverReset([], chunks);
    FeedFresh(chunks);
    AnnexBRoundTrip(nals, long);
    hide Split, Flush, FeedAll, NoReset;
    assert [] + AnnexB(nals, long) == AnnexB(nals, long);
  }

  lemma {:induction false} UnitsSnoc(nals: seq<seq<Byte>>)
    requires nals != []
    ensures Units(nals) == Units(nals[..|nals| - 1]) + ParseToSeq(nals[|nals| - 1])
    decreases |nals|
  {
    var init := nals[..|nals| - 1];
    if |nals| == 1 {
      assert nals[1..] == [];
    } else {
      UnitsSnoc(nals[1..]);
      assert init[1..] == nals[1..][..|nals| - 2];
    }
  }

  // ---- the quick keyframe scan ----

  predicate IsIdr(header: Byte) {
    header % 32 == 5
  }

  /** Some start code is followed by an IDR header within the scanned range,
  which stops four bytes before the end. */
  ghost predicate ScanFinds(b: seq<Byte>) {
    exists i: nat :: i + 4 < |b| && CodeAt(b, i) && IsIdr(b[i + CodeLen(b, i)])
  }

  /** The same over the whole buffer. */
  ghost predicate IdrCode(b: seq<Byte>) {
    exists i: nat :: CodeAt(b, i) && i + CodeLen(b, i) < |b| && IsIdr(b[i + CodeLen(b, i)])
  }

  ghost predicate HasKeyframe(us: seq<NalUnit>) {
    exists u :: u in us && u.IsKeyframe()
  }

  /** A full parse of `b` as one pass and a flush yields an IDR unit. */
  ghost predicate ParseFinds(b: seq<Byte>) {
    HasKeyframe(Split(b).nals) || (Flush(Split(b).rest).Some? && Flush(Split(b).rest).value.IsKeyframe())
  }

  /** The stream ends in a one-byte IDR unit behind a three-byte start code. */
  predicate EndsInBareIdr(b: seq<Byte>) {
    var n := |b|;
    n >= 4 && Code3At(b, n - 4) && IsIdr(b[n - 1]) && !(n >= 5 && b[n - 5] == 0)
  }

  /** A start code that begins inside the first code of the buffer, or before its
  unit ends, leads to the same unit. */
  lemma CodesInFirstUnit(b: seq<Byte>, i: nat)
    requires NextCode(b, 0).Some?
    requires CodeAt(b, i)
    ensures var s := NextCode(b, 0).value;
            var n := s + CodeLen(b, s);
            s <= i && (i + CodeLen(b, i) == n || (NextCode(b, n).Some? && NextCode(b, n).value <= i))
  {
    var s := NextCode(b, 0).value;
    var n := s + CodeLen(b, s);
    assert i < n ==> i == s || (i == s + 1 && Code4At(b, s));
  }

  lemma KeyframeOf(data: seq<Byte>)
    ensures HasKeyframe(ParseToSeq(data)) <==> data != [] && IsIdr(data[0])
  {
    if data != [] {
      assert Parse(data).value in ParseToSeq(data);
    }
  }

  /** With a start code present, the full parse finds an IDR unit exactly when
  some start code is followed by an IDR header. */
  lemma {:induction false} ParseFindsIdrCode(b: seq<Byte>)
    requires NextCode(b, 0).Some?
    ensures ParseFinds(b) <==> IdrCode(b)
    decreases |b|
  {
    hide Split, Flush, NextCode, CodeLen, CodeAt, IdrCode, ParseFinds, IsIdr;
    var s := NextCode(b, 0).value;
    var n := s + CodeLen(b, s);
    if NextCode(b, n).None? {
      IdrCodeLast(b, s, n);
      ParseFindsLast(b, s, n);
    } else {
      var e := NextCode(b, n).value;
      ParseFindsStep(b, s, n, e);
      ParseFindsIdrCode(b[e..]);
      IdrCodeStep(b, s, n, e);
    }
  }

  lemma ParseFindsLast(b: seq<Byte>, s: nat, n: nat)
    requires NextCode(b, 0) == Some(s) && n == s + CodeLen(b, s) && NextCode(b, n) == None
    ensures ParseFinds(b) <==> n < |b| && IsIdr(b[n])
  {
    hide Split, Flush, NextCode, CodeLen, CodeAt;
    SplitLast(b, s, n);
  }

  /** The parse finds a keyframe in its first unit or behind it. */
  lemma ParseFindsStep(b: seq<Byte>, s: nat, n: nat, e: nat)
    requires NextCode(b, 0) == Some(s) && n == s + CodeLen(b, s) && NextCode(b, n) == Some(e)
    ensures n <= e < |b| && e > 0 && NextCode(b[e..], 0).Some?
    ensures ParseFinds(b) <==> (n < e && IsIdr(b[n])) || ParseFinds(b[e..])
  {
    hide Split, Flush, NextCode, CodeLen, CodeAt, IsIdr, ParseToSeq;
    SplitStep(b, s, n, e);
    NextCodeDrop(b, e, 0);
    KeyframeOf(b[n..e]);
    HasKeyframeSplits(ParseToSeq(b[n..e]), Split(b[e..]).nals);
  }

  lemma HasKeyframeSplits(a: seq<NalUnit>, b: seq<NalUnit>)
    ensures HasKeyframe(a + b) <==> HasKeyframe(a) || HasKeyframe(b)
  {
  }

  lemma IdrCodeLast(b: seq<Byte>, s: nat, n: nat)
    requires NextCode(b, 0) == Some(s) && n == s + CodeLen(b, s) && NextCode(b, n) == None
    ensures IdrCode(b) <==> n < |b| && IsIdr(b[n])
  {
    if IdrCode(b) {
      var i: nat :| CodeAt(b, i) && i + CodeLen(b, i) < |b| && IsIdr(b[i + CodeLen(b, i)]);
      CodesInFirstUnit(b, i);
    }
  }

  lemma IdrCodeStep(b: seq<Byte>, s: nat, n: nat, e: nat)
    requires NextCode(b, 0) == Some(s) && n == s + CodeLen(b, s) && NextCode(b, n) == Some(e)
    ensures n <= e < |b|
    ensures IdrCode(b) <==> (n < e && IsIdr(b[n])) || IdrCode(b[e..])
  {
    hide NextCode, CodeAt, CodeLen, IsIdr;
    UnitBounds(b, s, n, e);
    if IdrCode(b) {
      IdrCodeSplits(b, s, n, e);
    }
    if n < e && IsIdr(b[n]) {
      assert CodeAt(b, s);
    }
    if IdrCode(b[e..]) {
      IdrCodeBehind(b, e);
    }
  }

  lemma IdrCodeBehind(b: seq<Byte>, e: nat)
    requires e <= |b| && IdrCode(b[e..])
    ensures IdrCode(b)
  {
    hide CodeAt, CodeLen, IsIdr;
    var j: nat :| CodeAt(b[e..], j) && j + CodeLen(b[e..], j) < |b[e..]| && IsIdr(b[e..][j + CodeLen(b[e..], j)]);
    CodeDrop(b, e, j);
    assert CodeAt(b, e + j);
  }

  lemma IdrCodeSplits(b: seq<Byte>, s: nat, n: nat, e: nat)
    requires NextCode(b, 0) == Some(s) && n == s + CodeLen(b, s) && NextCode(b, n) == Some(e)
    requires n <= e < |b| && IdrCode(b)
    ensures (n < e && IsIdr(b[n])) || IdrCode(b[e..])
  {
    hide NextCode, CodeAt, CodeLen;
    CodeBeginsWithZero(b, e);
    var i: nat :| CodeAt(b, i) && i + CodeLen(b, i) < |b| && IsIdr(b[i + CodeLen(b, i)]);
    CodesInFirstUnit(b, i);
    if e <= i {
      IdrCodeInTail(b, e, i);
    }
  }

  lemma CodeBeginsWithZero(b: seq<Byte>, e: nat)
    requires CodeAt(b, e)
    ensures e < |b| && b[e] == 0
  {
  }

  lemma IdrCodeInTail(b: seq<Byte>, e: nat, i: nat)
    requires e <= i && CodeAt(b, i) && i + CodeLen(b, i) < |b| && IsIdr(b[i + CodeLen(b, i)])
    ensures IdrCode(b[e..])
  {
    CodeDrop(b, e, i - e);
    hide CodeAt, CodeLen;
    assert CodeAt(b[e..], i - e);
  }

  lemma IdrCodeIsScan(b: seq<Byte>)
    ensures IdrCode(b) <==> ScanFinds(b) || EndsInBareIdr(b)
  {
    if IdrCode(b) {
      var i: nat :| CodeAt(b, i) && i + CodeLen(b, i) < |b| && IsIdr(b[i + CodeLen(b, i)]);
      if i + 4 == |b| && i >= 1 && b[i - 1] == 0 {
        assert CodeAt(b, i - 1);
      }
    }
    if EndsInBareIdr(b) {
      assert CodeAt(b, |b| - 4);
    }
  }

  /** A fresh parser given all of `b` at once, then flushed, yields an IDR unit. */
  ghost predicate ParserFinds(b: seq<Byte>) {
    var p := Feed([], b);
    HasKeyframe(p.nals) || (Flush(p.rest).Some? && Flush(p.rest).value.IsKeyframe())
  }

  /** The quick scan against the full parse, on every input within the buffer
  limit: they differ on exactly two kinds of buffer. One ends in a bare one-byte
  IDR unit behind a short start code and holds no other IDR unit. The other has no
  start code at all and an IDR header for its first byte. Beyond the limit the
  parser discards everything. */
  lemma ScanAgainstParse(b: seq<Byte>)
    ensures ParserFinds(b) <==>
            && |b| <= 2 * 1024 * 1024
            && (|| ScanFinds(b)
                || EndsInBareIdr(b)
                || (NextCode(b, 0).None? && b != [] && IsIdr(b[0])))
  {
    assert [] + b == b;
    if |b| > MAX_NAL_BUFFER_SIZE {
    } else if NextCode(b, 0).Some? {
      ParseFindsIdrCode(b);
      IdrCodeIsScan(b);
    } else {
      KeyframeOf(b);
      assert !ScanFinds(b);
      assert EndsInBareIdr(b) ==> CodeAt(b, |b| - 4);
    }
  }

  /** The two agree when there is a start code and the last unit has two bytes. */
  lemma ScanEqualsParse(b: seq<Byte>)
    requires |b| <= 2 * 1024 * 1024
    requires NextCode(b, 0).Some?
    requires forall u :: Flush(Feed([], b).rest) == Some(u) ==> |u.data| >= 2
    ensures ParserFinds(b) <==> ScanFinds(b)
  {
    assert [] + b == b;
    ScanAgainstParse(b);
    if EndsInBareIdr(b) {
      LastUnitIsBare(b);
    }
  }

  lemma {:induction false} LastUnitIsBare(b: seq<Byte>)
    requires EndsInBareIdr(b)
    ensures Flush(Split(b).rest) == Parse([b[|b| - 1]])
    decreases |b|
  {
    hide Split, Flush, Parse;
    var last := |b| - 4;
    assert CodeAt(b, last) && CodeLen(b, last) == 3;
    var s := NextCode(b, 0).value;
    var n := s + CodeLen(b, s);
    CodesInFirstUnit(b, last);
    hide NextCode, CodeAt, CodeLen, EndsInBareIdr;
    if NextCode(b, n).None? {
      SplitLast(b, s, n);
      assert b[n..] == [b[|b| - 1]];
    } else {
      LastUnitIsBareStep(b, s, n, NextCode(b, n).value);
    }
  }

  lemma {:induction false} LastUnitIsBareStep(b: seq<Byte>, s: nat, n: nat, e: nat)
    requires EndsInBareIdr(b) && e + 4 <= |b|
    requires NextCode(b, 0) == Some(s) && n == s + CodeLen(b, s) && NextCode(b, n) == Some(e)
    ensures Flush(Split(b).rest) == Parse([b[|b| - 1]])
    decreases |b|, 0
  {
    hide Split, Flush, Parse, NextCode, CodeLen, CodeAt, EndsInBareIdr, ParseToSeq;
    BareTail(b, e);
    SplitStep(b, s, n, e);
    LastUnitIsBare(b[e..]);
  }

  lemma BareTail(b: seq<Byte>, e: nat)
    requires EndsInBareIdr(b) && e + 4 <= |b|
    ensures EndsInBareIdr(b[e..]) && b[e..][|b| - e - 1] == b[|b| - 1]
  {
  }

  /** A one-byte IDR unit the scan misses: the case that bounds the loop. */
  lemma ScanMisses()
    ensures var b: seq<Byte> := [0, 0, 1, 0x65];
            ParserFinds(b) && !ScanFinds(b) && NextCode(b, 0).Some?
  {
    var b: seq<Byte> := [0, 0, 1, 0x65];
    ScanAgainstParse(b);
    NextCodeIs(b, 0, Some(0));
    hide Split, Feed, Flush, NextCode, ParserFinds;
    assert CodeAt(b, 0);
    assert EndsInBareIdr(b);
  }
}
