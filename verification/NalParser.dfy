/** The incremental parser and the quick scan as the source has them: a buffer
updated in place and loops over it (crates/kodama/src/capture/h264.rs). Every
method is tied to the meaning `NalSpec` gives it. */
module NalParsing {
  import opened Bytes
  import opened Seqs
  import opened NalSpec

  class NalParser {
    var buffer: seq<Byte>

    constructor ()
      ensures buffer == []
    {
      buffer := [];
    }

    /** feed. */
    method FeedData(data: seq<Byte>) returns (nals: seq<NalUnit>)
      modifies this
      ensures Pass(nals, buffer) == Feed(old(buffer), data)
    {
      buffer := buffer + data;
      if |buffer| > MAX_NAL_BUFFER_SIZE {
        buffer := [];
        return [];
      }
      nals := ExtractNals();
    }

    /** extract_nals: the loop runs out of start codes or of buffer. */
    method ExtractNals() returns (nals: seq<NalUnit>)
      modifies this
      ensures Pass(nals, buffer) == Split(old(buffer))
    {
      hide Split, NextCode, CodeLen, Parse;
      nals := [];
      var found := FindStartCode(0);
      while found.Some?
        invariant found == NextCode(buffer, 0)
        invariant Split(old(buffer)) == Pass(nals + Split(buffer).nals, Split(buffer).rest)
        decreases |buffer|
      {
        var start := found.value;
        var nalStart := start + StartCodeLen(start);
        var next := FindStartCode(nalStart);
        if next.None? {
          SplitLast(buffer, start, nalStart);
          if start > 0 {
            buffer := buffer[start..];
          }
          return;
        }
        var nalEnd := next.value;
        UnitBounds(buffer, start, nalStart, nalEnd);
        ExtractOne(nals, buffer, start, nalStart, nalEnd);
        buffer := buffer[nalStart..];
        var nalData := buffer[0..nalEnd - nalStart];
        buffer := buffer[nalEnd - nalStart..];
        match Parse(nalData) {
          case Some(nal) => nals := nals + [nal];
          case None =>
        }
        found := FindStartCode(0);
      }
      SplitNone(buffer);
    }

    /** One round of the loop: the unit moves from the buffer to the list. */
    static lemma ExtractOne(nals: seq<NalUnit>, b: seq<Byte>, s: nat, n: nat, e: nat)
      requires NextCode(b, 0) == Some(s) && n == s + CodeLen(b, s) && NextCode(b, n) == Some(e)
      requires n <= e <= |b|
      ensures b[n..][0..e - n] == b[n..e] && b[n..][e - n..] == b[e..]
      ensures Pass(nals + Split(b).nals, Split(b).rest) ==
              Pass((nals + ParseToSeq(b[n..e])) + Split(b[e..]).nals, Split(b[e..]).rest)
      ensures Parse(b[n..e]) == None ==> nals + ParseToSeq(b[n..e]) == nals
    {
      hide Split;
      SplitStep(b, s, n, e);
      SliceOfDrop(b, n, n, e);
      hide NextCode, CodeLen;
      assert nals + (ParseToSeq(b[n..e]) + Split(b[e..]).nals) == (nals + ParseToSeq(b[n..e])) + Split(b[e..]).nals;
    }

    /** find_start_code. */
    method FindStartCode(offset: nat) returns (r: Option<nat>)
      ensures r == NextCode(buffer, offset)
    {
      if |buffer| < offset + 3 {
        return None;
      }
      for i := offset to |buffer| - 2
        invariant forall j :: offset <= j < i ==> !CodeAt(buffer, j)
      {
        if buffer[i] == 0 && buffer[i + 1] == 0 && buffer[i + 2] == 1 {
          assert CodeAt(buffer, i);
          NextCodeIs(buffer, offset, Some(i));
          return Some(i);
        }
        if i + 3 < |buffer| && buffer[i] == 0 && buffer[i + 1] == 0 && buffer[i + 2] == 0 && buffer[i + 3] == 1 {
          assert CodeAt(buffer, i);
          NextCodeIs(buffer, offset, Some(i));
          return Some(i);
        }
      }
      NextCodeIs(buffer, offset, None);
      return None;
    }

    /** start_code_len. */
    function StartCodeLen(pos: nat): (n: nat)
      reads this
      ensures n == CodeLen(buffer, pos)
    {
      if pos + 3 < |buffer| && buffer[pos] == 0 && buffer[pos + 1] == 0 && buffer[pos + 2] == 0 && buffer[pos + 3] == 1
      then 4
      else 3
    }

    /** flush. */
    method FlushRest() returns (r: Option<NalUnit>)
      modifies this
      ensures r == Flush(old(buffer)) && buffer == []
    {
      if buffer == [] {
        return None;
      }
      var found := FindStartCode(0);
      var start := match found case Some(pos) => pos + StartCodeLen(pos) case None => 0;
      if start >= |buffer| {
        buffer := [];
        return None;
      }
      buffer := buffer[start..];
      var data := buffer;
      buffer := [];
      r := Parse(data);
    }
  }

  /** contains_keyframe: scan for a start code followed by an IDR header. */
  method ContainsKeyframe(data: seq<Byte>) returns (found: bool)
    ensures found <==> ScanFinds(data)
  {
    var end := if |data| >= 4 then |data| - 4 else 0;
    for i := 0 to end
      invariant forall j: nat :: j < i && CodeAt(data, j) ==> !IsIdr(data[j + CodeLen(data, j)])
    {
      var isStartCode := (data[i] == 0 && data[i + 1] == 0 && data[i + 2] == 1)
                      || (data[i] == 0 && data[i + 1] == 0 && data[i + 2] == 0 && data[i + 3] == 1);
      assert isStartCode == CodeAt(data, i);
      if isStartCode {
        var nalOffset := if data[i + 2] == 1 then i + 3 else i + 4;
        assert nalOffset == i + CodeLen(data, i);
        if nalOffset < |data| && data[nalOffset] % 32 == 5 {
          return true;
        }
      }
    }
    return false;
  }

  /** Feeding a stream in any chunks and then flushing, through the stateful
  parser: the units are those of one pass over the whole stream. */
  method ParseInChunks(chunks: seq<seq<Byte>>) returns (nals: seq<NalUnit>, last: Option<NalUnit>)
    requires NoReset([], chunks)
    ensures nals == Split(Flatten(chunks)).nals
    ensures last == Flush(Split(Flatten(chunks)).rest)
  {
    var parser := new NalParser();
    nals := [];
    for i := 0 to |chunks|
      invariant NoReset(parser.buffer, chunks[i..])
      invariant FeedAll([], chunks) == Pass(nals + FeedAll(parser.buffer, chunks[i..]).nals,
                                            FeedAll(parser.buffer, chunks[i..]).rest)
    {
      ghost var rest := chunks[i..];
      assert rest[0] == chunks[i] && rest[1..] == chunks[i + 1..];
      ghost var before, nalsBefore := parser.buffer, nals;
      var more := parser.FeedData(chunks[i]);
      nals := nals + more;
      ghost var tail := FeedAll(parser.buffer, chunks[i + 1..]).nals;
      assert FeedAll(before, rest).nals == more + tail;
      assert nals + tail == nalsBefore + (more + tail);
    }
    FeedFresh(chunks);
    last := parser.FlushRest();
  }
}
