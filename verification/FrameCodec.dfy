/** The wire format of frames (crates/kodama/src/transport/mux/frame.rs).

`ToBytes` and `FromBytes` are the value-level codec. The methods follow the
source: the encoder appends to a growing buffer, the decoder advances a cursor,
and the length-prefixed pair works on a byte stream. */
module FrameCodec {
  import opened Bytes
  import opened Frames
  import opened Seqs

  function ToBytes(f: Frame): (b: seq<Byte>)
    ensures |b| == FRAME_HEADER_SIZE + |f.payload|
  {
    f.source + [f.channel.AsU8()] + [f.flags] + BigEndian(f.timestampUs, 8) + f.payload
  }

  function FromBytes(b: seq<Byte>): Result<Frame> {
    if |b| < FRAME_HEADER_SIZE then Err("Buffer too small for frame header")
    else
      TimestampBound(b[10..18]);
      Ok(Frame(b[..8], ChannelFrom(b[8]), b[9], FromBigEndian(b[10..18]), b[18..]))
  }

  lemma TimestampBound(b: seq<Byte>)
    requires |b| == 8
    ensures 0 <= FromBigEndian(b) < TWO_64
  {
    BigEndianOnto(b);
    Widths();
  }

  /** Where each field of an encoded frame lies: source, channel, flags with the keyframe bit
  lowest, time, payload. */
  lemma Layout(f: Frame)
    ensures var b := ToBytes(f);
            && |b| == 18 + |f.payload| && b[..8] == f.source && b[9] == f.flags
            && b[10..18] == BigEndian(f.timestampUs, 8) && b[18..] == f.payload
            && b[8] == match f.channel case Video => 0 case Audio => 1 case Telemetry => 2 case Unknown(v) => v
    ensures f.IsKeyframe() <==> (ToBytes(f)[9] as bv8) & 1 == 1
  {
  }

  /** Decoding inverts encoding for exactly the channels that decoding can produce. */
  lemma EncodeDecode(f: Frame)
    ensures FromBytes(ToBytes(f)).Ok?
    ensures FromBytes(ToBytes(f)) == Ok(f) <==> f.channel.Canonical()
    ensures FromBytes(ToBytes(f)).value == f.(channel := ChannelFrom(f.channel.AsU8()))
  {
    Layout(f);
    Widths();
    BigEndianRoundTrip(f.timestampUs, 8);
    ChannelByteRoundTrip(f.channel);
  }

  /** Encoding inverts decoding on every buffer that decodes, and those are the
  buffers with room for a header. */
  lemma DecodeEncode(b: seq<Byte>)
    ensures FromBytes(b).Ok? <==> |b| >= 18
    ensures FromBytes(b).Ok? ==> ToBytes(FromBytes(b).value) == b && FromBytes(b).value.channel.Canonical()
  {
    if |b| >= FRAME_HEADER_SIZE {
      ChannelByteRoundTrip(ChannelFrom(b[8]));
      BigEndianOnto(b[10..18]);
      assert b == b[..8] + [b[8]] + [b[9]] + b[10..18] + b[18..];
    }
  }

  /** frame_to_bytes. */
  method FrameToBytes(f: Frame) returns (buf: seq<Byte>)
    ensures buf == ToBytes(f)
  {
    buf := [];
    buf := buf + f.source;
    buf := buf + [f.channel.AsU8()];
    buf := buf + [f.flags];
    buf := buf + BigEndian(f.timestampUs, 8);
    buf := buf + f.payload;
  }

  /** frame_from_bytes, with `buf` as the cursor over what is left. */
  method FrameFromBytes(b: seq<Byte>) returns (r: Result<Frame>)
    ensures r == FromBytes(b)
  {
    if |b| < FRAME_HEADER_SIZE {
      return Err("Buffer too small for frame header");
    }
    var buf := b;
    var source := buf[..8];
    buf := buf[8..];
    var channel := ChannelFrom(buf[0]);
    buf := buf[1..];
    var flags := buf[0];
    buf := buf[1..];
    TimestampBound(buf[..8]);
    var timestamp := FromBigEndian(buf[..8]);
    assert buf[..8] == b[10..18];
    buf := buf[8..];
    assert buf == b[18..];
    r := Ok(Frame(source, channel, flags, timestamp, buf));
  }

  // ---- length-prefixed frames on a stream ----

  /** What write_frame puts on the stream; it refuses payloads over the limit. */
  function WireBytes(f: Frame): Result<seq<Byte>> {
    if |f.payload| > MAX_FRAME_PAYLOAD_SIZE then Err("Frame payload too large")
    else Ok(BigEndian(|ToBytes(f)|, 4) + ToBytes(f))
  }

  /** What read_frame returns, and what it leaves on the stream. */
  function ReadWire(s: seq<Byte>): (Result<Frame>, seq<Byte>) {
    if |s| < 4 then (Err("unexpected end of stream"), [])
    else
      var len := FromBigEndian(s[..4]);
      if len > MAX_FRAME_PAYLOAD_SIZE then (Err("Frame length exceeds maximum"), s[4..])
      else if len < FRAME_HEADER_SIZE then (Err("Frame length too small for header"), s[4..])
      else if |s| < 4 + len then (Err("unexpected end of stream"), [])
      else (FromBytes(s[4..4 + len]), s[4 + len..])
  }

  /** A frame that was written is read back, whatever follows it, exactly when
  header and payload together fit the reader's limit. The writer checks the
  payload alone, so the largest 18 payload sizes it accepts are refused by every
  reader. */
  lemma WireRoundTrip(f: Frame, rest: seq<Byte>)
    requires WireBytes(f).Ok?
    ensures ReadWire(WireBytes(f).value + rest) == (Ok(f), rest)
       <==> f.channel.Canonical() && |f.payload| <= 2 * 1024 * 1024 - 18
  {
    var b := ToBytes(f);
    var s := WireBytes(f).value + rest;
    Widths();
    BigEndianRoundTrip(|b|, 4);
    assert s[..4] == BigEndian(|b|, 4);
    assert s[4..4 + |b|] == b;
    assert s[4 + |b|..] == rest;
    EncodeDecode(f);
  }

  /** The smallest payload that is written but never read. */
  lemma WrittenButUnreadable()
    ensures exists f: Frame ::
      WireBytes(f).Ok? && f.channel.Canonical() && ReadWire(WireBytes(f).value).0.Err?
  {
    var f := Frame([0, 0, 0, 0, 0, 0, 0, 0], Video, 0, 0,
                   seq(MAX_FRAME_PAYLOAD_SIZE - FRAME_HEADER_SIZE + 1, i => 0));
    var b := ToBytes(f);
    Widths();
    BigEndianRoundTrip(|b|, 4);
    assert WireBytes(f).value[..4] == BigEndian(|b|, 4);
    assert ReadWire(WireBytes(f).value).0.Err?;
  }

  ghost predicate Readable(f: Frame) {
    f.channel.Canonical() && |f.payload| <= 2 * 1024 * 1024 - 18
  }

  ghost function WireAll(fs: seq<Frame>): seq<Byte>
    requires forall f :: f in fs ==> Readable(f)
  {
    if fs == [] then [] else
      assert Readable(fs[0]);
      WireBytes(fs[0]).value + WireAll(fs[1..])
  }

  /** `n` reads in a row; stops at the first error. */
  function ReadMany(s: seq<Byte>, n: nat): (Result<seq<Frame>>, seq<Byte>)
    decreases n
  {
    if n == 0 then (Ok([]), s)
    else match ReadWire(s)
      case (Err(e), rest) => (Err(e), rest)
      case (Ok(f), rest) =>
        match ReadMany(rest, n - 1)
        case (Ok(fs), rest') => (Ok([f] + fs), rest')
        case (Err(e), rest') => (Err(e), rest')
  }

  lemma ReadableFrame(f: Frame, rest: seq<Byte>)
    requires Readable(f)
    ensures WireBytes(f).Ok? && ReadWire(WireBytes(f).value + rest) == (Ok(f), rest)
  {
    WireRoundTrip(f, rest);
    hide ReadWire, ToBytes;
  }

  lemma WireAllStep(fs: seq<Frame>, rest: seq<Byte>)
    requires fs != [] && forall f :: f in fs ==> Readable(f)
    ensures WireBytes(fs[0]).Ok? && forall f :: f in fs[1..] ==> Readable(f)
    ensures WireAll(fs) + rest == WireBytes(fs[0]).value + (WireAll(fs[1..]) + rest)
  {
    hide WireBytes, Readable, ReadWire;
    assert fs[0] in fs;
    ReadableFrame(fs[0], rest);
    ConcatAssoc(WireBytes(fs[0]).value, WireAll(fs[1..]), rest);
  }

  /** A whole stream of frames is read back frame for frame. */
  lemma {:induction false} WireStreamRoundTrip(fs: seq<Frame>, rest: seq<Byte>)
    requires forall f :: f in fs ==> Readable(f)
    ensures ReadMany(WireAll(fs) + rest, |fs|) == (Ok(fs), rest)
    decreases |fs|
  {
    hide WireBytes, ReadWire, Readable;
    if fs == [] {
      assert WireAll(fs) + rest == rest;
    } else {
      WireAllStep(fs, rest);
      ReadableFrame(fs[0], WireAll(fs[1..]) + rest);
      WireStreamRoundTrip(fs[1..], rest);
      assert [fs[0]] + fs[1..] == fs;
    }
  }

  /** A stream between two peers: what was written and not yet read. */
  class ByteStream {
    var bytes: seq<Byte>

    constructor ()
      ensures bytes == []
    {
      bytes := [];
    }

    method WriteAll(b: seq<Byte>)
      modifies this
      ensures bytes == old(bytes) + b
    {
      bytes := bytes + b;
    }

    /** read_exact: all `n` bytes, or an error that consumes what there was. */
    method ReadExact(n: nat) returns (r: Result<seq<Byte>>)
      modifies this
      ensures n <= |old(bytes)| ==> r == Ok(old(bytes)[..n]) && bytes == old(bytes)[n..]
      ensures n > |old(bytes)| ==> r == Err("unexpected end of stream") && bytes == []
    {
      if |bytes| < n {
        bytes := [];
        return Err("unexpected end of stream");
      }
      r := Ok(bytes[..n]);
      bytes := bytes[n..];
    }
  }

  method WriteFrame(writer: ByteStream, f: Frame) returns (r: Result<()>)
    modifies writer
    ensures match WireBytes(f)
            case Ok(b) => r == Ok(()) && writer.bytes == old(writer.bytes) + b
            case Err(e) => r == Err(e) && writer.bytes == old(writer.bytes)
  {
    hide ToBytes, BigEndian;
    if |f.payload| > MAX_FRAME_PAYLOAD_SIZE {
      return Err("Frame payload too large");
    }
    var bytes := FrameToBytes(f);
    writer.WriteAll(BigEndian(|bytes|, 4));
    writer.WriteAll(bytes);
    ConcatAssoc(old(writer.bytes), BigEndian(|bytes|, 4), bytes);
    r := Ok(());
  }

  method ReadFrame(reader: ByteStream) returns (r: Result<Frame>)
    modifies reader
    ensures (r, reader.bytes) == ReadWire(old(reader.bytes))
  {
    var lenBytes := reader.ReadExact(4);
    if lenBytes.Err? {
      return Err(lenBytes.error);
    }
    var len := FromBigEndian(lenBytes.value);
    if len > MAX_FRAME_PAYLOAD_SIZE {
      return Err("Frame length exceeds maximum");
    }
    if len < FRAME_HEADER_SIZE {
      return Err("Frame length too small for header");
    }
    ghost var s := old(reader.bytes);
    assert len <= |s[4..]| ==> s[4..][..len] == s[4..4 + len] && s[4..][len..] == s[4 + len..];
    var buf := reader.ReadExact(len);
    if buf.Err? {
      return Err(buf.error);
    }
    r := FrameFromBytes(buf.value);
  }
}
