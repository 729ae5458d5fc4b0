/** The shared frame types (crates/kodama/src/frame.rs). */
module Frames {
  import opened Bytes

  /** The first eight bytes of a node id. */
  type SourceId = s: seq<Byte> | |s| == 8 witness [0, 0, 0, 0, 0, 0, 0, 0]

  datatype Channel = Video | Audio | Telemetry | Unknown(v: Byte) {
    function AsU8(): Byte {
      match this
      case Video => 0
      case Audio => 1
      case Telemetry => 2
      case Unknown(v) => v
    }

    /** The channels that decoding can produce: `Unknown` never hides a known type. */
    predicate Canonical() {
      Unknown? ==> v > 2
    }
  }

  function ChannelFrom(v: Byte): Channel {
    match v
    case 0 => Video
    case 1 => Audio
    case 2 => Telemetry
    case _ => Unknown(v)
  }

  datatype Frame = Frame(source: SourceId, channel: Channel, flags: Byte, timestampUs: U64, payload: seq<Byte>) {
    /** Bit 0 of the flags. */
    predicate IsKeyframe() {
      flags % 2 == 1
    }
  }

  const FRAME_HEADER_SIZE: nat := 18
  const MAX_FRAME_PAYLOAD_SIZE: nat := 2 * 1024 * 1024

  lemma ChannelByteRoundTrip(c: Channel)
    ensures ChannelFrom(c.AsU8()) == c <==> c.Canonical()
    ensures ChannelFrom(c.AsU8()).Canonical()
    ensures ChannelFrom(c.AsU8()).AsU8() == c.AsU8()
  {
  }
}
