/** The relay packet sent to the smartphone: two unsigned bytes, heart rate first,
    then the low byte of the last integer received over UART. */
module Packet {
  import opened Bytes
  import opened Wrappers

  /** The fixed length of the relay packet on the wire. */
  const PACKET_LENGTH: nat := 2

  /** The two readings a packet carries, as the smartphone sees them. */
  datatype Reading = Reading(bpm: byte, value: byte)

  /** Serialises a heart-rate byte and an integer into the `uint8_t data[2]` buffer. */
  function Encode(bpm: byte, value: int): (p: seq<byte>)
    ensures |p| == PACKET_LENGTH
    ensures p[0] == bpm
    ensures p[1] == ToByte(value)
  {
    [bpm, ToByte(value)]
  }

  /** What a receiver reads back from a packet; anything not exactly two bytes long is rejected. */
  function Decode(p: seq<byte>): (r: Option<Reading>)
    ensures r.Some? <==> |p| == PACKET_LENGTH
  {
    if |p| == PACKET_LENGTH then Some(Reading(p[0], p[1])) else None
  }

  /** Decoding an encoded packet yields the heart rate and the truncated integer. */
  lemma DecodeEncode(bpm: byte, value: int)
    ensures Decode(Encode(bpm, value)) == Some(Reading(bpm, ToByte(value)))
  {
  }

  /** Every packet a receiver accepts is the encoding of what it decoded. */
  lemma EncodeDecode(p: seq<byte>)
    requires Decode(p).Some?
    ensures Encode(Decode(p).value.bpm, Decode(p).value.value) == p
  {
  }
}
