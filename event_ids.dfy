/** Tigerbeetle event ids: a CTF event id is unique only within its stream,
    so the stream id is packed above the low 20 bits of the event id. */
module EventIds {

  const EVENT_BITS: bv32 := 20
  const EVENT_MASK32: bv32 := 0xf_ffff
  const EVENT_MASK64: bv64 := 0xf_ffff

  /** Truncation of a 64-bit unsigned value to 32 bits (a static_cast). */
  function Truncate32(x: bv64): (r: bv32)
    ensures r as bv64 == x & 0xffff_ffff
  {
    (x & 0xffff_ffff) as bv32
  }

  /** Truncation keeps a value that fits 32 bits, and its bounds. */
  lemma Truncate32Small(x: bv64)
    requires x < 0x1_0000_0000
    ensures Truncate32(x) as bv64 == x
    ensures Truncate32(x) < 0x1000 <==> x < 0x1000
    ensures Truncate32(x) < 0x10_0000 <==> x < 0x10_0000
  {
  }

  /** Truncation is injective on values that fit 32 bits. */
  lemma Truncate32Injective(x: bv64, y: bv64)
    requires x < 0x1_0000_0000 && y < 0x1_0000_0000 && Truncate32(x) == Truncate32(y)
    ensures x == y
  {
    Truncate32Small(x);
    Truncate32Small(y);
  }

  /** The packing setPrivateEvent does after casting both ids to
      std::uint32_t: `(streamId << 20) | (eventId & 0xfffff)` in 32 bits. */
  function PackEventId32(streamId: bv32, eventId: bv32): (r: bv32)
    ensures r & EVENT_MASK32 == eventId & EVENT_MASK32
    ensures r >> EVENT_BITS == streamId & 0xfff
  {
    (streamId << EVENT_BITS) | (eventId & EVENT_MASK32)
  }

  /** tibeeEventIdFromCtf: the same expression on 64-bit operands, then cast
      to the 32-bit event_id_t. */
  function EventIdFromCtf(streamId: bv64, eventId: bv64): (r: bv32)
    ensures r & EVENT_MASK32 == Truncate32(eventId) & EVENT_MASK32
    ensures r >> EVENT_BITS == Truncate32(streamId) & 0xfff
  {
    Truncate32((streamId << 20) | (eventId & EVENT_MASK64))
  }

  /** Bits 20 and above do not depend on the event id: its high bits are
      discarded. */
  lemma PackHighBitsFromStream(streamId: bv32, eventId: bv32, otherEventId: bv32)
    ensures PackEventId32(streamId, eventId) >> EVENT_BITS == PackEventId32(streamId, otherEventId) >> EVENT_BITS
  {
  }

  /** Round trip: with an event id below 2^20 and a stream id below 2^12
      both are recovered from the packed id. */
  lemma PackRoundTrip(streamId: bv32, eventId: bv32)
    requires eventId < 0x10_0000 && streamId < 0x1000
    ensures PackEventId32(streamId, eventId) >> EVENT_BITS == streamId
    ensures PackEventId32(streamId, eventId) & EVENT_MASK32 == eventId
  {
  }

  /** Hence the packing is injective on that range. */
  lemma PackInjective(s1: bv32, e1: bv32, s2: bv32, e2: bv32)
    requires e1 < 0x10_0000 && s1 < 0x1000 && e2 < 0x10_0000 && s2 < 0x1000
    requires PackEventId32(s1, e1) == PackEventId32(s2, e2)
    ensures s1 == s2 && e1 == e2
  {
    PackRoundTrip(s1, e1);
    PackRoundTrip(s2, e2);
  }

  /** The two places that build event ids agree: packing in 64 bits and then
      truncating gives what packing the truncated ids in 32 bits gives. */
  lemma EventIdFromCtfAgreesWithEvent(streamId: bv64, eventId: bv64)
    ensures EventIdFromCtf(streamId, eventId) == PackEventId32(Truncate32(streamId), Truncate32(eventId))
  {
    var r := EventIdFromCtf(streamId, eventId);
    var p := PackEventId32(Truncate32(streamId), Truncate32(eventId));
    assert r as bv64 == p as bv64;
  }
}
