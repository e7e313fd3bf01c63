/** Sequence tracking by packet type, packet class and stream (src/sequence.rs). */
module Sequence {
  import opened Wrappers
  import opened Raw
  import opened Wire

  datatype SequenceKey = SequenceKey(packetType: PacketType, packetClass: PacketClassCode, streamId: u32)

  datatype SequenceStatus = First | InOrder | Duplicate | Gap(expected: u8, actual: u8)

  /** The last observed sequence number of each key. */
  type Seen = map<SequenceKey, u8>

  /** `x & 0x0F` */
  function Nibble(x: int): (r: u8)
    ensures r < 16
  {
    x % 16
  }

  predicate AllNibbles(seen: Seen) {
    forall k | k in seen :: seen[k] < 16
  }

  function Lookup(seen: Seen, key: SequenceKey): Option<u8> {
    if key in seen then Some(seen[key]) else None
  }

  /** The status of a sequence number after the one seen before it. */
  function StatusAfter(previous: Option<u8>, sequence: u8): SequenceStatus {
    match previous
    case None => First
    case Some(p) =>
      if sequence == p then Duplicate
      else if sequence == Nibble(p + 1) then InOrder
      else Gap(Nibble(p + 1), sequence)
  }

  function KeyOf(p: Packet): SequenceKey {
    SequenceKey(p.Prologue().header.packetType, p.Prologue().classId.packetClass, p.Prologue().streamId)
  }

  /** Two packets share a sequence counter: same packet type, same packet class, same stream. */
  predicate SameStream(p: Packet, q: Packet) {
    && p.Prologue().header.packetType == q.Prologue().header.packetType
    && p.Prologue().classId.packetClass == q.Prologue().classId.packetClass
    && p.Prologue().streamId == q.Prologue().streamId
  }

  /** The status of a sequence number after an earlier one, as numbers modulo 16. */
  predicate Settled(status: SequenceStatus, previous: int, sequence: int) {
    match status
    case First => false
    case InOrder => sequence % 16 == (previous + 1) % 16
    case Duplicate => sequence % 16 == previous % 16
    case Gap(expected, actual) =>
      && expected == (previous + 1) % 16 && actual == sequence % 16
      && actual != expected && actual != previous % 16
  }

  /** The packet counts under this key. */
  predicate HasKey(p: Packet, key: SequenceKey) {
    && p.Prologue().header.packetType == key.packetType
    && p.Prologue().classId.packetClass == key.packetClass
    && p.Prologue().streamId == key.streamId
  }

  lemma SettledModulo(status: SequenceStatus, previous: int, sequence: int)
    ensures Settled(status, Nibble(previous), sequence) <==> Settled(status, previous, sequence)
  {
    assert (Nibble(previous) + 1) % 16 == (previous + 1) % 16;
  }

  lemma StatusIsSettled(previous: u8, sequence: int)
    requires previous < 16
    ensures Settled(StatusAfter(Some(previous), Nibble(sequence)), previous, sequence)
    ensures forall s | Settled(s, previous, sequence) :: s == StatusAfter(Some(previous), Nibble(sequence))
  {
  }

  /** The state and the status after observing a number under a key. */
  predicate Observed(before: Seen, after: Seen, status: SequenceStatus, key: SequenceKey, sequence: u8) {
    && after == before[key := sequence % 16]
    && (key !in before ==> status == First)
    && (key in before ==> Settled(status, before[key], sequence))
  }

  class SequenceTracker {
    var lastSeen: map<SequenceKey, u8>

    ghost predicate Valid()
      reads this
    {
      AllNibbles(lastSeen)
    }

    constructor ()
      ensures Valid() && lastSeen == map[]
    {
      lastSeen := map[];
    }

    method Observe(packet: Packet) returns (status: SequenceStatus)
      requires Valid()
      modifies this
      ensures Valid()
      ensures var p := packet.Prologue();
              Observed(old(lastSeen), lastSeen, status,
                       SequenceKey(p.header.packetType, p.classId.packetClass, p.streamId), p.header.sequence)
      ensures lastSeen == old(lastSeen)[KeyOf(packet) := Nibble(packet.Prologue().header.sequence)]
      ensures status == StatusAfter(Lookup(old(lastSeen), KeyOf(packet)), Nibble(packet.Prologue().header.sequence))
    {
      var prologue := packet.Prologue();
      status := ObserveFields(prologue.header.packetType, prologue.classId.packetClass, prologue.streamId,
                              prologue.header.sequence);
    }

    method ObserveFields(packetType: PacketType, packetClass: PacketClassCode, streamId: u32, sequence: u8)
      returns (status: SequenceStatus)
      requires Valid()
      modifies this
      ensures Valid()
      ensures Observed(old(lastSeen), lastSeen, status, SequenceKey(packetType, packetClass, streamId), sequence)
      ensures var key := SequenceKey(packetType, packetClass, streamId);
              && lastSeen == old(lastSeen)[key := Nibble(sequence)]
              && status == StatusAfter(Lookup(old(lastSeen), key), Nibble(sequence))
    {
      var nibble := Nibble(sequence);
      var key := SequenceKey(packetType, packetClass, streamId);
      var inserted := Lookup(lastSeen, key);
      lastSeen := lastSeen[key := nibble];
      match inserted {
        case None => status := First;
        case Some(previous) =>
          if previous == nibble {
            status := Duplicate;
          } else {
            var increment: u8 := previous + 1;
            var expected := Nibble(increment);
            status := if expected == nibble then InOrder else Gap(expected, nibble);
          }
      }
    }

    method Reset()
      modifies this
      ensures Valid() && lastSeen == map[]
    {
      lastSeen := map[];
    }
  }
}
