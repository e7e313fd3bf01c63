/** One packet per datagram, with sequence status (src/packet_stream.rs). */
module PacketStream {
  import opened Wrappers
  import opened Raw
  import opened Wire
  import opened Sequence
  import P = Parser

  datatype ParsedDatagram = ParsedDatagram(packet: Packet, sequenceStatus: SequenceStatus)

  type Outcome = Result<ParsedDatagram, ParseError>

  /** The answer to a datagram in a state, and the state after it. */
  function Step(seen: Seen, datagram: seq<u8>, options: ParseOptions): (Outcome, Seen) {
    match P.ParseExact(datagram, options)
    case Err(e) => (Err(e), seen)
    case Ok(p) =>
      var sequence := Nibble(p.Prologue().header.sequence);
      (Ok(ParsedDatagram(p, StatusAfter(Lookup(seen, KeyOf(p)), sequence))), seen[KeyOf(p) := sequence])
  }

  class PacketStreamParser {
    const options: ParseOptions
    const sequences: SequenceTracker

    ghost predicate Valid()
      reads this, sequences
    {
      sequences.Valid()
    }

    constructor WithOptions(options: ParseOptions)
      ensures Valid() && fresh(sequences)
      ensures this.options == options && sequences.lastSeen == map[]
    {
      this.options := options;
      sequences := new SequenceTracker();
    }

    method ParseDatagram(datagram: seq<u8>) returns (r: Outcome)
      requires Valid()
      modifies sequences
      ensures Valid()
      ensures r.Err? ==>
                P.ParseExact(datagram, options) == Err(r.error) && sequences.lastSeen == old(sequences.lastSeen)
      ensures r.Ok? ==>
                && P.ParseExact(datagram, options) == Ok(r.value.packet)
                && var p := r.value.packet.Prologue();
                   Observed(old(sequences.lastSeen), sequences.lastSeen, r.value.sequenceStatus,
                            SequenceKey(p.header.packetType, p.classId.packetClass, p.streamId), p.header.sequence)
      ensures (r, sequences.lastSeen) == Step(old(sequences.lastSeen), datagram, options)
    {
      var packet :- P.ParseExact(datagram, options);
      var status := sequences.Observe(packet);
      return Ok(ParsedDatagram(packet, status));
    }

    method ResetSequences()
      modifies sequences
      ensures Valid() && sequences.lastSeen == map[]
    {
      sequences.Reset();
    }
  }
}
