/** What a successful `PreparePacket` guarantees. */
module Prepared {
  import opened Wire
  import opened Standard
  import opened Encoding
  import W = Writer

  /**
   A prepared packet fits the wire layout, its header word and size are those of
   its encoding, and the plan is the one its header shows.
   */
  lemma PreparedFits(p: Packet, options: WriteOptions)
    requires W.PreparePacket(p, options).Ok?
    ensures Fits(p)
    ensures var plan := W.PreparePacket(p, options).value;
            var h := p.Prologue().header;
            && plan == W.WritePlan(h.packetType, h.typeSpecificBits, h.packetSizeWords)
            && |Encode(p)| == 4 * plan.packetSizeWords
            && h.raw == HeaderBits(h)
  {
    var plan := W.PreparePacket(p, options).value;
    PreparedPrologue(p.Prologue(), plan, options);
    match p
    case SignalData(_) =>
    case SignalContext(_) =>
    case VersionContext(_) =>
    case TimingFlowControl(_) =>
    case SinkCapabilitiesQuery(_) =>
    case SinkCapabilitiesResponse(_) =>
    case StatusReport(_) =>
  }

  lemma PreparedPrologue(p: Prologue, plan: W.WritePlan, options: WriteOptions)
    requires W.ValidatePrologue(p, plan, options).Ok?
    ensures PrologueFits(p)
    ensures p.classId.oui == DIFI_CID && p.header.classIdIndicator
    ensures plan == W.WritePlan(p.header.packetType, p.header.typeSpecificBits, p.header.packetSizeWords)
    ensures p.header.raw == HeaderBits(p.header)
    ensures p.header.tsm == TsmOf(p.header.packetType, p.header.typeSpecificBits)
    ensures StandardProfile(options).ValidateHeaderAndClass(p.header, p.classId).Ok?
  {
  }
}
