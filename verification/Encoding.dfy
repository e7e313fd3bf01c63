/**
 The wire format as a function from packets to bytes.

 This is the specification that the in-place writes of src/writer.rs are
 proved against, and the inverse that the parser is proved against.
 */
module Encoding {
  import opened Raw
  import opened Wire

  /** The decoded prologue fields fit their bit fields. */
  predicate PrologueFits(p: Prologue) {
    && p.header.sequence <= 15
    && p.header.typeSpecificBits <= 7
    && p.classId.padBitCount <= 31
    && p.classId.oui < 0x100_0000
  }

  /** The header word is joined from the decoded fields; `header.raw` plays no part. */
  function HeaderBits(h: PacketHeader): u32
    requires h.sequence <= 15 && h.typeSpecificBits <= 7
  {
    h.packetType.Raw() * 0x1000_0000 + 0x800_0000 + h.typeSpecificBits * 0x100_0000
    + h.tsi.Raw() * 0x40_0000 + h.tsf.Raw() * 0x10_0000 + h.sequence * 0x1_0000 + h.packetSizeWords
  }

  function ClassWord(c: ClassId): u32 {
    c.informationClass.Raw() * 0x1_0000 + c.packetClass.Raw()
  }

  function PrologueWords(p: Prologue): (ws: seq<u32>)
    requires PrologueFits(p)
    ensures |ws| == 7
  {
    [HeaderBits(p.header)]
    + [p.streamId]
    + [p.classId.padBitCount * 0x800_0000 + p.classId.oui]
    + [ClassWord(p.classId)]
    + [p.integerSecondsTimestamp]
    + [Hi(p.fractionalSecondsTimestamp)] + [Lo(p.fractionalSecondsTimestamp)]
  }

  // ---- the words after the prologue, appended to the words before them ----

  function CommonWords(head: seq<u32>, c: CommandCommon): (ws: seq<u32>)
    ensures |ws| == |head| + 4
  {
    head + [c.cam] + [c.messageId] + [c.controlleeId] + [c.controllerId]
  }

  function SignalContextWords(head: seq<u32>, p: SignalContextPacket): (ws: seq<u32>)
    ensures |ws| == |head| + 20
  {
    head
    + [p.cif0]
    + [p.referencePoint]
    + [Hi(p.bandwidth)] + [Lo(p.bandwidth)]
    + [Hi(U64OfI64(p.ifReferenceFrequency))] + [Lo(U64OfI64(p.ifReferenceFrequency))]
    + [Hi(U64OfI64(p.rfReferenceFrequency))] + [Lo(U64OfI64(p.rfReferenceFrequency))]
    + [Hi(U64OfI64(p.ifBandOffset))] + [Lo(U64OfI64(p.ifBandOffset))]
    + [U16OfI16(p.scalingLevel) * 0x1_0000 + U16OfI16(p.referenceLevel)]
    + [p.gain2 * 0x1_0000 + p.gain1]
    + [Hi(p.sampleRate)] + [Lo(p.sampleRate)]
    + [Hi(U64OfI64(p.timestampAdjustment))] + [Lo(U64OfI64(p.timestampAdjustment))]
    + [p.timestampCalibrationTime]
    + [p.stateAndEventIndicators]
    + [p.payloadFormat.rawWord0]
    + [p.payloadFormat.rawWord1]
  }

  predicate VersionFits(p: VersionContextPacket) {
    p.year <= 0x7F && p.day <= 0x1FF && p.revision <= 0x3F && p.deviceType <= 15
  }

  /** Bit layout: year 7, day 9, revision 6, device type 4, ICD version 6. */
  function VersionWord(p: VersionContextPacket): u32
    requires VersionFits(p)
  {
    p.year * 0x200_0000 + p.day * 0x1_0000 + p.revision * 0x400 + p.deviceType * 64 + p.icdVersion.Raw()
  }

  function VersionContextWords(head: seq<u32>, p: VersionContextPacket): (ws: seq<u32>)
    requires VersionFits(p)
    ensures |ws| == |head| + 4
  {
    head + [p.cif0] + [p.cif1] + [p.vita49SpecVersion] + [VersionWord(p)]
  }

  function TimingFlowControlWords(head: seq<u32>, p: TimingFlowControlPacket): (ws: seq<u32>)
    ensures |ws| == |head| + 14
  {
    CommonWords(head, p.common)
    + [p.cif0]
    + [p.cif1]
    + [p.referencePoint]
    + [Hi(p.sampleRate)] + [Lo(p.sampleRate)]
    + [Hi(U64OfI64(p.timestampAdjustment))] + [Lo(U64OfI64(p.timestampAdjustment))]
    + [Hi(p.bufferSizeBytes)] + [Lo(p.bufferSizeBytes)]
    + [p.bufferStatus.raw]
  }

  predicate QueryFits(p: SinkCapabilitiesQueryPacket) {
    match p.form
    case Long => p.cif1.Some?
    case Short => p.sinkTimeCalibrationInteger.Some? && p.sinkTimeCalibrationFractional.Some?
  }

  function QueryWords(head: seq<u32>, p: SinkCapabilitiesQueryPacket): (ws: seq<u32>)
    requires QueryFits(p)
    ensures |ws| == |head| + if p.form.Long? then 6 else 8
  {
    match p.form
    case Long => CommonWords(head, p.common) + [p.cif0] + [p.cif1.value]
    case Short =>
      CommonWords(head, p.common) + [p.cif0]
      + [p.sinkTimeCalibrationInteger.value]
      + [Hi(p.sinkTimeCalibrationFractional.value)] + [Lo(p.sinkTimeCalibrationFractional.value)]
  }

  predicate ResponseFits(p: SinkCapabilitiesResponsePacket) {
    match p.form
    case Long => p.cif1.Some?
    case Short =>
      && p.controlPacketIntegerTimestamp.Some? && p.controlPacketFractionalTimestamp.Some?
      && p.sinkReceptionIntegerTimestamp.Some? && p.sinkReceptionFractionalTimestamp.Some?
  }

  /** The words of a response; a long response is followed by its capability table. */
  function ResponseWords(head: seq<u32>, p: SinkCapabilitiesResponsePacket): (ws: seq<u32>)
    requires ResponseFits(p)
    ensures |ws| == |head| + if p.form.Long? then 6 else 11
  {
    match p.form
    case Long => CommonWords(head, p.common) + [p.cif0] + [p.cif1.value]
    case Short =>
      CommonWords(head, p.common) + [p.cif0]
      + [p.controlPacketIntegerTimestamp.value]
      + [Hi(p.controlPacketFractionalTimestamp.value)] + [Lo(p.controlPacketFractionalTimestamp.value)]
      + [p.sinkReceptionIntegerTimestamp.value]
      + [Hi(p.sinkReceptionFractionalTimestamp.value)] + [Lo(p.sinkReceptionFractionalTimestamp.value)]
  }

  predicate StatusFits(p: StatusReportPacket) {
    && (p.sampleRateLimit.Some? ==> p.referenceLevelLimit.Some?)
    && (p.bandwidthLimit.Some? <==> p.sampleRateLimit.Some?)
  }

  function StatusSize(p: StatusReportPacket): nat {
    if p.referenceLevelLimit.None? then 15 else if p.sampleRateLimit.None? then 17 else 21
  }

  function ReportHeadWords(head: seq<u32>, p: StatusReportPacket): (ws: seq<u32>)
    ensures |ws| == |head| + 8
  {
    CommonWords(head, p.common) + [p.cif0] + [p.cif1] + [p.packetErrors] + [p.sinkErrorsWarnings]
  }

  function ReportWords(head: seq<u32>, p: StatusReportPacket): (ws: seq<u32>)
    requires StatusFits(p)
    ensures |ws| == |head| + StatusSize(p) - 7
  {
    var ws := ReportHeadWords(head, p);
    if p.referenceLevelLimit.None? then ws else
    var ws := ws + [p.referenceLevelLimit.value.rawMinMax] + [p.referenceLevelLimit.value.rawResolutionReserved];
    if p.sampleRateLimit.None? then ws else
    ws + [Hi(p.sampleRateLimit.value)] + [Lo(p.sampleRateLimit.value)]
    + [Hi(p.bandwidthLimit.value)] + [Lo(p.bandwidthLimit.value)]
  }

  /** Everything the writer's emission steps need of a packet. */
  predicate Fits(p: Packet) {
    && PrologueFits(p.Prologue())
    && match p
       case VersionContext(v) => VersionFits(v)
       case SinkCapabilitiesQuery(q) => QueryFits(q)
       case SinkCapabilitiesResponse(r) => ResponseFits(r)
       case StatusReport(s) => StatusFits(s)
       case _ => true
  }

  /** The fixed-layout words of a packet. */
  function PacketWords(p: Packet): (ws: seq<u32>)
    requires Fits(p)
    ensures |ws| == WordCount(p)
  {
    var head := PrologueWords(p.Prologue());
    match p
    case SignalData(_) => head
    case SignalContext(c) => SignalContextWords(head, c)
    case VersionContext(v) => VersionContextWords(head, v)
    case TimingFlowControl(t) => TimingFlowControlWords(head, t)
    case SinkCapabilitiesQuery(q) => QueryWords(head, q)
    case SinkCapabilitiesResponse(r) => ResponseWords(head, r)
    case StatusReport(s) => ReportWords(head, s)
  }

  /** The borrowed bytes that follow them. */
  function Tail(p: Packet): seq<u8> {
    match p
    case SignalData(d) => d.payload
    case SinkCapabilitiesResponse(r) => if r.form.Long? then r.capabilityTable else []
    case _ => []
  }

  function WordCount(p: Packet): nat {
    match p
    case SignalData(_) => 7
    case SignalContext(_) => 27
    case VersionContext(_) => 11
    case TimingFlowControl(_) => 21
    case SinkCapabilitiesQuery(q) => if q.form.Long? then 13 else 15
    case SinkCapabilitiesResponse(r) => if r.form.Long? then 13 else 18
    case StatusReport(s) => StatusSize(s)
  }

  /** The bytes of a packet on the wire. */
  function Encode(p: Packet): (b: seq<u8>)
    requires Fits(p)
    ensures |b| == 4 * WordCount(p) + |Tail(p)|
  {
    BytesOf(PacketWords(p)) + Tail(p)
  }
}
