/** What an accepted packet's decoded fields are, as numbers read from its words. */
module Fields {
  import opened Wrappers
  import opened Raw
  import opened Wire
  import opened Standard
  import opened RoundTrip
  import opened RoundTripPrologue
  import P = Parser

  /** Two words as one number. */
  function DoubleWord(b: seq<u8>, k: nat): u64
    requires 4 * k + 8 <= |b|
  {
    WordAt(b, k) * 0x1_0000_0000 + WordAt(b, k + 1)
  }

  predicate PrologueFields(b: seq<u8>, p: Prologue)
    requires |b| >= 28
  {
    var w0, h := WordAt(b, 0), p.header;
    && h.raw == w0
    && h.packetType.Raw() == w0 / 0x1000_0000
    && h.classIdIndicator && w0 / 0x800_0000 % 2 == 1
    && h.typeSpecificBits == w0 / 0x100_0000 % 8
    && (h.tsm.Some? <==> h.packetType.Raw() == 4 || h.packetType.Raw() == 5)
    && (h.tsm.Some? ==> (h.tsm.value.Coarse? <==> w0 / 0x100_0000 % 2 == 1))
    && h.tsi.Raw() == w0 / 0x40_0000 % 4
    && h.tsf.Raw() == w0 / 0x10_0000 % 4
    && h.sequence == w0 / 0x1_0000 % 16
    && h.packetSizeWords == w0 % 0x1_0000
    && p.streamId == WordAt(b, 1)
    && p.classId.padBitCount == WordAt(b, 2) / 0x800_0000
    && p.classId.oui == 0x6A_621E == WordAt(b, 2) % 0x800_0000
    && p.classId.informationClass.Raw() == WordAt(b, 3) / 0x1_0000
    && p.classId.packetClass.Raw() == WordAt(b, 3) % 0x1_0000
    && p.integerSecondsTimestamp == WordAt(b, 4)
    && p.fractionalSecondsTimestamp == DoubleWord(b, 5)
  }

  predicate CommonFields(b: seq<u8>, c: CommandCommon)
    requires |b| >= 44
  {
    && c.cam == WordAt(b, 7)
    && c.messageId == WordAt(b, 8)
    && c.controlleeId == WordAt(b, 9)
    && c.controllerId == WordAt(b, 10)
  }

  /** Signed fields are congruent to the number that their bits spell. */
  predicate SignalContextFields(b: seq<u8>, c: SignalContextPacket)
    requires |b| >= 108
  {
    && c.cif0 == WordAt(b, 7)
    && (c.contextChanged <==> WordAt(b, 7) >= 0x8000_0000)
    && c.referencePoint == WordAt(b, 8)
    && c.bandwidth == DoubleWord(b, 9)
    && c.ifReferenceFrequency % 0x1_0000_0000_0000_0000 == DoubleWord(b, 11)
    && c.rfReferenceFrequency % 0x1_0000_0000_0000_0000 == DoubleWord(b, 13)
    && c.ifBandOffset % 0x1_0000_0000_0000_0000 == DoubleWord(b, 15)
    && c.scalingLevel % 0x1_0000 == WordAt(b, 17) / 0x1_0000
    && c.referenceLevel % 0x1_0000 == WordAt(b, 17) % 0x1_0000
    && c.gain2 == WordAt(b, 18) / 0x1_0000
    && c.gain1 == WordAt(b, 18) % 0x1_0000
    && c.sampleRate == DoubleWord(b, 19)
    && c.timestampAdjustment % 0x1_0000_0000_0000_0000 == DoubleWord(b, 21)
    && c.timestampCalibrationTime == WordAt(b, 23)
    && c.stateAndEventIndicators == WordAt(b, 24)
    && c.payloadFormat.rawWord0 == WordAt(b, 25)
    && c.payloadFormat.rawWord1 == WordAt(b, 26)
    && c.payloadFormat.dataItemSizeBits == WordAt(b, 25) % 64 + 1
    && c.payloadFormat.itemPackingFieldSizeBits == WordAt(b, 25) / 64 % 64 + 1
  }

  predicate VersionContextFields(b: seq<u8>, v: VersionContextPacket)
    requires |b| >= 44
  {
    && v.cif0 == WordAt(b, 7)
    && (v.contextChanged <==> WordAt(b, 7) >= 0x8000_0000)
    && v.cif1 == WordAt(b, 8)
    && v.vita49SpecVersion == WordAt(b, 9)
    && v.year == WordAt(b, 10) / 0x200_0000
    && v.day == WordAt(b, 10) / 0x1_0000 % 0x200
    && v.revision == WordAt(b, 10) / 0x400 % 64
    && v.deviceType == 0
  }

  predicate TimingFlowControlFields(b: seq<u8>, t: TimingFlowControlPacket)
    requires |b| >= 84
  {
    var status := WordAt(b, 20);
    && CommonFields(b, t.common)
    && t.cif0 == WordAt(b, 11)
    && t.cif1 == WordAt(b, 12)
    && t.referencePoint == WordAt(b, 13)
    && t.sampleRate == DoubleWord(b, 14)
    && t.timestampAdjustment % 0x1_0000_0000_0000_0000 == DoubleWord(b, 16)
    && t.bufferSizeBytes == DoubleWord(b, 18)
    && t.bufferStatus.raw == status
    && t.bufferStatus.bufferLevel == status / 16
    && (t.bufferStatus.overflow <==> status % 16 >= 8)
    && (t.bufferStatus.nearlyFull <==> status % 16 % 8 >= 4)
    && (t.bufferStatus.nearlyEmpty <==> status % 16 % 4 >= 2)
    && (t.bufferStatus.underflow <==> status % 16 % 2 == 1)
  }

  /** The top bit of CIF0 marks the short form. */
  predicate QueryFields(b: seq<u8>, q: SinkCapabilitiesQueryPacket)
    requires |b| >= 52
  {
    && CommonFields(b, q.common)
    && q.cif0 == WordAt(b, 11)
    && (q.form.Short? <==> WordAt(b, 11) >= 0x8000_0000)
    && (q.form.Short? ==>
          && |b| >= 60 && q.cif1 == None
          && q.sinkTimeCalibrationInteger == Some(WordAt(b, 12))
          && q.sinkTimeCalibrationFractional == Some(DoubleWord(b, 13)))
    && (q.form.Long? ==>
          && q.cif1 == Some(WordAt(b, 12))
          && q.sinkTimeCalibrationInteger == None && q.sinkTimeCalibrationFractional == None)
  }

  predicate ResponseFields(b: seq<u8>, r: SinkCapabilitiesResponsePacket)
    requires |b| >= 56
  {
    && CommonFields(b, r.common)
    && r.cif0 == WordAt(b, 11)
    && (r.form.Short? <==> WordAt(b, 11) >= 0x8000_0000)
    && (r.form.Short? ==>
          && |b| >= 72 && r.cif1 == None && r.capabilityTable == []
          && r.controlPacketIntegerTimestamp == Some(WordAt(b, 12))
          && r.controlPacketFractionalTimestamp == Some(DoubleWord(b, 13))
          && r.sinkReceptionIntegerTimestamp == Some(WordAt(b, 15))
          && r.sinkReceptionFractionalTimestamp == Some(DoubleWord(b, 16)))
    && (r.form.Long? ==>
          && r.cif1 == Some(WordAt(b, 12)) && r.capabilityTable == b[52..]
          && r.controlPacketIntegerTimestamp == None && r.controlPacketFractionalTimestamp == None
          && r.sinkReceptionIntegerTimestamp == None && r.sinkReceptionFractionalTimestamp == None)
  }

  predicate StatusFields(b: seq<u8>, s: StatusReportPacket)
    requires |b| >= 60
  {
    && CommonFields(b, s.common)
    && s.cif0 == WordAt(b, 11)
    && s.cif1 == WordAt(b, 12)
    && s.packetErrors == WordAt(b, 13)
    && s.sinkErrorsWarnings == WordAt(b, 14)
    && s.referenceLevelLimit ==
       (if |b| >= 68 then Some(ReferenceLevelLimit(WordAt(b, 15), WordAt(b, 16))) else None)
    && s.sampleRateLimit == (if |b| >= 84 then Some(DoubleWord(b, 17)) else None)
    && s.bandwidthLimit == (if |b| >= 84 then Some(DoubleWord(b, 19)) else None)
  }

  /** The packet class code names the variant, and the variant's fields are read from their words. */
  predicate BodyFields(b: seq<u8>, p: Packet)
    requires |b| >= 28
  {
    var classCode := WordAt(b, 3) % 0x1_0000;
    match p
    case SignalData(d) => (classCode == 0 || classCode == 2) && d.payload == b[28..]
    case SignalContext(c) => (classCode == 1 || classCode == 3) && |b| == 108 && SignalContextFields(b, c)
    case VersionContext(v) => classCode == 4 && |b| == 44 && VersionContextFields(b, v)
    case TimingFlowControl(t) => (classCode == 5 || classCode == 6) && |b| == 84 && TimingFlowControlFields(b, t)
    case SinkCapabilitiesQuery(q) => classCode == 7 && |b| >= 52 && QueryFields(b, q)
    case SinkCapabilitiesResponse(r) => classCode == 8 && |b| >= 56 && ResponseFields(b, r)
    case StatusReport(s) => classCode == 9 && |b| >= 60 && StatusFields(b, s)
  }

  lemma SignedImages(b: seq<u8>, k: nat)
    requires 4 * k + 8 <= |b|
    ensures I64OfU64(FromHiLo(WordAt(b, k), WordAt(b, k + 1))) % 0x1_0000_0000_0000_0000 == DoubleWord(b, k)
    ensures FromHiLo(WordAt(b, k), WordAt(b, k + 1)) == DoubleWord(b, k)
  {
    hide WordAt;
  }

  lemma HalfImage(v: u16)
    ensures I16OfU16(v) % 0x1_0000 == v
  {
  }

  lemma SignalContextReads(b: seq<u8>, prologue: Prologue, profile: StandardProfile)
    requires |b| == 4 * prologue.header.packetSizeWords
    requires P.ParseSignalContext(b, prologue, profile).Ok?
    ensures |b| == 108 && SignalContextFields(b, P.ParseSignalContext(b, prologue, profile).value)
  {
    hide WordAt, FromHiLo, I64OfU64, U64OfI64, I16OfU16, DoubleWord;
    SignedImages(b, 9);
    SignedImages(b, 11);
    SignedImages(b, 13);
    SignedImages(b, 15);
    SignedImages(b, 19);
    SignedImages(b, 21);
    HalfImage(WordAt(b, 17) / 0x1_0000);
    HalfImage(WordAt(b, 17) % 0x1_0000);
  }

  lemma TimingFlowControlReads(b: seq<u8>, prologue: Prologue, profile: StandardProfile)
    requires |b| == 4 * prologue.header.packetSizeWords
    requires P.ParseTimingFlowControl(b, prologue, profile).Ok?
    ensures |b| == 84 && TimingFlowControlFields(b, P.ParseTimingFlowControl(b, prologue, profile).value)
  {
    hide WordAt, FromHiLo, I64OfU64, DoubleWord;
    SignedImages(b, 14);
    SignedImages(b, 16);
    SignedImages(b, 18);
    StatusBits(WordAt(b, 20));
  }

  lemma StatusBits(w: u32)
    requires w < 0x1_0000
    ensures var s := P.DecodeBufferStatus(w);
            && s.raw == w && s.bufferLevel == w / 16
            && (s.overflow <==> w % 16 >= 8) && (s.nearlyFull <==> w % 16 % 8 >= 4)
            && (s.nearlyEmpty <==> w % 16 % 4 >= 2) && (s.underflow <==> w % 16 % 2 == 1)
  {
    NibbleFlags(w % 16);
    assert w / 16 < 0x1000;
  }

  lemma NibbleFlags(f: int)
    requires 0 <= f < 16
    ensures (f / 8 % 2 == 1 <==> f >= 8) && (f / 4 % 2 == 1 <==> f % 8 >= 4) && (f / 2 % 2 == 1 <==> f % 4 >= 2)
  {
  }

  lemma SinkCapabilitiesReads(b: seq<u8>, prologue: Prologue, profile: StandardProfile)
    requires |b| == 4 * prologue.header.packetSizeWords
    ensures P.ParseSinkCapabilitiesQuery(b, prologue, profile).Ok? ==>
              |b| >= 52 && QueryFields(b, P.ParseSinkCapabilitiesQuery(b, prologue, profile).value)
    ensures P.ParseSinkCapabilitiesResponse(b, prologue, profile).Ok? ==>
              |b| >= 56 && ResponseFields(b, P.ParseSinkCapabilitiesResponse(b, prologue, profile).value)
  {
    hide WordAt;
  }

  lemma StatusReads(b: seq<u8>, prologue: Prologue, profile: StandardProfile)
    requires |b| == 4 * prologue.header.packetSizeWords
    requires P.ParseStatusReport(b, prologue, profile).Ok?
    ensures |b| >= 60 && StatusFields(b, P.ParseStatusReport(b, prologue, profile).value)
  {
    hide WordAt;
  }

  lemma BodyReads(b: seq<u8>, prologue: Prologue, profile: StandardProfile)
    requires 28 <= |b| == 4 * prologue.header.packetSizeWords
    requires prologue.classId.packetClass.Raw() == WordAt(b, 3) % 0x1_0000
    requires P.ParseBody(b, prologue, profile).Ok?
    ensures BodyFields(b, P.ParseBody(b, prologue, profile).value)
    ensures P.ParseBody(b, prologue, profile).value.Prologue() == prologue
  {
    hide WordAt, SignalContextFields, TimingFlowControlFields, QueryFields, ResponseFields, StatusFields,
      P.ValidateDataPadding, ParsePayloadFormat, P.DecodeBufferStatus, FromHiLo, I64OfU64, I16OfU16;
    match prologue.classId.packetClass
    case StandardFlowSignalContext | SampleCountSignalContext => SignalContextReads(b, prologue, profile);
    case SampleCountTimingFlowControl | RealTimeTimingFlowControl => TimingFlowControlReads(b, prologue, profile);
    case SinkCapabilitiesQueryClass | SinkCapabilitiesResponseClass => SinkCapabilitiesReads(b, prologue, profile);
    case StatusReportClass => StatusReads(b, prologue, profile);
    case _ =>
  }

  lemma PrologueReads(b: seq<u8>, profile: StandardProfile)
    requires |b| >= 28 && P.ParsePrologue(b, profile).Ok?
    ensures PrologueFields(b, P.ParsePrologue(b, profile).value)
  {
    hide WordAt, ParseClassId, StandardProfile.ValidateHeaderAndClass;
    ClassWords(WordAt(b, 2), WordAt(b, 3));
    CoarseBit(WordAt(b, 0) / 0x100_0000);
  }

  lemma CoarseBit(x: nat)
    ensures x % 8 % 2 == x % 2
  {
  }

  /** Every field of an accepted packet is the number at its place in the input. */
  lemma AcceptedFields(b: seq<u8>, options: ParseOptions)
    requires P.ParseExact(b, options).Ok?
    ensures |b| >= 28
    ensures var p := P.ParseExact(b, options).value;
            PrologueFields(b, p.Prologue()) && BodyFields(b, p)
  {
    hide P.ParsePrefix, P.ParsePrologue, P.ParseBody, PrologueFields, BodyFields, WordAt;
    ParsePrefixUnfolds(b, options);
    var profile := StandardProfile(options);
    var s := b[..4 * (WordAt(b, 0) % 0x1_0000)];
    assert s == b;
    PrologueReads(b, profile);
    var prologue := P.ParsePrologue(b, profile).value;
    SizeAndClass(b, prologue);
    BodyReads(b, prologue, profile);
  }

  lemma SizeAndClass(b: seq<u8>, p: Prologue)
    requires |b| >= 28 && PrologueFields(b, p)
    ensures p.header.packetSizeWords == WordAt(b, 0) % 0x1_0000
    ensures p.classId.packetClass.Raw() == WordAt(b, 3) % 0x1_0000
  {
  }
}
