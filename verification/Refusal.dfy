/** Which error the writer gives for a packet that it refuses: the first requirement on its fields that fails. */
module Refusal {
  import opened Wrappers
  import opened Raw
  import opened Wire
  import opened Standard
  import opened Encoding
  import opened Padding
  import opened FixedWords
  import opened Rejection
  import P = Parser
  import W = Writer

  type Refused = Option<WriteError>

  /** A profile error, as the writer passes it on. */
  function OfProfile(e: Option<ParseError>): Refused {
    match e
    case None => None
    case Some(cause) => Some(Profile(cause))
  }

  function PaddingRefusal(p: Prologue): Refused {
    OfProfile(PaddingError(p.classId))
  }

  function HzRefusal(field: FieldName, raw: int): Refused {
    if raw % 0x10_0000 == 0 then None
    else Some(Profile(FractionalHzNotAllowed(field, raw % 0x1_0000_0000_0000_0000)))
  }

  /** The first refusal of two. */
  function Then(one: Refused, two: Refused): Refused {
    if one.Some? then one else two
  }

  function Fixed(field: FieldName, expected: u32, actual: u32): Refused {
    if actual == expected then None else Some(Profile(InvalidFieldValue(field, expected, actual)))
  }

  function Absent<T>(field: FieldName, value: Option<T>): Refused {
    if value.None? then None else Some(UnexpectedField(field))
  }

  function Present<T>(field: FieldName, value: Option<T>): Refused {
    if value.None? then Some(MissingField(field)) else None
  }

  // ---- size and prologue ----

  function SizeRefusal(p: Packet): Refused {
    match p
    case SignalData(d) =>
      if |d.payload| % 4 != 0 then Some(PayloadLengthNotWordAligned(|d.payload|)) else TooLarge(7 + |d.payload| / 4)
    case SinkCapabilitiesResponse(r) =>
      if r.form.Short? then None
      else if |r.capabilityTable| % 4 != 0 then Some(CapabilityTableLengthNotWordAligned(|r.capabilityTable|))
      else TooLarge(13 + |r.capabilityTable| / 4)
    case StatusReport(s) =>
      if s.referenceLevelLimit.None? && (s.sampleRateLimit.Some? || s.bandwidthLimit.Some?) then
        Some(MissingField(FReferenceLevelLimit))
      else if s.sampleRateLimit.Some? && s.bandwidthLimit.None? then Some(MissingField(FBandwidthLimit))
      else if s.sampleRateLimit.None? && s.bandwidthLimit.Some? then Some(MissingField(FSampleRateLimit))
      else None
    case _ => None
  }

  function TooLarge(words: nat): Refused {
    if words <= 65535 then None else Some(PacketTooLarge(words))
  }

  /** The bits that the variant stands for; only a signal or version context depends on its timestamp mode. */
  function VariantBits(p: Packet): u8 {
    match p
    case SinkCapabilitiesResponse(_) => 4
    case SignalContext(_) | VersionContext(_) => if p.Prologue().header.tsm == Some(Coarse) then 1 else 0
    case _ => 0
  }

  /** The timestamp mode as the writer's errors state it: 2 for none. */
  function ModeNumber(tsm: Option<TimestampMode>): u64 {
    if tsm == Some(Coarse) then 1 else if tsm == Some(Fine) then 0 else 2
  }

  function PrologueRefusal(p: Prologue, bits: u8, words: u16, options: WriteOptions): Refused
    requires bits <= 7
  {
    var h, c := p.header, p.classId;
    var mode := if h.packetType.Raw() == 4 || h.packetType.Raw() == 5 then bits % 2 else 2;
    if h.sequence > 15 then Some(FieldOutOfRange(FHeaderSequence, 15, h.sequence))
    else if h.typeSpecificBits != bits then Some(FieldMismatch(FHeaderTypeSpecificBits, bits, h.typeSpecificBits))
    else if !h.classIdIndicator then Some(FieldMismatch(FHeaderClassIdIndicator, 1, 0))
    else if h.packetSizeWords != words then Some(FieldMismatch(FHeaderPacketSizeWords, words, h.packetSizeWords))
    else if ModeNumber(h.tsm) != mode then Some(FieldMismatch(FHeaderTsm, mode, ModeNumber(h.tsm)))
    else if c.padBitCount > 31 then Some(FieldOutOfRange(FPadBitCount, 31, c.padBitCount))
    else if c.oui != 0x6A_621E then Some(FieldMismatch(FOui, 0x6A_621E, c.oui))
    else if h.raw != HeaderBits(h) then Some(FieldMismatch(FHeaderRaw, HeaderBits(h), h.raw))
    else OfProfile(AdmissionError(options, h, c))
  }

  // ---- bodies ----

  function DataRefusal(d: SignalDataPacket, options: WriteOptions): Refused {
    var c := d.prologue.classId;
    var pad := c.padBitCount;
    if pad != 0
       && (options.standard.V1_1?
           || (c.packetClass.Raw() != 0 && c.packetClass.Raw() != 2)
           || (c.packetClass.Raw() == 0 && c.informationClass.Raw() % 0x100 == 0)) then
      Some(Profile(PadBitsNotAllowed(c.informationClass, c.packetClass, pad)))
    else if pad > 8 * |d.payload| then Some(Profile(InvalidPadding(pad, 8 * |d.payload|)))
    else if BigEndian(d.payload) % P.Pow2(pad) != 0 then Some(Profile(NonZeroPaddingBits))
    else None
  }

  function FormatRefusal(f: PayloadFormat): Refused {
    var bits := f.dataItemSizeBits;
    if bits < 4 || bits > 16 then Some(FieldOutOfRange(FDataItemSizeBits, 16, bits))
    else if f.itemPackingFieldSizeBits != bits then
      Some(FieldMismatch(FItemPackingFieldSizeBits, bits, f.itemPackingFieldSizeBits))
    else if f.rawWord0 != 0xA000_0000 + 65 * (bits - 1) then
      Some(FieldMismatch(FPayloadFormatWord0, 0xA000_0000 + 65 * (bits - 1), f.rawWord0))
    else if f.rawWord1 != 0 then Some(FieldMismatch(FPayloadFormatWord1, 0, f.rawWord1))
    else None
  }

  function SignalContextRefusal(c: SignalContextPacket): Refused {
    if c.prologue.classId.padBitCount != 0 then PaddingRefusal(c.prologue)
    else if c.cif0 % 0x8000_0000 != 0x7BB9_8000 then Some(Profile(InvalidFieldValueSet(FSignalContextCif0, c.cif0)))
    else if c.contextChanged && c.cif0 < 0x8000_0000 then
      Some(FieldMismatch(FContextChangedCif0, 0xFBB9_8000, 0x7BB9_8000))
    else if !c.contextChanged && c.cif0 >= 0x8000_0000 then
      Some(FieldMismatch(FContextChangedCif0, 0x7BB9_8000, 0xFBB9_8000))
    else
      Then(HzRefusal(FContextBandwidth, c.bandwidth),
      Then(HzRefusal(FContextIfReference, c.ifReferenceFrequency),
      Then(HzRefusal(FContextRfReference, c.rfReferenceFrequency),
      Then(HzRefusal(FContextIfBandOffset, c.ifBandOffset),
      Then(HzRefusal(FContextSampleRate, c.sampleRate),
           FormatRefusal(c.payloadFormat))))))
  }

  function VersionContextRefusal(v: VersionContextPacket): Refused {
    if v.prologue.classId.padBitCount != 0 then PaddingRefusal(v.prologue)
    else if v.cif0 % 0x8000_0000 != 2 then Some(Profile(InvalidFieldValueSet(FVersionContextCif0, v.cif0)))
    else if v.contextChanged && v.cif0 < 0x8000_0000 then Some(FieldMismatch(FVersionChangedCif0, 0x8000_0002, 2))
    else if !v.contextChanged && v.cif0 >= 0x8000_0000 then Some(FieldMismatch(FVersionChangedCif0, 2, 0x8000_0002))
    else if v.cif1 != 12 then Some(Profile(InvalidFieldValue(FVersionContextCif1, 12, v.cif1)))
    else if v.vita49SpecVersion != 4 then Some(Profile(InvalidFieldValue(FVita49SpecVersion, 4, v.vita49SpecVersion)))
    else if v.year > 127 then Some(FieldOutOfRange(FYear, 127, v.year))
    else if v.day > 511 then Some(FieldOutOfRange(FDay, 511, v.day))
    else if v.revision > 63 then Some(FieldOutOfRange(FRevision, 63, v.revision))
    else if v.deviceType != 0 then Some(FieldMismatch(FDeviceType, 0, v.deviceType))
    else None
  }

  /** The raw word that a buffer status stands for: a 12-bit level over four flags. */
  function StatusWord(s: BufferStatus): u32 {
    s.bufferLevel * 16 + (if s.overflow then 8 else 0) + (if s.nearlyFull then 4 else 0)
    + (if s.nearlyEmpty then 2 else 0) + (if s.underflow then 1 else 0)
  }

  function TimingFlowControlRefusal(t: TimingFlowControlPacket): Refused {
    var s := t.bufferStatus;
    Then(PaddingRefusal(t.prologue),
    Then(Fixed(FTimingCam, 0xA100_0000, t.common.cam),
    Then(Fixed(FTimingCif0, 0x4030_0002, t.cif0),
    Then(Fixed(FTimingCif1, 2, t.cif1),
    Then(HzRefusal(FTimingSampleRate, t.sampleRate),
         if s.bufferLevel > 4095 then Some(FieldOutOfRange(FBufferLevel, 4095, s.bufferLevel))
         else if s.raw != StatusWord(s) then Some(FieldMismatch(FBufferStatusRaw, StatusWord(s), s.raw))
         else None)))))
  }

  function QueryRefusal(q: SinkCapabilitiesQueryPacket): Refused {
    Then(PaddingRefusal(q.prologue),
    Then(Fixed(FQueryCam, 0xA110_0000, q.common.cam),
    if q.form.Long? then
      Then(Fixed(FLongQueryCif0, 0x7BB9_8002, q.cif0),
      Then(Present(FCif1, q.cif1),
      Then(if q.cif1.Some? then Fixed(FLongQueryCif1, 2, q.cif1.value) else None,
      Then(Absent(FSinkTimeCalibrationInteger, q.sinkTimeCalibrationInteger),
           Absent(FSinkTimeCalibrationFractional, q.sinkTimeCalibrationFractional)))))
    else
      Then(Fixed(FShortQueryCif0, 0x8000_0000, q.cif0),
      Then(Absent(FCif1, q.cif1),
      Then(Present(FSinkTimeCalibrationInteger, q.sinkTimeCalibrationInteger),
           Present(FSinkTimeCalibrationFractional, q.sinkTimeCalibrationFractional))))))
  }

  function ResponseRefusal(r: SinkCapabilitiesResponsePacket): Refused {
    Then(PaddingRefusal(r.prologue),
    Then(Fixed(FResponseCam, 0xA110_0400, r.common.cam),
    if r.form.Long? then
      Then(if r.capabilityTable == [] then Some(Profile(InvalidPacketSize(r.prologue.classId.packetClass, 14, 13)))
           else None,
      Then(Fixed(FLongResponseCif0, 0x7BB9_8002, r.cif0),
      Then(Present(FCif1, r.cif1),
      Then(if r.cif1.Some? then Fixed(FLongResponseCif1, 2, r.cif1.value) else None,
      Then(Absent(FControlPacketIntegerTimestamp, r.controlPacketIntegerTimestamp),
      Then(Absent(FControlPacketFractionalTimestamp, r.controlPacketFractionalTimestamp),
      Then(Absent(FSinkReceptionIntegerTimestamp, r.sinkReceptionIntegerTimestamp),
           Absent(FSinkReceptionFractionalTimestamp, r.sinkReceptionFractionalTimestamp))))))))
    else
      Then(Fixed(FShortResponseCif0, 0x8000_0000, r.cif0),
      Then(Absent(FCif1, r.cif1),
      Then(if r.capabilityTable != [] then Some(UnexpectedField(FCapabilityTable)) else None,
      Then(Present(FControlPacketIntegerTimestamp, r.controlPacketIntegerTimestamp),
      Then(Present(FControlPacketFractionalTimestamp, r.controlPacketFractionalTimestamp),
      Then(Present(FSinkReceptionIntegerTimestamp, r.sinkReceptionIntegerTimestamp),
           Present(FSinkReceptionFractionalTimestamp, r.sinkReceptionFractionalTimestamp)))))))))
  }

  function StatusRefusal(s: StatusReportPacket): Refused {
    var flags := s.sinkErrorsWarnings / 16 % 2 * 16 + s.sinkErrorsWarnings / 8 % 2 * 8;
    var expected := (if s.referenceLevelLimit.Some? then 16 else 0) + (if s.sampleRateLimit.Some? then 8 else 0);
    Then(PaddingRefusal(s.prologue),
    Then(Fixed(FStatusCam, 0xA108_0000, s.common.cam),
    Then(Fixed(FStatusCif0, 0, s.cif0),
    Then(Fixed(FStatusCif1, 0, s.cif1),
    Then(if flags != expected then Some(FieldMismatch(FQuantitativeFlags, expected, flags)) else None,
    Then(if s.sampleRateLimit.Some? then HzRefusal(FStatusSampleRate, s.sampleRateLimit.value) else None,
         if s.bandwidthLimit.Some? then HzRefusal(FStatusBandwidth, s.bandwidthLimit.value) else None))))))
  }

  function BodyRefusal(p: Packet, options: WriteOptions): Refused {
    match p
    case SignalData(d) => DataRefusal(d, options)
    case SignalContext(c) => SignalContextRefusal(c)
    case VersionContext(v) => VersionContextRefusal(v)
    case TimingFlowControl(t) => TimingFlowControlRefusal(t)
    case SinkCapabilitiesQuery(q) => QueryRefusal(q)
    case SinkCapabilitiesResponse(r) => ResponseRefusal(r)
    case StatusReport(s) => StatusRefusal(s)
  }

  /** The size in words that a packet of suitable lengths takes. */
  function SizeOf(p: Packet): nat {
    WordCount(p) + |Tail(p)| / 4
  }

  function RefusalOf(p: Packet, options: WriteOptions): Refused {
    if SizeRefusal(p).Some? then SizeRefusal(p)
    else if (p.SignalContext? || p.VersionContext?) && p.Prologue().header.tsm == None then
      Some(MissingField(FHeaderTsm))
    else
      SizeIsPlanned(p);
      Then(PrologueRefusal(p.Prologue(), VariantBits(p), SizeOf(p), options), BodyRefusal(p, options))
  }

  // ---- the writer gives these errors ----

  predicate Answers<T>(r: Result<T, WriteError>, e: Refused) {
    (r.Ok? <==> e.None?) && (r.Err? ==> e == Some(r.error))
  }

  lemma SizeIsPlanned(p: Packet)
    ensures Answers(W.PacketSizeWords(p), SizeRefusal(p))
    ensures SizeRefusal(p).None? ==> W.PacketSizeWords(p) == Ok(SizeOf(p))
  {
    match p
    case SignalData(_) =>
    case SinkCapabilitiesResponse(_) =>
    case StatusReport(s) =>
    case _ =>
  }

  lemma BitsArePlanned(p: Packet)
    ensures W.CanonicalTypeSpecificBits(p) ==
            if (p.SignalContext? || p.VersionContext?) && p.Prologue().header.tsm == None then
              Err(MissingField(FHeaderTsm))
            else Ok(VariantBits(p))
  {
  }

  lemma PrologueRefused(p: Prologue, plan: W.WritePlan, options: WriteOptions)
    requires plan.packetType == p.header.packetType && plan.typeSpecificBits <= 7
    ensures Answers(W.ValidatePrologue(p, plan, options),
                    PrologueRefusal(p, plan.typeSpecificBits, plan.packetSizeWords, options))
  {
    hide AdmissionError, StandardProfile.ValidateHeaderAndClass;
    var h := p.header;
    if h.typeSpecificBits == plan.typeSpecificBits && h.tsm == TsmOf(h.packetType, h.typeSpecificBits) {
      AdmissionErrorExactly(options, h, p.classId);
    }
  }

  lemma HzIs(field: FieldName, raw: i64)
    ensures Answers(W.AsWrite(ValidateFixedIntegerHz(field, U64OfI64(raw))), HzRefusal(field, raw))
  {
    assert 0x1_0000_0000_0000_0000 == 0x1000_0000_0000 * 0x10_0000;
    assert (raw + 0x1_0000_0000_0000_0000) % 0x10_0000 == raw % 0x10_0000;
  }

  lemma DataRefused(d: SignalDataPacket, options: WriteOptions)
    requires |d.payload| % 4 == 0
    ensures Answers(W.ValidateSignalData(d.prologue, d.payload, StandardProfile(options)), DataRefusal(d, options))
  {
    hide P.ValidateDataPadding, W.ValidateDataPadding, P.Pow2;
    PaddingIsDivisibility(d.payload, d.prologue.classId.padBitCount);
  }

  lemma FormatRefused(f: PayloadFormat)
    ensures Answers(W.ValidatePayloadFormat(f), FormatRefusal(f))
  {
  }

  lemma SignalContextRefused(c: SignalContextPacket, profile: StandardProfile)
    requires c.prologue.header.packetSizeWords == 27
    ensures Answers(W.ValidateSignalContext(c, profile), SignalContextRefusal(c))
  {
    hide U64OfI64, W.ValidatePayloadFormat, FormatRefusal;
    HzIs(FContextIfReference, c.ifReferenceFrequency);
    HzIs(FContextRfReference, c.rfReferenceFrequency);
    HzIs(FContextIfBandOffset, c.ifBandOffset);
    FormatRefused(c.payloadFormat);
  }

  lemma VersionContextRefused(v: VersionContextPacket, profile: StandardProfile)
    requires v.prologue.header.packetSizeWords == 11
    ensures Answers(W.ValidateVersionContext(v, profile), VersionContextRefusal(v))
  {
    assert v.icdVersion == Version1;
  }

  lemma TimingFlowControlRefused(t: TimingFlowControlPacket, profile: StandardProfile)
    requires t.prologue.header.packetSizeWords == 21
    ensures Answers(W.ValidateTimingFlowControl(t, profile), TimingFlowControlRefusal(t))
  {
  }

  lemma QueryRefused(q: SinkCapabilitiesQueryPacket, profile: StandardProfile)
    requires q.prologue.header.packetSizeWords == if q.form.Long? then 13 else 15
    ensures Answers(W.ValidateSinkCapabilitiesQuery(q, profile), QueryRefusal(q))
  {
  }

  lemma ResponseRefused(r: SinkCapabilitiesResponsePacket, profile: StandardProfile)
    requires r.form.Long? ==> |r.capabilityTable| % 4 == 0
    requires r.prologue.header.packetSizeWords == if r.form.Long? then 13 + |r.capabilityTable| / 4 else 18
    ensures Answers(W.ValidateSinkCapabilitiesResponse(r, profile), ResponseRefusal(r))
  {
  }

  lemma StatusRefused(s: StatusReportPacket, profile: StandardProfile)
    requires SizeRefusal(StatusReport(s)).None?
    requires s.prologue.header.packetSizeWords == StatusSize(s)
    ensures Answers(W.ValidateStatusReport(s, profile), StatusRefusal(s))
  {
    hide P.QuantitativeFlags;
    FlagBits(s.sinkErrorsWarnings);
  }

  /** Each layout's validation gives the first requirement of the layout that fails. */
  lemma BodyRefused(p: Packet, options: WriteOptions)
    requires SizeRefusal(p).None? && p.Prologue().header.packetSizeWords == SizeOf(p)
    ensures Answers(W.ValidateBody(p, StandardProfile(options)), BodyRefusal(p, options))
  {
    hide W.ValidateSignalData, W.ValidateSignalContext, W.ValidateVersionContext, W.ValidateTimingFlowControl,
      W.ValidateSinkCapabilitiesQuery, W.ValidateSinkCapabilitiesResponse, W.ValidateStatusReport,
      DataRefusal, SignalContextRefusal, VersionContextRefusal, TimingFlowControlRefusal, QueryRefusal,
      ResponseRefusal, StatusRefusal;
    var profile := StandardProfile(options);
    match p
    case SignalData(d) => DataRefused(d, options);
    case SignalContext(c) => SignalContextRefused(c, profile);
    case VersionContext(v) => VersionContextRefused(v, profile);
    case TimingFlowControl(t) => TimingFlowControlRefused(t, profile);
    case SinkCapabilitiesQuery(q) => QueryRefused(q, profile);
    case SinkCapabilitiesResponse(r) => ResponseRefused(r, profile);
    case StatusReport(s) => StatusRefused(s, profile);
  }

  /** A packet is accepted, with the size of its encoding, or refused with the first error. */
  lemma RefusedExactly(p: Packet, options: WriteOptions)
    ensures W.EncodedLen(p, options) ==
            match RefusalOf(p, options)
            case Some(e) => Err(e)
            case None => Ok(4 * SizeOf(p))
  {
    hide W.ValidatePrologue, W.ValidateBody, PrologueRefusal, BodyRefusal, SizeRefusal, W.PacketSizeWords,
      W.CanonicalTypeSpecificBits, SizeOf;
    SizeIsPlanned(p);
    BitsArePlanned(p);
    if SizeRefusal(p).None? && W.CanonicalTypeSpecificBits(p).Ok? {
      var h := p.Prologue().header;
      var plan := W.WritePlan(h.packetType, VariantBits(p), SizeOf(p));
      PrologueRefused(p.Prologue(), plan, options);
      if PrologueRefusal(p.Prologue(), VariantBits(p), SizeOf(p), options).None? {
        PlanIsHeader(p.Prologue(), VariantBits(p), SizeOf(p), options);
        BodyRefused(p, options);
      }
    }
  }

  lemma PlanIsHeader(p: Prologue, bits: u8, words: u16, options: WriteOptions)
    requires bits <= 7 && PrologueRefusal(p, bits, words, options).None?
    ensures p.header.packetSizeWords == words
  {
    hide AdmissionError;
  }
}
