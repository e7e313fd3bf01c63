/**
 The strict canonical packet writer: validation and sizes (src/writer.rs).

 A `Packet` can be built by hand, so nothing relates its raw and decoded
 fields until `PreparePacket` has checked them.
 */
module Writer {
  import opened Wrappers
  import opened Raw
  import opened Wire
  import opened Standard
  import P = Parser

  type Verdict = Result<(), WriteError>

  /** `impl From<ParseError> for WriteError`, applied by `?`. */
  function AsWrite(r: Check): Verdict {
    match r
    case Ok(u) => Ok(u)
    case Err(e) => Err(Profile(e))
  }

  datatype WritePlan = WritePlan(packetType: PacketType, typeSpecificBits: u8, packetSizeWords: u16)

  function EncodedLen(packet: Packet, options: WriteOptions): Result<nat, WriteError> {
    var plan :- PreparePacket(packet, options);
    Ok(plan.packetSizeWords * 4)
  }

  function PreparePacket(packet: Packet, options: WriteOptions): Result<WritePlan, WriteError> {
    var packetSizeWords :- PacketSizeWords(packet);
    var packetType := packet.Prologue().header.packetType;
    var typeSpecificBits :- CanonicalTypeSpecificBits(packet);
    var plan := WritePlan(packetType, typeSpecificBits, packetSizeWords);
    var _ :- ValidatePrologue(packet.Prologue(), plan, options);
    var _ :- ValidateBody(packet, StandardProfile(options));
    Ok(plan)
  }

  function ValidateBody(packet: Packet, profile: StandardProfile): Verdict {
    match packet
    case SignalData(p) => ValidateSignalData(p.prologue, p.payload, profile)
    case SignalContext(p) => ValidateSignalContext(p, profile)
    case VersionContext(p) => ValidateVersionContext(p, profile)
    case TimingFlowControl(p) => ValidateTimingFlowControl(p, profile)
    case SinkCapabilitiesQuery(p) => ValidateSinkCapabilitiesQuery(p, profile)
    case SinkCapabilitiesResponse(p) => ValidateSinkCapabilitiesResponse(p, profile)
    case StatusReport(p) => ValidateStatusReport(p, profile)
  }

  function PacketSizeWords(packet: Packet): Result<u16, WriteError> {
    var words :- UncheckedSizeWords(packet);
    if words < 0x1_0000 then Ok(words) else Err(PacketTooLarge(words))
  }

  function UncheckedSizeWords(packet: Packet): Result<nat, WriteError> {
    match packet
    case SignalData(p) =>
      if |p.payload| % 4 != 0 then Err(PayloadLengthNotWordAligned(|p.payload|)) else Ok(7 + |p.payload| / 4)
    case SignalContext(_) => Ok(27)
    case VersionContext(_) => Ok(11)
    case TimingFlowControl(_) => Ok(21)
    case SinkCapabilitiesQuery(p) => if p.form.Long? then Ok(13) else Ok(15)
    case SinkCapabilitiesResponse(p) =>
      if p.form.Short? then Ok(18)
      else if |p.capabilityTable| % 4 != 0 then Err(CapabilityTableLengthNotWordAligned(|p.capabilityTable|))
      else Ok(13 + |p.capabilityTable| / 4)
    case StatusReport(p) => StatusReportWords(p)
  }

  function StatusReportWords(p: StatusReportPacket): (r: Result<nat, WriteError>)
    ensures r.Ok? ==> r.value in STATUS_REPORT_SIZES
  {
    match (p.referenceLevelLimit, p.sampleRateLimit, p.bandwidthLimit)
    case (None, None, None) => Ok(15)
    case (Some(_), None, None) => Ok(17)
    case (Some(_), Some(_), Some(_)) => Ok(21)
    case (None, _, _) => Err(MissingField(FReferenceLevelLimit))
    case (Some(_), Some(_), None) => Err(MissingField(FBandwidthLimit))
    case (Some(_), None, Some(_)) => Err(MissingField(FSampleRateLimit))
  }

  function CanonicalTypeSpecificBits(packet: Packet): Result<u8, WriteError> {
    match packet
    case SignalData(_) | TimingFlowControl(_) => Ok(0)
    case SignalContext(p) => TsmTypeSpecific(p.prologue.header.tsm)
    case VersionContext(p) => TsmTypeSpecific(p.prologue.header.tsm)
    case SinkCapabilitiesQuery(_) | StatusReport(_) => Ok(0)
    case SinkCapabilitiesResponse(_) => Ok(4)
  }

  function TsmTypeSpecific(tsm: Option<TimestampMode>): Result<u8, WriteError> {
    match tsm
    case Some(Fine) => Ok(0)
    case Some(Coarse) => Ok(1)
    case None => Err(MissingField(FHeaderTsm))
  }

  function ValidatePrologue(prologue: Prologue, plan: WritePlan, options: WriteOptions): Verdict {
    var h := prologue.header;
    if h.sequence > 15 then Err(FieldOutOfRange(FHeaderSequence, 15, h.sequence)) else
    if h.packetType != plan.packetType then
      Err(FieldMismatch(FHeaderPacketType, plan.packetType.Raw(), h.packetType.Raw()))
    else
    if h.typeSpecificBits != plan.typeSpecificBits then
      Err(FieldMismatch(FHeaderTypeSpecificBits, plan.typeSpecificBits, h.typeSpecificBits))
    else
    if !h.classIdIndicator then Err(FieldMismatch(FHeaderClassIdIndicator, 1, 0)) else
    if h.packetSizeWords != plan.packetSizeWords then
      Err(FieldMismatch(FHeaderPacketSizeWords, plan.packetSizeWords, h.packetSizeWords))
    else
    var expectedTsm := TsmOf(plan.packetType, plan.typeSpecificBits);
    if h.tsm != expectedTsm then Err(FieldMismatch(FHeaderTsm, TsmCode(expectedTsm), TsmCode(h.tsm))) else
    var _ :- ValidateClassId(prologue.classId);
    var headerWord :- HeaderWord(plan.packetType, plan.typeSpecificBits, h.tsi, h.tsf, h.sequence,
                                 plan.packetSizeWords);
    if h.raw != headerWord then Err(FieldMismatch(FHeaderRaw, headerWord, h.raw)) else
    var header := PacketHeader(headerWord, plan.packetType, true, plan.typeSpecificBits, expectedTsm,
                               h.tsi, h.tsf, h.sequence, plan.packetSizeWords);
    AsWrite(StandardProfile(options).ValidateHeaderAndClass(header, prologue.classId))
  }

  function TsmCode(tsm: Option<TimestampMode>): u64 {
    match tsm
    case None => 2
    case Some(mode) => mode.Raw()
  }

  function ValidateClassId(classId: ClassId): Verdict {
    if classId.padBitCount > 0x1F then Err(FieldOutOfRange(FPadBitCount, 0x1F, classId.padBitCount)) else
    if classId.oui != DIFI_CID then Err(FieldMismatch(FOui, DIFI_CID, classId.oui)) else
    Ok(())
  }

  function ValidateSignalData(prologue: Prologue, payload: seq<u8>, profile: StandardProfile): Verdict {
    if |payload| % 4 != 0 then Err(PayloadLengthNotWordAligned(|payload|)) else
    var informationClass := prologue.classId.informationClass;
    var packetClass := prologue.classId.packetClass;
    var padBitCount := prologue.classId.padBitCount;
    if padBitCount != 0 && !profile.PermitsDataPadding(informationClass, packetClass) then
      Err(Profile(PadBitsNotAllowed(informationClass, packetClass, padBitCount)))
    else
    ValidateDataPadding(payload, padBitCount)
  }

  function ValidateSignalContext(p: SignalContextPacket, profile: StandardProfile): Verdict {
    var _ :- ExpectNoPadding(p.prologue);
    var _ :- AsWrite(profile.ExpectPacketSize(SignalContextLayout, p.prologue.classId.packetClass,
                                              p.prologue.header.packetSizeWords));
    var _ :- AsWrite(profile.ExpectSignalContextCif0(p.cif0));
    var expectedCif0 := if p.contextChanged then CIF_CONTEXT_CHANGED else CIF_CONTEXT_UNCHANGED;
    var _ :- ExpectField(FContextChangedCif0, expectedCif0, p.cif0);
    var _ :- AsWrite(ValidateFixedIntegerHz(FContextBandwidth, p.bandwidth));
    var _ :- AsWrite(ValidateFixedIntegerHz(FContextIfReference, U64OfI64(p.ifReferenceFrequency)));
    var _ :- AsWrite(ValidateFixedIntegerHz(FContextRfReference, U64OfI64(p.rfReferenceFrequency)));
    var _ :- AsWrite(ValidateFixedIntegerHz(FContextIfBandOffset, U64OfI64(p.ifBandOffset)));
    var _ :- AsWrite(ValidateFixedIntegerHz(FContextSampleRate, p.sampleRate));
    ValidatePayloadFormat(p.payloadFormat)
  }

  function ValidateVersionContext(p: VersionContextPacket, profile: StandardProfile): Verdict {
    var _ :- ExpectNoPadding(p.prologue);
    var _ :- AsWrite(profile.ExpectPacketSize(VersionContextLayout, p.prologue.classId.packetClass,
                                              p.prologue.header.packetSizeWords));
    var _ :- AsWrite(profile.ExpectVersionContextCif0(p.cif0));
    var expectedCif0 := if p.contextChanged then CIF_VERSION_CHANGED else CIF_VERSION_UNCHANGED;
    var _ :- ExpectField(FVersionChangedCif0, expectedCif0, p.cif0);
    var _ :- AsWrite(profile.ExpectVersionContextCif1(p.cif1));
    var _ :- AsWrite(profile.ExpectVita49SpecVersion(p.vita49SpecVersion));
    if p.year > 0x7F then Err(FieldOutOfRange(FYear, 0x7F, p.year)) else
    if p.day > 0x1FF then Err(FieldOutOfRange(FDay, 0x1FF, p.day)) else
    if p.revision > 0x3F then Err(FieldOutOfRange(FRevision, 0x3F, p.revision)) else
    var _ :- ExpectField(FDeviceType, 0, p.deviceType);
    ExpectField(FIcdVersion, Version1.Raw(), p.icdVersion.Raw())
  }

  function ValidateTimingFlowControl(p: TimingFlowControlPacket, profile: StandardProfile): Verdict {
    var _ :- ExpectNoPadding(p.prologue);
    var _ :- AsWrite(profile.ExpectPacketSize(TimingFlowControlLayout, p.prologue.classId.packetClass,
                                              p.prologue.header.packetSizeWords));
    var _ :- AsWrite(profile.ExpectTimingFlowControlCam(p.common.cam));
    var _ :- AsWrite(profile.ExpectTimingFlowControlCif0(p.cif0));
    var _ :- AsWrite(profile.ExpectTimingFlowControlCif1(p.cif1));
    var _ :- AsWrite(ValidateFixedIntegerHz(FTimingSampleRate, p.sampleRate));
    ValidateBufferStatus(p.bufferStatus)
  }

  function ValidateSinkCapabilitiesQuery(p: SinkCapabilitiesQueryPacket, profile: StandardProfile): Verdict {
    var _ :- ExpectNoPadding(p.prologue);
    var _ :- AsWrite(profile.ExpectSinkCapabilitiesQueryCam(p.common.cam));
    match p.form
    case Long =>
      var _ :- AsWrite(profile.ExpectPacketSize(SinkCapabilitiesQueryLong, p.prologue.classId.packetClass,
                                                p.prologue.header.packetSizeWords));
      var _ :- AsWrite(profile.ExpectSinkCapabilitiesLongQueryCif0(p.cif0));
      var cif1 :- Require(FCif1, p.cif1);
      var _ :- AsWrite(profile.ExpectSinkCapabilitiesLongQueryCif1(cif1));
      var _ :- ExpectAbsent(FSinkTimeCalibrationInteger, p.sinkTimeCalibrationInteger);
      ExpectAbsent(FSinkTimeCalibrationFractional, p.sinkTimeCalibrationFractional)
    case Short =>
      var _ :- AsWrite(profile.ExpectPacketSize(SinkCapabilitiesQueryShort, p.prologue.classId.packetClass,
                                                p.prologue.header.packetSizeWords));
      var _ :- AsWrite(profile.ExpectSinkCapabilitiesShortQueryCif0(p.cif0));
      var _ :- ExpectAbsent(FCif1, p.cif1);
      var _ :- Require(FSinkTimeCalibrationInteger, p.sinkTimeCalibrationInteger);
      var _ :- Require(FSinkTimeCalibrationFractional, p.sinkTimeCalibrationFractional);
      Ok(())
  }

  function ValidateSinkCapabilitiesResponse(p: SinkCapabilitiesResponsePacket, profile: StandardProfile): Verdict {
    var _ :- ExpectNoPadding(p.prologue);
    var _ :- AsWrite(profile.ExpectSinkCapabilitiesResponseCam(p.common.cam));
    match p.form
    case Long =>
      if |p.capabilityTable| % 4 != 0 then Err(CapabilityTableLengthNotWordAligned(|p.capabilityTable|)) else
      if p.prologue.header.packetSizeWords <= 13 then
        Err(Profile(InvalidPacketSize(p.prologue.classId.packetClass, 14, p.prologue.header.packetSizeWords)))
      else
      var _ :- AsWrite(profile.ExpectSinkCapabilitiesLongResponseCif0(p.cif0));
      var cif1 :- Require(FCif1, p.cif1);
      var _ :- AsWrite(profile.ExpectSinkCapabilitiesLongResponseCif1(cif1));
      var _ :- ExpectAbsent(FControlPacketIntegerTimestamp, p.controlPacketIntegerTimestamp);
      var _ :- ExpectAbsent(FControlPacketFractionalTimestamp, p.controlPacketFractionalTimestamp);
      var _ :- ExpectAbsent(FSinkReceptionIntegerTimestamp, p.sinkReceptionIntegerTimestamp);
      ExpectAbsent(FSinkReceptionFractionalTimestamp, p.sinkReceptionFractionalTimestamp)
    case Short =>
      var _ :- AsWrite(profile.ExpectPacketSize(SinkCapabilitiesResponseShort, p.prologue.classId.packetClass,
                                                p.prologue.header.packetSizeWords));
      var _ :- AsWrite(profile.ExpectSinkCapabilitiesShortResponseCif0(p.cif0));
      var _ :- ExpectAbsent(FCif1, p.cif1);
      if p.capabilityTable != [] then Err(UnexpectedField(FCapabilityTable)) else
      var _ :- Require(FControlPacketIntegerTimestamp, p.controlPacketIntegerTimestamp);
      var _ :- Require(FControlPacketFractionalTimestamp, p.controlPacketFractionalTimestamp);
      var _ :- Require(FSinkReceptionIntegerTimestamp, p.sinkReceptionIntegerTimestamp);
      var _ :- Require(FSinkReceptionFractionalTimestamp, p.sinkReceptionFractionalTimestamp);
      Ok(())
  }

  function ValidateStatusReport(p: StatusReportPacket, profile: StandardProfile): Verdict {
    var _ :- ExpectNoPadding(p.prologue);
    var _ :- AsWrite(profile.ValidateStatusReportSize(p.prologue.classId.packetClass,
                                                      p.prologue.header.packetSizeWords));
    var _ :- AsWrite(profile.ExpectStatusReportCam(p.common.cam));
    var _ :- AsWrite(profile.ExpectStatusReportCif0(p.cif0));
    var _ :- AsWrite(profile.ExpectStatusReportCif1(p.cif1));
    var words :- StatusReportWords(p);
    var _ :- ExpectField(FQuantitativeFlags, P.FlagsOfStatusSize(words), P.QuantitativeFlags(p.sinkErrorsWarnings));
    var _ :- ValidateOptionalHz(FStatusSampleRate, p.sampleRateLimit);
    ValidateOptionalHz(FStatusBandwidth, p.bandwidthLimit)
  }

  function ValidateOptionalHz(field: FieldName, limit: Option<u64>): Verdict {
    match limit
    case None => Ok(())
    case Some(raw) => AsWrite(ValidateFixedIntegerHz(field, raw))
  }

  function ValidatePayloadFormat(f: PayloadFormat): Verdict {
    // the sample format has one constructor, so the source's first test cannot fail
    if !(4 <= f.dataItemSizeBits <= 16) then
      Err(FieldOutOfRange(FDataItemSizeBits, 16, f.dataItemSizeBits))
    else
    if f.itemPackingFieldSizeBits != f.dataItemSizeBits then
      Err(FieldMismatch(FItemPackingFieldSizeBits, f.dataItemSizeBits, f.itemPackingFieldSizeBits))
    else
    var minusOne := f.dataItemSizeBits - 1;
    var _ :- ExpectField(FPayloadFormatWord0, 0xA000_0000 + minusOne * 64 + minusOne, f.rawWord0);
    ExpectField(FPayloadFormatWord1, 0, f.rawWord1)
  }

  function ValidateBufferStatus(s: BufferStatus): Verdict {
    if s.bufferLevel > 0xFFF then Err(FieldOutOfRange(FBufferLevel, 0xFFF, s.bufferLevel)) else
    var flags := Bit(s.overflow) * 8 + Bit(s.nearlyFull) * 4 + Bit(s.nearlyEmpty) * 2 + Bit(s.underflow);
    ExpectField(FBufferStatusRaw, s.bufferLevel * 16 + flags, s.raw)
  }

  function Bit(b: bool): u8 {
    if b then 1 else 0
  }

  function ExpectNoPadding(prologue: Prologue): Verdict {
    if prologue.classId.padBitCount == 0 then Ok(())
    else Err(Profile(PadBitsNotAllowed(prologue.classId.informationClass, prologue.classId.packetClass,
                                       prologue.classId.padBitCount)))
  }

  /** The writer's own copy of the padding check. */
  function ValidateDataPadding(payload: seq<u8>, padBitCount: u8): Verdict {
    if padBitCount == 0 then Ok(()) else
    var payloadBits := |payload| * 8;
    if padBitCount > payloadBits || payload == [] then
      Err(Profile(InvalidPadding(padBitCount, payloadBits)))
    else
    var fullPadBytes := padBitCount / 8;
    var partialPadBits := padBitCount % 8;
    if fullPadBytes != 0 && exists k :: |payload| - fullPadBytes <= k < |payload| && payload[k] != 0 then
      Err(Profile(NonZeroPaddingBits))
    else if partialPadBits != 0 && payload[|payload| - fullPadBytes - 1] % P.Pow2(partialPadBits) != 0 then
      Err(Profile(NonZeroPaddingBits))
    else Ok(())
  }

  /** Joins the header's bit fields; bit 27, the class-id indicator, is always set. */
  function HeaderWord(
    packetType: PacketType, typeSpecificBits: u8, tsi: Tsi, tsf: Tsf, sequence: u8, packetSizeWords: u16)
    : Result<u32, WriteError>
  {
    if typeSpecificBits > 7 then Err(FieldOutOfRange(FHeaderTypeSpecificBits, 7, typeSpecificBits)) else
    if sequence > 15 then Err(FieldOutOfRange(FHeaderSequence, 15, sequence)) else
    Ok(packetType.Raw() * 0x1000_0000 + 0x800_0000 + typeSpecificBits * 0x100_0000
       + tsi.Raw() * 0x40_0000 + tsf.Raw() * 0x10_0000 + sequence * 0x1_0000 + packetSizeWords)
  }

  function ExpectField(field: FieldName, expected: u64, actual: u64): Verdict {
    if expected == actual then Ok(()) else Err(FieldMismatch(field, expected, actual))
  }

  function ExpectAbsent<T>(field: FieldName, value: Option<T>): Verdict {
    if value.None? then Ok(()) else Err(UnexpectedField(field))
  }

  /** `value.ok_or(MissingField)` */
  function Require<T>(field: FieldName, value: Option<T>): Result<T, WriteError> {
    match value
    case None => Err(MissingField(field))
    case Some(v) => Ok(v)
  }
}
