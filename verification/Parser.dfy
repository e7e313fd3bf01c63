/** The strict, zero-copy packet parser (src/parser.rs, reads of src/raw.rs). */
module Parser {
  import opened Wrappers
  import opened Raw
  import opened Wire
  import opened Standard

  function ReadU32(input: seq<u8>, wordIndex: nat): Result<u32, ParseError> {
    if 4 * wordIndex + 4 <= |input| then Ok(WordAt(input, wordIndex))
    else Err(InputTooShort(4 * wordIndex + 4, |input|))
  }

  function ReadU64(input: seq<u8>, wordIndex: nat): Result<u64, ParseError> {
    var high :- ReadU32(input, wordIndex);
    var low :- ReadU32(input, wordIndex + 1);
    Ok(FromHiLo(high, low))
  }

  function ReadI64(input: seq<u8>, wordIndex: nat): Result<i64, ParseError> {
    var v :- ReadU64(input, wordIndex);
    Ok(I64OfU64(v))
  }

  function ParseExact(input: seq<u8>, options: ParseOptions): Result<Packet, ParseError> {
    var (packet, remainder) :- ParsePrefix(input, options);
    if remainder == [] then Ok(packet) else Err(TrailingBytes(|remainder|))
  }

  /** The first packet of `input` and the bytes that follow it. */
  function ParsePrefix(input: seq<u8>, options: ParseOptions): Result<(Packet, seq<u8>), ParseError> {
    if |input| < 28 then Err(InputTooShort(28, |input|)) else
    var headerWord :- ReadU32(input, 0);
    var packetSizeWords := headerWord % 0x1_0000;
    if packetSizeWords < 7 then Err(PacketSizeTooSmall(packetSizeWords)) else
    var packetLen := packetSizeWords * 4;
    if |input| < packetLen then Err(PacketTruncated(packetLen, |input|)) else
    var packet :- ParseSinglePacket(input[..packetLen], StandardProfile(options));
    Ok((packet, input[packetLen..]))
  }

  function ParsePrologue(input: seq<u8>, profile: StandardProfile): Result<Prologue, ParseError> {
    var word0 :- ReadU32(input, 0);
    var header :- ParseHeader(word0);
    if !header.classIdIndicator then Err(MissingClassId) else
    var word2 :- ReadU32(input, 2);
    var word3 :- ReadU32(input, 3);
    var classId :- ParseClassId(word2, word3);
    var _ :- profile.ValidateHeaderAndClass(header, classId);
    var streamId :- ReadU32(input, 1);
    var integerSeconds :- ReadU32(input, 4);
    var fractionalSeconds :- ReadU64(input, 5);
    Ok(Prologue(header, streamId, classId, integerSeconds, fractionalSeconds))
  }

  function ParseSinglePacket(input: seq<u8>, profile: StandardProfile): Result<Packet, ParseError> {
    var prologue :- ParsePrologue(input, profile);
    ParseBody(input, prologue, profile)
  }

  /** Dispatch on the packet class. */
  function ParseBody(input: seq<u8>, prologue: Prologue, profile: StandardProfile): Result<Packet, ParseError>
    requires |input| >= 28
  {
    match prologue.classId.packetClass
    case StandardFlowSignalData | SampleCountSignalData =>
      var p :- ParseData(input, prologue, profile);
      Ok(SignalData(p))
    case StandardFlowSignalContext | SampleCountSignalContext =>
      var p :- ParseSignalContext(input, prologue, profile);
      Ok(SignalContext(p))
    case VersionFlowSignalContext =>
      var p :- ParseVersionContext(input, prologue, profile);
      Ok(VersionContext(p))
    case SampleCountTimingFlowControl | RealTimeTimingFlowControl =>
      var p :- ParseTimingFlowControl(input, prologue, profile);
      Ok(TimingFlowControl(p))
    case SinkCapabilitiesQueryClass =>
      var p :- ParseSinkCapabilitiesQuery(input, prologue, profile);
      Ok(SinkCapabilitiesQuery(p))
    case SinkCapabilitiesResponseClass =>
      var p :- ParseSinkCapabilitiesResponse(input, prologue, profile);
      Ok(SinkCapabilitiesResponse(p))
    case StatusReportClass =>
      var p :- ParseStatusReport(input, prologue, profile);
      Ok(StatusReport(p))
  }

  function ParseData(input: seq<u8>, prologue: Prologue, profile: StandardProfile)
    : Result<SignalDataPacket, ParseError>
    requires |input| >= 28
  {
    var packetClass := prologue.classId.packetClass;
    var informationClass := prologue.classId.informationClass;
    if prologue.header.packetSizeWords < 7 then
      Err(PacketSizeTooSmall(prologue.header.packetSizeWords))
    else
    var payload := input[28..];
    var padBitCount := prologue.classId.padBitCount;
    if padBitCount != 0 && !profile.PermitsDataPadding(informationClass, packetClass) then
      Err(PadBitsNotAllowed(informationClass, packetClass, padBitCount))
    else
    var _ :- ValidateDataPadding(payload, padBitCount);
    Ok(SignalDataPacket(prologue, payload))
  }

  function ParseSignalContext(input: seq<u8>, prologue: Prologue, profile: StandardProfile)
    : Result<SignalContextPacket, ParseError>
  {
    var _ :- profile.ExpectPacketSize(SignalContextLayout, prologue.classId.packetClass,
                                      prologue.header.packetSizeWords);
    var _ :- ExpectNoPadding(prologue);
    var cif0 :- ReadU32(input, 7);
    var _ :- profile.ExpectSignalContextCif0(cif0);
    var bandwidth :- ReadU64(input, 9);
    var sampleRate :- ReadU64(input, 19);
    var _ :- ValidateFixedIntegerHz(FContextBandwidth, bandwidth);
    var _ :- ValidateFixedIntegerHz(FContextSampleRate, sampleRate);
    var ifReferenceFrequency :- ReadI64(input, 11);
    var rfReferenceFrequency :- ReadI64(input, 13);
    var ifBandOffset :- ReadI64(input, 15);
    var _ :- ValidateFixedIntegerHz(FContextIfReference, U64OfI64(ifReferenceFrequency));
    var _ :- ValidateFixedIntegerHz(FContextRfReference, U64OfI64(rfReferenceFrequency));
    var _ :- ValidateFixedIntegerHz(FContextIfBandOffset, U64OfI64(ifBandOffset));
    var referencePoint :- ReadU32(input, 8);
    var levels :- ReadU32(input, 17);
    var gains :- ReadU32(input, 18);
    var timestampAdjustment :- ReadI64(input, 21);
    var timestampCalibrationTime :- ReadU32(input, 23);
    var stateAndEventIndicators :- ReadU32(input, 24);
    var format0 :- ReadU32(input, 25);
    var format1 :- ReadU32(input, 26);
    var payloadFormat :- ParsePayloadFormat(format0, format1);
    Ok(SignalContextPacket(
         prologue, cif0, cif0 == CIF_CONTEXT_CHANGED, referencePoint, bandwidth,
         ifReferenceFrequency, rfReferenceFrequency, ifBandOffset,
         I16OfU16(levels / 0x1_0000), I16OfU16(levels % 0x1_0000),
         gains / 0x1_0000, gains % 0x1_0000,
         sampleRate, timestampAdjustment, timestampCalibrationTime, stateAndEventIndicators, payloadFormat))
  }

  function ParseVersionContext(input: seq<u8>, prologue: Prologue, profile: StandardProfile)
    : Result<VersionContextPacket, ParseError>
  {
    var _ :- profile.ExpectPacketSize(VersionContextLayout, prologue.classId.packetClass,
                                      prologue.header.packetSizeWords);
    var _ :- ExpectNoPadding(prologue);
    var cif0 :- ReadU32(input, 7);
    var _ :- profile.ExpectVersionContextCif0(cif0);
    var cif1 :- ReadU32(input, 8);
    var _ :- profile.ExpectVersionContextCif1(cif1);
    var vita49SpecVersion :- ReadU32(input, 9);
    var _ :- profile.ExpectVita49SpecVersion(vita49SpecVersion);
    var versionWord :- ReadU32(input, 10);
    var deviceType := versionWord / 64 % 16;
    var icdVersionCode := versionWord % 64;
    if deviceType != 0 then Err(InvalidFieldValue(FVersionDeviceType, 0, deviceType)) else
    if icdVersionCode != Version1.Raw() then
      Err(InvalidFieldValue(FDifiIcdVersion, Version1.Raw(), icdVersionCode))
    else
    Ok(VersionContextPacket(
         prologue, cif0, cif0 == CIF_VERSION_CHANGED, cif1, vita49SpecVersion,
         versionWord / 0x200_0000, versionWord / 0x1_0000 % 0x200, versionWord / 0x400 % 64,
         deviceType, Version1))
  }

  function ParseTimingFlowControl(input: seq<u8>, prologue: Prologue, profile: StandardProfile)
    : Result<TimingFlowControlPacket, ParseError>
  {
    var _ :- profile.ExpectPacketSize(TimingFlowControlLayout, prologue.classId.packetClass,
                                      prologue.header.packetSizeWords);
    var _ :- ExpectNoPadding(prologue);
    var common :- ParseCommon(input);
    var _ :- profile.ExpectTimingFlowControlCam(common.cam);
    var cif0 :- ReadU32(input, 11);
    var cif1 :- ReadU32(input, 12);
    var _ :- profile.ExpectTimingFlowControlCif0(cif0);
    var _ :- profile.ExpectTimingFlowControlCif1(cif1);
    var sampleRate :- ReadU64(input, 14);
    var _ :- ValidateFixedIntegerHz(FTimingSampleRate, sampleRate);
    var bufferStatus :- ReadU32(input, 20);
    if bufferStatus / 0x1_0000 != 0 then
      Err(ReservedBitsNonZero(FBufferStatus, bufferStatus / 0x1_0000))
    else
    var referencePoint :- ReadU32(input, 13);
    var timestampAdjustment :- ReadI64(input, 16);
    var bufferSizeBytes :- ReadU64(input, 18);
    Ok(TimingFlowControlPacket(
         prologue, common, cif0, cif1, referencePoint, sampleRate, timestampAdjustment, bufferSizeBytes,
         DecodeBufferStatus(bufferStatus)))
  }

  function DecodeBufferStatus(raw: u32): BufferStatus {
    var bufferLevel := raw / 16 % 0x1000;
    var flags := raw % 16;
    BufferStatus(raw, bufferLevel, flags / 8 % 2 != 0, flags / 4 % 2 != 0, flags / 2 % 2 != 0, flags % 2 != 0)
  }

  function ParseSinkCapabilitiesQuery(input: seq<u8>, prologue: Prologue, profile: StandardProfile)
    : Result<SinkCapabilitiesQueryPacket, ParseError>
  {
    var _ :- ExpectNoPadding(prologue);
    var common :- ParseCommon(input);
    var _ :- profile.ExpectSinkCapabilitiesQueryCam(common.cam);
    var cif0 :- ReadU32(input, 11);
    var isShort := cif0 / 0x8000_0000 != 0;
    if isShort then
      var _ :- profile.ExpectPacketSize(SinkCapabilitiesQueryShort, prologue.classId.packetClass,
                                        prologue.header.packetSizeWords);
      var _ :- profile.ExpectSinkCapabilitiesShortQueryCif0(cif0);
      var integerTime :- ReadU32(input, 12);
      var fractionalTime :- ReadU64(input, 13);
      Ok(SinkCapabilitiesQueryPacket(prologue, common, Short, cif0, None, Some(integerTime), Some(fractionalTime)))
    else
      var _ :- profile.ExpectPacketSize(SinkCapabilitiesQueryLong, prologue.classId.packetClass,
                                        prologue.header.packetSizeWords);
      var _ :- profile.ExpectSinkCapabilitiesLongQueryCif0(cif0);
      var cif1 :- ReadU32(input, 12);
      var _ :- profile.ExpectSinkCapabilitiesLongQueryCif1(cif1);
      Ok(SinkCapabilitiesQueryPacket(prologue, common, Long, cif0, Some(cif1), None, None))
  }

  function ParseSinkCapabilitiesResponse(input: seq<u8>, prologue: Prologue, profile: StandardProfile)
    : Result<SinkCapabilitiesResponsePacket, ParseError>
  {
    var _ :- ExpectNoPadding(prologue);
    var common :- ParseCommon(input);
    var _ :- profile.ExpectSinkCapabilitiesResponseCam(common.cam);
    var cif0 :- ReadU32(input, 11);
    var isShort := cif0 / 0x8000_0000 != 0;
    if isShort then
      var _ :- profile.ExpectPacketSize(SinkCapabilitiesResponseShort, prologue.classId.packetClass,
                                        prologue.header.packetSizeWords);
      var _ :- profile.ExpectSinkCapabilitiesShortResponseCif0(cif0);
      var controlInteger :- ReadU32(input, 12);
      var controlFractional :- ReadU64(input, 13);
      var receptionInteger :- ReadU32(input, 15);
      var receptionFractional :- ReadU64(input, 16);
      Ok(SinkCapabilitiesResponsePacket(
           prologue, common, Short, cif0, None, Some(controlInteger), Some(controlFractional),
           Some(receptionInteger), Some(receptionFractional), []))
    else if prologue.header.packetSizeWords <= 13 then
      Err(InvalidPacketSize(prologue.classId.packetClass, 14, prologue.header.packetSizeWords))
    else
      var _ :- profile.ExpectSinkCapabilitiesLongResponseCif0(cif0);
      var cif1 :- ReadU32(input, 12);
      var _ :- profile.ExpectSinkCapabilitiesLongResponseCif1(cif1);
      Ok(SinkCapabilitiesResponsePacket(
           prologue, common, Long, cif0, Some(cif1), None, None, None, None, input[13 * 4..]))
  }

  function ParseStatusReport(input: seq<u8>, prologue: Prologue, profile: StandardProfile)
    : Result<StatusReportPacket, ParseError>
  {
    var packetSize := prologue.header.packetSizeWords;
    var _ :- profile.ValidateStatusReportSize(prologue.classId.packetClass, packetSize);
    var _ :- ExpectNoPadding(prologue);
    var common :- ParseCommon(input);
    var _ :- profile.ExpectStatusReportCam(common.cam);
    var cif0 :- ReadU32(input, 11);
    var _ :- profile.ExpectStatusReportCif0(cif0);
    var cif1 :- ReadU32(input, 12);
    var _ :- profile.ExpectStatusReportCif1(cif1);
    var packetErrors :- ReadU32(input, 13);
    var sinkErrorsWarnings :- ReadU32(input, 14);
    var expectedFlags := FlagsOfStatusSize(packetSize);
    var actualFlags := QuantitativeFlags(sinkErrorsWarnings);
    if actualFlags != expectedFlags then Err(InvalidFieldValue(FStatusFlags, expectedFlags, actualFlags)) else
    var referenceLevelLimit :- ParseReferenceLevelLimit(input, packetSize);
    var (sampleRateLimit, bandwidthLimit) :- ParseRateLimits(input, packetSize);
    Ok(StatusReportPacket(
         prologue, common, cif0, cif1, packetErrors, sinkErrorsWarnings,
         referenceLevelLimit, sampleRateLimit, bandwidthLimit))
  }

  /** The two presence flags that a size admits; the source's `unreachable!` arm is outside the domain. */
  function FlagsOfStatusSize(packetSize: u16): u32
    requires packetSize in STATUS_REPORT_SIZES
  {
    if packetSize == 15 then 0 else if packetSize == 17 then 0x10 else assert packetSize == 21; 0x18
  }

  /** `sink_errors_warnings & 0x18` */
  function QuantitativeFlags(sinkErrorsWarnings: u32): u32 {
    sinkErrorsWarnings / 8 % 4 * 8
  }

  function ParseReferenceLevelLimit(input: seq<u8>, packetSize: u16)
    : Result<Option<ReferenceLevelLimit>, ParseError>
  {
    if packetSize >= 17 then
      var minMax :- ReadU32(input, 15);
      var resolution :- ReadU32(input, 16);
      Ok(Some(ReferenceLevelLimit(minMax, resolution)))
    else Ok(None)
  }

  function ParseRateLimits(input: seq<u8>, packetSize: u16): Result<(Option<u64>, Option<u64>), ParseError> {
    if packetSize == 21 then
      var sampleRate :- ReadU64(input, 17);
      var bandwidth :- ReadU64(input, 19);
      var _ :- ValidateFixedIntegerHz(FStatusSampleRate, sampleRate);
      var _ :- ValidateFixedIntegerHz(FStatusBandwidth, bandwidth);
      Ok((Some(sampleRate), Some(bandwidth)))
    else Ok((None, None))
  }

  function ParseCommon(input: seq<u8>): Result<CommandCommon, ParseError> {
    var cam :- ReadU32(input, 7);
    var messageId :- ReadU32(input, 8);
    var controlleeId :- ReadU32(input, 9);
    var controllerId :- ReadU32(input, 10);
    Ok(CommandCommon(cam, messageId, controlleeId, controllerId))
  }

  function ExpectNoPadding(prologue: Prologue): Check {
    if prologue.classId.padBitCount == 0 then Ok(())
    else Err(PadBitsNotAllowed(prologue.classId.informationClass, prologue.classId.packetClass,
                               prologue.classId.padBitCount))
  }

  /** `2^n`, written `1 << n` in the source. */
  function Pow2(n: nat): (r: nat)
    ensures r > 0
  {
    if n == 0 then 1 else 2 * Pow2(n - 1)
  }

  function ValidateDataPadding(payload: seq<u8>, padBitCount: u8): Check {
    if padBitCount == 0 then Ok(()) else
    var payloadBits := |payload| * 8;
    // two tests in the source, with one and the same error
    if padBitCount > payloadBits || payload == [] then Err(InvalidPadding(padBitCount, payloadBits)) else
    var fullPadBytes := padBitCount / 8;
    var partialPadBits := padBitCount % 8;
    if fullPadBytes != 0 && exists k :: |payload| - fullPadBytes <= k < |payload| && payload[k] != 0 then
      Err(NonZeroPaddingBits)
    else if partialPadBits != 0 && payload[|payload| - fullPadBytes - 1] % Pow2(partialPadBits) != 0 then
      Err(NonZeroPaddingBits)
    else Ok(())
  }
}
