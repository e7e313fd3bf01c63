/**
 The typed packet model and its bit fields (src/header.rs, src/information.rs,
 src/class_id.rs, src/payload_format.rs, src/packet.rs, src/data.rs,
 src/context.rs, src/version.rs, src/command.rs, src/error.rs,
 src/validation.rs).

 A borrowed slice is modelled as the byte sequence it denotes.
 */
module Wire {
  import opened Wrappers
  import opened Raw

  // ---- header.rs ----

  datatype PacketType =
    | SignalDataWithStreamId
    | ContextWithStreamId
    | VersionWithStreamId
    | CommandWithStreamId
    | ExtensionCommandWithStreamId
  {
    function Raw(): u8 {
      match this
      case SignalDataWithStreamId => 1
      case ContextWithStreamId => 4
      case VersionWithStreamId => 5
      case CommandWithStreamId => 6
      case ExtensionCommandWithStreamId => 7
    }

    static function TryFrom(value: u8): (r: Result<PacketType, ParseError>)
      ensures r.Ok? ==> r.value.Raw() == value
    {
      match value
      case 1 => Ok(SignalDataWithStreamId)
      case 4 => Ok(ContextWithStreamId)
      case 5 => Ok(VersionWithStreamId)
      case 6 => Ok(CommandWithStreamId)
      case 7 => Ok(ExtensionCommandWithStreamId)
      case _ => Err(UnsupportedPacketType(value))
    }
  }

  datatype Tsi = Utc | Gps | Posix {
    function Raw(): u8 {
      match this
      case Utc => 1
      case Gps => 2
      case Posix => 3
    }

    static function TryFrom(value: u8): (r: Result<Tsi, ParseError>)
      ensures r.Ok? ==> r.value.Raw() == value
    {
      match value
      case 1 => Ok(Utc)
      case 2 => Ok(Gps)
      case 3 => Ok(Posix)
      case _ => Err(InvalidTsi(value))
    }
  }

  datatype Tsf = SampleCount | RealTimePicoseconds {
    function Raw(): u8 {
      match this
      case SampleCount => 1
      case RealTimePicoseconds => 2
    }

    static function TryFrom(value: u8): (r: Result<Tsf, ParseError>)
      ensures r.Ok? ==> r.value.Raw() == value
    {
      match value
      case 1 => Ok(SampleCount)
      case 2 => Ok(RealTimePicoseconds)
      case _ => Err(InvalidTsf(value))
    }
  }

  datatype TimestampMode = Fine | Coarse {
    function Raw(): u8 {
      match this
      case Fine => 0
      case Coarse => 1
    }
  }

  datatype PacketHeader = PacketHeader(
    raw: u32,
    packetType: PacketType,
    classIdIndicator: bool,
    typeSpecificBits: u8,
    tsm: Option<TimestampMode>,
    tsi: Tsi,
    tsf: Tsf,
    sequence: u8,
    packetSizeWords: u16)

  function TsmOf(packetType: PacketType, typeSpecificBits: u8): Option<TimestampMode> {
    match packetType
    case ContextWithStreamId | VersionWithStreamId =>
      if typeSpecificBits % 2 == 1 then Some(Coarse) else Some(Fine)
    case _ => None
  }

  /** Bit layout: type 4, class-id indicator 1, type-specific 3, TSI 2, TSF 2, sequence 4, size 16. */
  function ParseHeader(raw: u32): (r: Result<PacketHeader, ParseError>) {
    var packetType :- PacketType.TryFrom(raw / 0x1000_0000);
    var classIdIndicator := raw / 0x800_0000 % 2 == 1;
    var typeSpecificBits := raw / 0x100_0000 % 8;
    var tsi :- Tsi.TryFrom(raw / 0x40_0000 % 4);
    var tsf :- Tsf.TryFrom(raw / 0x10_0000 % 4);
    var sequence := raw / 0x1_0000 % 16;
    var packetSizeWords := raw % 0x1_0000;
    Ok(PacketHeader(raw, packetType, classIdIndicator, typeSpecificBits,
                    TsmOf(packetType, typeSpecificBits), tsi, tsf, sequence, packetSizeWords))
  }

  // ---- information.rs ----

  datatype InformationClassCode =
    | BasicDataPlane
    | VersionFlow
    | DataPlaneUpstreamFlowControlSampleCount
    | DataPlaneUpstreamFlowControlRealTime
    | BasicDataPlaneSampleCount
    | DataPlaneDownstreamFlowControlSampleCount
    | DataPlaneDownstreamFlowControlRealTime
    | BasicDataPlaneWithLinkEstablishment
    | StandaloneLinkEstablishment
    | DataPlaneUpstreamFlowControlSampleCountWithLinkEstablishment
    | DataPlaneUpstreamFlowControlRealTimeWithLinkEstablishment
    | BasicDataPlaneSampleCountWithLinkEstablishment
    | DataPlaneDownstreamFlowControlSampleCountWithLinkEstablishment
    | DataPlaneDownstreamFlowControlRealTimeWithLinkEstablishment
  {
    function Raw(): u16 {
      match this
      case BasicDataPlane => 0x0000
      case VersionFlow => 0x0001
      case DataPlaneUpstreamFlowControlSampleCount => 0x0002
      case DataPlaneUpstreamFlowControlRealTime => 0x0003
      case BasicDataPlaneSampleCount => 0x0004
      case DataPlaneDownstreamFlowControlSampleCount => 0x0005
      case DataPlaneDownstreamFlowControlRealTime => 0x0006
      case BasicDataPlaneWithLinkEstablishment => 0x0100
      case StandaloneLinkEstablishment => 0x0101
      case DataPlaneUpstreamFlowControlSampleCountWithLinkEstablishment => 0x0102
      case DataPlaneUpstreamFlowControlRealTimeWithLinkEstablishment => 0x0103
      case BasicDataPlaneSampleCountWithLinkEstablishment => 0x0104
      case DataPlaneDownstreamFlowControlSampleCountWithLinkEstablishment => 0x0105
      case DataPlaneDownstreamFlowControlRealTimeWithLinkEstablishment => 0x0106
    }

    static function TryFrom(value: u16): (r: Result<InformationClassCode, ParseError>)
      ensures r.Ok? ==> r.value.Raw() == value
    {
      match value
      case 0x0000 => Ok(BasicDataPlane)
      case 0x0001 => Ok(VersionFlow)
      case 0x0002 => Ok(DataPlaneUpstreamFlowControlSampleCount)
      case 0x0003 => Ok(DataPlaneUpstreamFlowControlRealTime)
      case 0x0004 => Ok(BasicDataPlaneSampleCount)
      case 0x0005 => Ok(DataPlaneDownstreamFlowControlSampleCount)
      case 0x0006 => Ok(DataPlaneDownstreamFlowControlRealTime)
      case 0x0100 => Ok(BasicDataPlaneWithLinkEstablishment)
      case 0x0101 => Ok(StandaloneLinkEstablishment)
      case 0x0102 => Ok(DataPlaneUpstreamFlowControlSampleCountWithLinkEstablishment)
      case 0x0103 => Ok(DataPlaneUpstreamFlowControlRealTimeWithLinkEstablishment)
      case 0x0104 => Ok(BasicDataPlaneSampleCountWithLinkEstablishment)
      case 0x0105 => Ok(DataPlaneDownstreamFlowControlSampleCountWithLinkEstablishment)
      case 0x0106 => Ok(DataPlaneDownstreamFlowControlRealTimeWithLinkEstablishment)
      case _ => Err(UnknownInformationClass(value))
    }
  }

  datatype PacketClassCode =
    | StandardFlowSignalData
    | StandardFlowSignalContext
    | SampleCountSignalData
    | SampleCountSignalContext
    | VersionFlowSignalContext
    | SampleCountTimingFlowControl
    | RealTimeTimingFlowControl
    | SinkCapabilitiesQueryClass
    | SinkCapabilitiesResponseClass
    | StatusReportClass
  {
    function Raw(): u16 {
      match this
      case StandardFlowSignalData => 0
      case StandardFlowSignalContext => 1
      case SampleCountSignalData => 2
      case SampleCountSignalContext => 3
      case VersionFlowSignalContext => 4
      case SampleCountTimingFlowControl => 5
      case RealTimeTimingFlowControl => 6
      case SinkCapabilitiesQueryClass => 7
      case SinkCapabilitiesResponseClass => 8
      case StatusReportClass => 9
    }

    static function TryFrom(value: u16): (r: Result<PacketClassCode, ParseError>)
      ensures r.Ok? ==> r.value.Raw() == value
    {
      match value
      case 0 => Ok(StandardFlowSignalData)
      case 1 => Ok(StandardFlowSignalContext)
      case 2 => Ok(SampleCountSignalData)
      case 3 => Ok(SampleCountSignalContext)
      case 4 => Ok(VersionFlowSignalContext)
      case 5 => Ok(SampleCountTimingFlowControl)
      case 6 => Ok(RealTimeTimingFlowControl)
      case 7 => Ok(SinkCapabilitiesQueryClass)
      case 8 => Ok(SinkCapabilitiesResponseClass)
      case 9 => Ok(StatusReportClass)
      case _ => Err(UnknownPacketClass(value))
    }
  }

  // ---- class_id.rs ----

  const DIFI_CID: u32 := 0x6A_621E

  datatype ClassId = ClassId(
    padBitCount: u8,
    oui: u32,
    informationClass: InformationClassCode,
    packetClass: PacketClassCode)

  /** Bit layout: pad count 5, reserved 3, OUI 24; information class 16, packet class 16. */
  function ParseClassId(word0: u32, word1: u32): (r: Result<ClassId, ParseError>) {
    var padBitCount := word0 / 0x800_0000;
    var reserved := word0 / 0x100_0000 % 8;
    if reserved != 0 then Err(ReservedBitsNonZero(FClassIdentifier, reserved)) else
    var oui := word0 % 0x100_0000;
    if oui != DIFI_CID then Err(InvalidOui(oui)) else
    var informationClass :- InformationClassCode.TryFrom(word1 / 0x1_0000);
    var packetClass :- PacketClassCode.TryFrom(word1 % 0x1_0000);
    Ok(ClassId(padBitCount, oui, informationClass, packetClass))
  }

  // ---- payload_format.rs ----

  datatype PayloadSampleFormat = ComplexSignedCartesian

  datatype PayloadFormat = PayloadFormat(
    rawWord0: u32,
    rawWord1: u32,
    sampleFormat: PayloadSampleFormat,
    dataItemSizeBits: u8,
    itemPackingFieldSizeBits: u8)

  function ParsePayloadFormat(word0: u32, word1: u32): (r: Result<PayloadFormat, ParseError>) {
    var dataItemSizeMinusOne := word0 % 64;
    var itemPackingMinusOne := word0 / 64 % 64;
    var fixedBits := word0 - word0 % 0x1000;
    var dataItemSizeBits := dataItemSizeMinusOne + 1;
    var itemPackingFieldSizeBits := itemPackingMinusOne + 1;
    if fixedBits != 0xA000_0000
       || word1 != 0
       || dataItemSizeMinusOne != itemPackingMinusOne
       || !(4 <= dataItemSizeBits <= 16)
    then Err(InvalidPayloadFormat(word0, word1))
    else Ok(PayloadFormat(word0, word1, ComplexSignedCartesian, dataItemSizeBits, itemPackingFieldSizeBits))
  }

  // ---- packet.rs, data.rs, context.rs, version.rs, command.rs ----

  datatype Prologue = Prologue(
    header: PacketHeader,
    streamId: u32,
    classId: ClassId,
    integerSecondsTimestamp: u32,
    fractionalSecondsTimestamp: u64)

  datatype SignalDataPacket = SignalDataPacket(prologue: Prologue, payload: seq<u8>)

  datatype SignalContextPacket = SignalContextPacket(
    prologue: Prologue,
    cif0: u32,
    contextChanged: bool,
    referencePoint: u32,
    bandwidth: u64,
    ifReferenceFrequency: i64,
    rfReferenceFrequency: i64,
    ifBandOffset: i64,
    scalingLevel: i16,
    referenceLevel: i16,
    gain2: u16,
    gain1: u16,
    sampleRate: u64,
    timestampAdjustment: i64,
    timestampCalibrationTime: u32,
    stateAndEventIndicators: u32,
    payloadFormat: PayloadFormat)

  datatype DifiVersionCode = Version1 {
    function Raw(): u8 {
      0
    }
  }

  datatype VersionContextPacket = VersionContextPacket(
    prologue: Prologue,
    cif0: u32,
    contextChanged: bool,
    cif1: u32,
    vita49SpecVersion: u32,
    year: u8,
    day: u16,
    revision: u8,
    deviceType: u8,
    icdVersion: DifiVersionCode)

  datatype CapabilityForm = Long | Short

  datatype CommandCommon = CommandCommon(cam: u32, messageId: u32, controlleeId: u32, controllerId: u32)

  datatype BufferStatus = BufferStatus(
    raw: u32,
    bufferLevel: u16,
    overflow: bool,
    nearlyFull: bool,
    nearlyEmpty: bool,
    underflow: bool)

  datatype TimingFlowControlPacket = TimingFlowControlPacket(
    prologue: Prologue,
    common: CommandCommon,
    cif0: u32,
    cif1: u32,
    referencePoint: u32,
    sampleRate: u64,
    timestampAdjustment: i64,
    bufferSizeBytes: u64,
    bufferStatus: BufferStatus)

  datatype SinkCapabilitiesQueryPacket = SinkCapabilitiesQueryPacket(
    prologue: Prologue,
    common: CommandCommon,
    form: CapabilityForm,
    cif0: u32,
    cif1: Option<u32>,
    sinkTimeCalibrationInteger: Option<u32>,
    sinkTimeCalibrationFractional: Option<u64>)

  datatype SinkCapabilitiesResponsePacket = SinkCapabilitiesResponsePacket(
    prologue: Prologue,
    common: CommandCommon,
    form: CapabilityForm,
    cif0: u32,
    cif1: Option<u32>,
    controlPacketIntegerTimestamp: Option<u32>,
    controlPacketFractionalTimestamp: Option<u64>,
    sinkReceptionIntegerTimestamp: Option<u32>,
    sinkReceptionFractionalTimestamp: Option<u64>,
    capabilityTable: seq<u8>)

  datatype ReferenceLevelLimit = ReferenceLevelLimit(rawMinMax: u32, rawResolutionReserved: u32)

  datatype StatusReportPacket = StatusReportPacket(
    prologue: Prologue,
    common: CommandCommon,
    cif0: u32,
    cif1: u32,
    packetErrors: u32,
    sinkErrorsWarnings: u32,
    referenceLevelLimit: Option<ReferenceLevelLimit>,
    sampleRateLimit: Option<u64>,
    bandwidthLimit: Option<u64>)

  datatype Packet =
    | SignalData(signalData: SignalDataPacket)
    | SignalContext(signalContext: SignalContextPacket)
    | VersionContext(versionContext: VersionContextPacket)
    | TimingFlowControl(timingFlowControl: TimingFlowControlPacket)
    | SinkCapabilitiesQuery(query: SinkCapabilitiesQueryPacket)
    | SinkCapabilitiesResponse(response: SinkCapabilitiesResponsePacket)
    | StatusReport(statusReport: StatusReportPacket)
  {
    function Prologue(): Prologue {
      match this
      case SignalData(p) => p.prologue
      case SignalContext(p) => p.prologue
      case VersionContext(p) => p.prologue
      case TimingFlowControl(p) => p.prologue
      case SinkCapabilitiesQuery(p) => p.prologue
      case SinkCapabilitiesResponse(p) => p.prologue
      case StatusReport(p) => p.prologue
    }
  }

  // ---- standard.rs: the option values that errors mention ----

  datatype DifiStandardVersion = V1_1 | V1_2_1 | V1_3_0

  datatype CompatibilityMode = Strict | LegacyVersionPacketType

  datatype ParseOptions = ParseOptions(standard: DifiStandardVersion, compatibility: CompatibilityMode)

  /** The writer's options are the same two fields. */
  type WriteOptions = ParseOptions

  const DEFAULT: ParseOptions := ParseOptions(V1_3_0, Strict)

  // ---- error.rs, writer.rs: errors ----

  /** The field names carried by errors, one constructor for each string literal. */
  datatype FieldName =
    | FClassIdentifier
    | FTypeSpecific | FContextHeader | FExtensionTypeSpecific | FTimestampMode
    | FContextBandwidth | FContextSampleRate | FContextIfReference | FContextRfReference | FContextIfBandOffset
    | FSignalContextCif0
    | FVersionContextCif0 | FVersionContextCif1 | FVita49SpecVersion | FVersionDeviceType | FDifiIcdVersion
    | FTimingCam | FTimingCif0 | FTimingCif1 | FTimingSampleRate | FBufferStatus
    | FQueryCam | FShortQueryCif0 | FLongQueryCif0 | FLongQueryCif1
    | FResponseCam | FShortResponseCif0 | FLongResponseCif0 | FLongResponseCif1
    | FStatusCam | FStatusCif0 | FStatusCif1 | FStatusFlags | FStatusSampleRate | FStatusBandwidth
    // named by the writer only
    | FSequence | FHeaderSequence | FHeaderPacketType | FHeaderTypeSpecificBits | FHeaderClassIdIndicator
    | FHeaderPacketSizeWords | FHeaderTsm | FHeaderRaw | FPadBitCount | FOui
    | FContextChangedCif0 | FVersionChangedCif0
    | FYear | FDay | FRevision | FDeviceType | FIcdVersion
    | FSampleFormat | FDataItemSizeBits | FItemPackingFieldSizeBits | FPayloadFormatWord0 | FPayloadFormatWord1
    | FBufferLevel | FBufferStatusRaw | FCif1 | FCapabilityTable
    | FSinkTimeCalibrationInteger | FSinkTimeCalibrationFractional
    | FControlPacketIntegerTimestamp | FControlPacketFractionalTimestamp
    | FSinkReceptionIntegerTimestamp | FSinkReceptionFractionalTimestamp
    | FReferenceLevelLimit | FSampleRateLimit | FBandwidthLimit | FQuantitativeFlags

  datatype ParseError =
    | InputTooShort(min: nat, actualLen: nat)
    | PacketSizeTooSmall(words: u16)
    | PacketTruncated(needed: nat, available: nat)
    | TrailingBytes(trailing: nat)
    | UnsupportedPacketType(typeValue: u8)
    | MissingClassId
    | ReservedBitsNonZero(reservedField: FieldName, bits: u32)
    | InvalidOui(oui: u32)
    | InvalidTsi(tsiValue: u8)
    | InvalidTsf(tsfValue: u8)
    | UnknownInformationClass(informationValue: u16)
    | UnknownPacketClass(classValue: u16)
    | PacketTypeNotAvailableInStandard(standard: DifiStandardVersion, packetType: PacketType)
    | PacketClassNotAvailableInStandard(standard: DifiStandardVersion, packetClass: PacketClassCode)
    | PacketClassNotInInformationClass(informationClass: InformationClassCode, packetClass: PacketClassCode)
    | PacketTypeClassMismatch(packetType: PacketType, packetClass: PacketClassCode)
    | InvalidTsfForPacketClass(packetClass: PacketClassCode, expectedTsf: Tsf, actualTsf: Tsf)
    | InvalidTsiForPacketClass(packetClass: PacketClassCode, actualTsi: Tsi)
    | InvalidHeaderBits(headerField: FieldName, expectedBits: u8, actualBits: u8)
    | InvalidPacketSize(packetClass: PacketClassCode, expectedWords: u16, actualWords: u16)
    | InvalidPacketSizeSet(packetClass: PacketClassCode, expectedSet: seq<u16>, actualWords: u16)
    | PadBitsNotAllowed(informationClass: InformationClassCode, packetClass: PacketClassCode, padBitCount: u8)
    | InvalidPadding(padBitCount: u8, payloadBits: nat)
    | NonZeroPaddingBits
    | InvalidFieldValue(valueField: FieldName, expectedValue: u32, actualValue: u32)
    | InvalidFieldValueSet(valueField: FieldName, actualValue: u32)
    | InvalidPayloadFormat(word0: u32, word1: u32)
    | FractionalHzNotAllowed(hzField: FieldName, raw: u64)

  datatype WriteError =
    | OutputTooSmall(needed: nat, actualLen: nat)
    | PacketTooLarge(words: nat)
    | PayloadLengthNotWordAligned(len: nat)
    | CapabilityTableLengthNotWordAligned(len: nat)
    | OddComplexI8SampleCount(samples: nat)
    | FieldOutOfRange(field: FieldName, max: u64, actual: u64)
    | MissingField(field: FieldName)
    | UnexpectedField(field: FieldName)
    | FieldMismatch(field: FieldName, expected: u64, actual: u64)
    | Profile(source: ParseError)

  /** A check that yields nothing but a verdict. */
  type Check = Result<(), ParseError>

  // ---- validation.rs ----

  function ValidateFixedIntegerHz(field: FieldName, raw: u64): Check {
    if raw % 0x10_0000 == 0 then Ok(()) else Err(FractionalHzNotAllowed(field, raw))
  }

  function ExpectWord(field: FieldName, expected: u32, actual: u32): Check {
    if actual == expected then Ok(()) else Err(InvalidFieldValue(field, expected, actual))
  }

  function ExpectWordOneOf(field: FieldName, actual: u32, allowed: seq<u32>): Check {
    if actual in allowed then Ok(()) else Err(InvalidFieldValueSet(field, actual))
  }

  function ExpectBits(field: FieldName, expected: u8, actual: u8): Check {
    if actual == expected then Ok(()) else Err(InvalidHeaderBits(field, expected, actual))
  }
}
