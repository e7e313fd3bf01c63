/** The validation profile of a DIFI standard version (src/standard.rs). */
module Standard {
  import opened Wrappers
  import opened Raw
  import opened Wire

  const CIF_CONTEXT_CHANGED: u32 := 0xFBB9_8000
  const CIF_CONTEXT_UNCHANGED: u32 := 0x7BB9_8000
  const CIF_VERSION_CHANGED: u32 := 0x8000_0002
  const CIF_VERSION_UNCHANGED: u32 := 0x0000_0002
  const CIF_VERSION_1: u32 := 0x0000_000C
  const VITA49_SPEC_VERSION: u32 := 0x0000_0004
  const CAM_CONTROL_EXECUTE: u32 := 0xA100_0000
  const CAM_EXTENSION_CONTROL_VALIDATE: u32 := 0xA110_0000
  const CAM_EXTENSION_ACK_VALIDATE: u32 := 0xA110_0400
  const CAM_STATUS_REPORT_EXECUTE: u32 := 0xA108_0000
  const CIF_COMMAND_LONG: u32 := 0x7BB9_8002
  const CIF_COMMAND_SHORT: u32 := 0x8000_0000
  const CIF_CONTROL_FLOW_0: u32 := 0x4030_0002
  const CIF_CONTROL_FLOW_1: u32 := 0x0000_0002

  const STATUS_REPORT_SIZES: seq<u16> := [15, 17, 21]

  datatype PacketLayout =
    | SignalContextLayout
    | VersionContextLayout
    | TimingFlowControlLayout
    | SinkCapabilitiesQueryLong
    | SinkCapabilitiesQueryShort
    | SinkCapabilitiesResponseShort

  // ---- the membership tables of the three versions ----

  predicate StandardFlow(p: PacketClassCode) {
    p.StandardFlowSignalData? || p.StandardFlowSignalContext?
  }

  predicate SampleCountFlow(p: PacketClassCode) {
    p.SampleCountSignalData? || p.SampleCountSignalContext?
  }

  predicate LinkEstablishment(p: PacketClassCode) {
    p.SinkCapabilitiesQueryClass? || p.SinkCapabilitiesResponseClass? || p.StatusReportClass?
  }

  predicate AllowedIn11(informationClass: InformationClassCode, p: PacketClassCode) {
    match informationClass
    case BasicDataPlane => StandardFlow(p)
    case VersionFlow => p.VersionFlowSignalContext?
    case _ => false
  }

  predicate AllowedIn121(informationClass: InformationClassCode, p: PacketClassCode) {
    match informationClass
    case BasicDataPlane => StandardFlow(p)
    case VersionFlow => p.VersionFlowSignalContext?
    case DataPlaneUpstreamFlowControlSampleCount | DataPlaneDownstreamFlowControlSampleCount =>
      SampleCountFlow(p) || p.SampleCountTimingFlowControl?
    case DataPlaneUpstreamFlowControlRealTime | DataPlaneDownstreamFlowControlRealTime =>
      StandardFlow(p) || p.RealTimeTimingFlowControl?
    case BasicDataPlaneSampleCount => SampleCountFlow(p)
    case _ => false
  }

  predicate AllowedIn130(informationClass: InformationClassCode, p: PacketClassCode) {
    match informationClass
    case BasicDataPlane => StandardFlow(p)
    case VersionFlow => p.VersionFlowSignalContext?
    case DataPlaneUpstreamFlowControlSampleCount | DataPlaneDownstreamFlowControlSampleCount =>
      SampleCountFlow(p) || p.SampleCountTimingFlowControl?
    case DataPlaneUpstreamFlowControlRealTime | DataPlaneDownstreamFlowControlRealTime =>
      StandardFlow(p) || p.RealTimeTimingFlowControl?
    case BasicDataPlaneSampleCount => SampleCountFlow(p)
    case BasicDataPlaneWithLinkEstablishment => StandardFlow(p) || LinkEstablishment(p)
    case StandaloneLinkEstablishment => p.SinkCapabilitiesQueryClass? || p.SinkCapabilitiesResponseClass?
    case DataPlaneUpstreamFlowControlSampleCountWithLinkEstablishment
      | DataPlaneDownstreamFlowControlSampleCountWithLinkEstablishment =>
      SampleCountFlow(p) || p.SampleCountTimingFlowControl? || LinkEstablishment(p)
    case DataPlaneUpstreamFlowControlRealTimeWithLinkEstablishment
      | DataPlaneDownstreamFlowControlRealTimeWithLinkEstablishment =>
      StandardFlow(p) || p.RealTimeTimingFlowControl? || LinkEstablishment(p)
    case BasicDataPlaneSampleCountWithLinkEstablishment => SampleCountFlow(p) || LinkEstablishment(p)
  }

  datatype StandardProfile = StandardProfile(options: ParseOptions) {

    predicate PacketTypeAvailable(packetType: PacketType) {
      match options.standard
      case V1_1 =>
        packetType.SignalDataWithStreamId? || packetType.ContextWithStreamId? || packetType.VersionWithStreamId?
      case V1_2_1 =>
        || packetType.SignalDataWithStreamId?
        || packetType.ContextWithStreamId?
        || packetType.CommandWithStreamId?
        || (packetType.VersionWithStreamId? && options.compatibility.LegacyVersionPacketType?)
      case V1_3_0 =>
        || packetType.SignalDataWithStreamId?
        || packetType.ContextWithStreamId?
        || packetType.CommandWithStreamId?
        || packetType.ExtensionCommandWithStreamId?
    }

    function ValidatePacketTypeAvailable(packetType: PacketType): Check {
      if PacketTypeAvailable(packetType) then Ok(())
      else Err(PacketTypeNotAvailableInStandard(options.standard, packetType))
    }

    predicate PacketClassAvailable(packetClass: PacketClassCode) {
      match options.standard
      case V1_1 =>
        || packetClass.StandardFlowSignalData?
        || packetClass.StandardFlowSignalContext?
        || packetClass.VersionFlowSignalContext?
      case V1_2_1 =>
        || packetClass.StandardFlowSignalData?
        || packetClass.StandardFlowSignalContext?
        || packetClass.SampleCountSignalData?
        || packetClass.SampleCountSignalContext?
        || packetClass.VersionFlowSignalContext?
        || packetClass.SampleCountTimingFlowControl?
        || packetClass.RealTimeTimingFlowControl?
      case V1_3_0 => true
    }

    function ValidatePacketClassAvailable(packetClass: PacketClassCode): Check {
      if PacketClassAvailable(packetClass) then Ok(())
      else Err(PacketClassNotAvailableInStandard(options.standard, packetClass))
    }

    predicate PacketTypeClass(packetType: PacketType, packetClass: PacketClassCode) {
      match packetType
      case SignalDataWithStreamId => packetClass.StandardFlowSignalData? || packetClass.SampleCountSignalData?
      case ContextWithStreamId =>
        || packetClass.StandardFlowSignalContext?
        || packetClass.SampleCountSignalContext?
        || (packetClass.VersionFlowSignalContext? && !options.standard.V1_1?)
      case VersionWithStreamId =>
        && packetClass.VersionFlowSignalContext?
        && (options.standard.V1_1?
            || (options.standard.V1_2_1? && options.compatibility.LegacyVersionPacketType?))
      case CommandWithStreamId =>
        packetClass.SampleCountTimingFlowControl? || packetClass.RealTimeTimingFlowControl?
      case ExtensionCommandWithStreamId =>
        || packetClass.SinkCapabilitiesQueryClass?
        || packetClass.SinkCapabilitiesResponseClass?
        || packetClass.StatusReportClass?
    }

    function ValidatePacketTypeClass(packetType: PacketType, packetClass: PacketClassCode): Check {
      if PacketTypeClass(packetType, packetClass) then Ok(())
      else Err(PacketTypeClassMismatch(packetType, packetClass))
    }

    function ValidateHeaderBits(header: PacketHeader, packetClass: PacketClassCode): Check {
      if !header.classIdIndicator then Err(MissingClassId) else
      match header.packetType
      case SignalDataWithStreamId | CommandWithStreamId =>
        ExpectBits(FTypeSpecific, 0, header.typeSpecificBits)
      case ContextWithStreamId | VersionWithStreamId =>
        var reserved := header.typeSpecificBits / 2 % 4 * 2;
        if reserved != 0 then Err(ReservedBitsNonZero(FContextHeader, reserved)) else Ok(())
      case ExtensionCommandWithStreamId =>
        var expected :=
          match packetClass
          case SinkCapabilitiesResponseClass => 4
          case SinkCapabilitiesQueryClass | StatusReportClass => 0
          case _ => header.typeSpecificBits;
        ExpectBits(FExtensionTypeSpecific, expected, header.typeSpecificBits)
    }

    predicate AllowsPacketClass(informationClass: InformationClassCode, packetClass: PacketClassCode) {
      match options.standard
      case V1_1 => AllowedIn11(informationClass, packetClass)
      case V1_2_1 => AllowedIn121(informationClass, packetClass)
      case V1_3_0 => AllowedIn130(informationClass, packetClass)
    }

    function ValidateClassMembership(informationClass: InformationClassCode, packetClass: PacketClassCode): Check {
      if AllowsPacketClass(informationClass, packetClass) then Ok(())
      else Err(PacketClassNotInInformationClass(informationClass, packetClass))
    }

    function ExpectedTsf(packetClass: PacketClassCode): Option<Tsf> {
      match packetClass
      case StandardFlowSignalData | StandardFlowSignalContext
        | VersionFlowSignalContext | RealTimeTimingFlowControl => Some(RealTimePicoseconds)
      case SampleCountSignalData | SampleCountSignalContext | SampleCountTimingFlowControl => Some(SampleCount)
      case SinkCapabilitiesQueryClass | SinkCapabilitiesResponseClass | StatusReportClass => None
    }

    function ValidateTsf(header: PacketHeader, packetClass: PacketClassCode): Check {
      match ExpectedTsf(packetClass)
      case None => Ok(())
      case Some(expected) =>
        if header.tsf != expected then Err(InvalidTsfForPacketClass(packetClass, expected, header.tsf)) else Ok(())
    }

    function ExpectedTsm(informationClass: InformationClassCode, packetClass: PacketClassCode)
      : Option<TimestampMode>
    {
      match packetClass
      case StandardFlowSignalContext => (
        match informationClass
        case BasicDataPlane | BasicDataPlaneWithLinkEstablishment => Some(Coarse)
        case _ => Some(Fine))
      case SampleCountSignalContext => Some(Fine)
      case VersionFlowSignalContext => Some(Coarse)
      case _ => None
    }

    function ValidateTsm(header: PacketHeader, informationClass: InformationClassCode, packetClass: PacketClassCode)
      : Check
    {
      match header.tsm
      case None => Ok(())
      case Some(actual) =>
        match ExpectedTsm(informationClass, packetClass)
        case None => Ok(())
        case Some(expected) =>
          if actual == expected then Ok(())
          else Err(InvalidHeaderBits(FTimestampMode, expected.Raw(), actual.Raw()))
    }

    /** The seven prologue checks, in the order in which parser and writer both make them. */
    function ValidateHeaderAndClass(header: PacketHeader, classId: ClassId): Check {
      var _ :- ValidatePacketTypeAvailable(header.packetType);
      var _ :- ValidatePacketClassAvailable(classId.packetClass);
      var _ :- ValidatePacketTypeClass(header.packetType, classId.packetClass);
      var _ :- ValidateHeaderBits(header, classId.packetClass);
      var _ :- ValidateClassMembership(classId.informationClass, classId.packetClass);
      var _ :- ValidateTsf(header, classId.packetClass);
      ValidateTsm(header, classId.informationClass, classId.packetClass)
    }

    predicate PermitsDataPadding(informationClass: InformationClassCode, packetClass: PacketClassCode) {
      if options.standard.V1_1? then false else
      var disallowedBasicFlow :=
        && (informationClass.BasicDataPlane? || informationClass.BasicDataPlaneWithLinkEstablishment?)
        && packetClass.StandardFlowSignalData?;
      !disallowedBasicFlow && (packetClass.StandardFlowSignalData? || packetClass.SampleCountSignalData?)
    }

    function ExpectPacketSize(layout: PacketLayout, packetClass: PacketClassCode, actual: u16): Check {
      var expected :=
        match layout
        case SignalContextLayout => 27
        case VersionContextLayout => 11
        case TimingFlowControlLayout => 21
        case SinkCapabilitiesQueryLong => 13
        case SinkCapabilitiesQueryShort => 15
        case SinkCapabilitiesResponseShort => 18;
      if actual == expected then Ok(()) else Err(InvalidPacketSize(packetClass, expected, actual))
    }

    function ValidateStatusReportSize(packetClass: PacketClassCode, actual: u16): Check {
      if actual in STATUS_REPORT_SIZES then Ok(())
      else Err(InvalidPacketSizeSet(packetClass, STATUS_REPORT_SIZES, actual))
    }

    function ExpectSignalContextCif0(actual: u32): Check {
      ExpectWordOneOf(FSignalContextCif0, actual, [CIF_CONTEXT_CHANGED, CIF_CONTEXT_UNCHANGED])
    }

    function ExpectVersionContextCif0(actual: u32): Check {
      ExpectWordOneOf(FVersionContextCif0, actual, [CIF_VERSION_CHANGED, CIF_VERSION_UNCHANGED])
    }

    function ExpectVersionContextCif1(actual: u32): Check {
      ExpectWord(FVersionContextCif1, CIF_VERSION_1, actual)
    }

    function ExpectVita49SpecVersion(actual: u32): Check {
      ExpectWord(FVita49SpecVersion, VITA49_SPEC_VERSION, actual)
    }

    function ExpectTimingFlowControlCam(actual: u32): Check {
      ExpectWord(FTimingCam, CAM_CONTROL_EXECUTE, actual)
    }

    function ExpectTimingFlowControlCif0(actual: u32): Check {
      ExpectWord(FTimingCif0, CIF_CONTROL_FLOW_0, actual)
    }

    function ExpectTimingFlowControlCif1(actual: u32): Check {
      ExpectWord(FTimingCif1, CIF_CONTROL_FLOW_1, actual)
    }

    function ExpectSinkCapabilitiesQueryCam(actual: u32): Check {
      ExpectWord(FQueryCam, CAM_EXTENSION_CONTROL_VALIDATE, actual)
    }

    function ExpectSinkCapabilitiesShortQueryCif0(actual: u32): Check {
      ExpectWord(FShortQueryCif0, CIF_COMMAND_SHORT, actual)
    }

    function ExpectSinkCapabilitiesLongQueryCif0(actual: u32): Check {
      ExpectWord(FLongQueryCif0, CIF_COMMAND_LONG, actual)
    }

    function ExpectSinkCapabilitiesLongQueryCif1(actual: u32): Check {
      ExpectWord(FLongQueryCif1, CIF_CONTROL_FLOW_1, actual)
    }

    function ExpectSinkCapabilitiesResponseCam(actual: u32): Check {
      ExpectWord(FResponseCam, CAM_EXTENSION_ACK_VALIDATE, actual)
    }

    function ExpectSinkCapabilitiesShortResponseCif0(actual: u32): Check {
      ExpectWord(FShortResponseCif0, CIF_COMMAND_SHORT, actual)
    }

    function ExpectSinkCapabilitiesLongResponseCif0(actual: u32): Check {
      ExpectWord(FLongResponseCif0, CIF_COMMAND_LONG, actual)
    }

    function ExpectSinkCapabilitiesLongResponseCif1(actual: u32): Check {
      ExpectWord(FLongResponseCif1, CIF_CONTROL_FLOW_1, actual)
    }

    function ExpectStatusReportCam(actual: u32): Check {
      ExpectWord(FStatusCam, CAM_STATUS_REPORT_EXECUTE, actual)
    }

    function ExpectStatusReportCif0(actual: u32): Check {
      ExpectWord(FStatusCif0, 0, actual)
    }

    function ExpectStatusReportCif1(actual: u32): Check {
      ExpectWord(FStatusCif1, 0, actual)
    }
  }
}
