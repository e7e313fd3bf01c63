/** Which error a rejected input gets: the first requirement on its words that fails. */
module Rejection {
  import opened Wrappers
  import opened Raw
  import opened Wire
  import opened Standard
  import opened RoundTrip
  import opened Profiles
  import opened Padding
  import opened FixedWords
  import opened Fields
  import opened Acceptance
  import P = Parser

  // ---- header and class ----

  /** The packet type codes of each version, and the packet class codes. */
  predicate TypeExists(options: ParseOptions, typeCode: u8) {
    match options.standard
    case V1_1 => typeCode == 1 || typeCode == 4 || typeCode == 5
    case V1_2_1 =>
      || typeCode == 1 || typeCode == 4 || typeCode == 6
      || (typeCode == 5 && options.compatibility.LegacyVersionPacketType?)
    case V1_3_0 => typeCode == 1 || typeCode == 4 || typeCode == 6 || typeCode == 7
  }

  predicate ClassExists(options: ParseOptions, classCode: u16) {
    match options.standard
    case V1_1 => classCode == 0 || classCode == 1 || classCode == 4
    case V1_2_1 => classCode <= 6
    case V1_3_0 => classCode <= 9
  }

  /** The error of a header and class id that the profile does not admit. */
  function AdmissionError(options: ParseOptions, h: PacketHeader, c: ClassId): Option<ParseError> {
    var typeCode, informationCode, classCode := h.packetType.Raw(), c.informationClass.Raw(), c.packetClass.Raw();
    var bits, expectedBits := h.typeSpecificBits, BitsOfCode(informationCode, classCode);
    if !TypeExists(options, typeCode) then
      Some(PacketTypeNotAvailableInStandard(options.standard, h.packetType))
    else if !ClassExists(options, classCode) then
      Some(PacketClassNotAvailableInStandard(options.standard, c.packetClass))
    else if !CodeCarries(typeCode, classCode, options) then
      Some(PacketTypeClassMismatch(h.packetType, c.packetClass))
    else if !h.classIdIndicator then Some(MissingClassId)
    else if (typeCode == 1 || typeCode == 6) && bits != 0 then Some(InvalidHeaderBits(FTypeSpecific, 0, bits))
    else if (typeCode == 4 || typeCode == 5) && bits > 1 then
      Some(ReservedBitsNonZero(FContextHeader, bits - bits % 2))
    else if typeCode == 7 && bits != expectedBits then
      Some(InvalidHeaderBits(FExtensionTypeSpecific, expectedBits, bits))
    else if !CodeOffers(informationCode, classCode)
            || (options.standard.V1_2_1? && informationCode >= 0x100)
            || (options.standard.V1_1? && informationCode > 1) then
      Some(PacketClassNotInInformationClass(c.informationClass, c.packetClass))
    else if (classCode == 2 || classCode == 3 || classCode == 5) && h.tsf.Raw() != 1 then
      Some(InvalidTsfForPacketClass(c.packetClass, SampleCount, RealTimePicoseconds))
    else if (classCode == 0 || classCode == 1 || classCode == 4 || classCode == 6) && h.tsf.Raw() != 2 then
      Some(InvalidTsfForPacketClass(c.packetClass, RealTimePicoseconds, SampleCount))
    else if bits != expectedBits then
      Some(InvalidHeaderBits(FTimestampMode, expectedBits, bits))
    else None
  }

  /** The seven prologue checks report that error. */
  lemma AdmissionErrorExactly(options: ParseOptions, h: PacketHeader, c: ClassId)
    requires h.typeSpecificBits <= 7 && h.tsm == TsmOf(h.packetType, h.typeSpecificBits)
    ensures StandardProfile(options).ValidateHeaderAndClass(h, c) ==
            match AdmissionError(options, h, c)
            case None => Ok(())
            case Some(e) => Err(e)
  {
    hide StandardProfile.AllowsPacketClass, CodeOffers;
    MembershipInCodes(options, c);
    match c.packetClass
    case StandardFlowSignalData | SampleCountSignalData =>
    case StandardFlowSignalContext | SampleCountSignalContext =>
    case VersionFlowSignalContext =>
    case SampleCountTimingFlowControl | RealTimeTimingFlowControl =>
    case SinkCapabilitiesQueryClass | SinkCapabilitiesResponseClass | StatusReportClass =>
  }

  lemma MembershipInCodes(options: ParseOptions, c: ClassId)
    ensures StandardProfile(options).AllowsPacketClass(c.informationClass, c.packetClass)
       <==> && CodeOffers(c.informationClass.Raw(), c.packetClass.Raw())
            && (options.standard.V1_2_1? ==> c.informationClass.Raw() < 0x100)
            && (options.standard.V1_1? ==> c.informationClass.Raw() <= 1)
  {
    hide StandardProfile.AllowsPacketClass;
    MembershipRule(options, c.informationClass, c.packetClass);
    match c.packetClass
    case StandardFlowSignalData | StandardFlowSignalContext =>
    case SampleCountSignalData | SampleCountSignalContext =>
    case _ =>
  }

  /** The error of the first seven words. */
  function PrologueError(b: seq<u8>, options: ParseOptions): Option<ParseError>
    requires |b| >= 28
  {
    var w0, w2, w3 := WordAt(b, 0), WordAt(b, 2), WordAt(b, 3);
    var typeCode, tsi, tsf := w0 / 0x1000_0000, w0 / 0x40_0000 % 4, w0 / 0x10_0000 % 4;
    var informationCode, classCode := w3 / 0x1_0000, w3 % 0x1_0000;
    if !(typeCode == 1 || 4 <= typeCode <= 7) then Some(UnsupportedPacketType(typeCode))
    else if tsi == 0 then Some(InvalidTsi(0))
    else if tsf == 0 || tsf == 3 then Some(InvalidTsf(tsf))
    else if w0 / 0x800_0000 % 2 == 0 then Some(MissingClassId)
    else if w2 / 0x100_0000 % 8 != 0 then Some(ReservedBitsNonZero(FClassIdentifier, w2 / 0x100_0000 % 8))
    else if w2 % 0x100_0000 != 0x6A_621E then Some(InvalidOui(w2 % 0x100_0000))
    else if informationCode >= 0x200 || informationCode % 0x100 > 6 then Some(UnknownInformationClass(informationCode))
    else if classCode > 9 then Some(UnknownPacketClass(classCode))
    else
      assert ParseHeader(w0).Ok? && ParseClassId(w2, w3).Ok? by { KnownCodesParse(w0, w2, w3); }
      AdmissionError(options, ParseHeader(w0).value, ParseClassId(w2, w3).value)
  }

  /** The codes that exist: exactly these prologue words can be decoded. */
  lemma KnownCodesParse(w0: u32, w2: u32, w3: u32)
    ensures ParseHeader(w0).Ok?
       <==> && (w0 / 0x1000_0000 == 1 || 4 <= w0 / 0x1000_0000 <= 7)
            && w0 / 0x40_0000 % 4 != 0 && 1 <= w0 / 0x10_0000 % 4 <= 2
    ensures ParseClassId(w2, w3).Ok?
       <==> && w2 / 0x100_0000 % 8 == 0 && w2 % 0x100_0000 == 0x6A_621E
            && w3 / 0x1_0000 < 0x200 && w3 / 0x1_0000 % 0x100 <= 6 && w3 % 0x1_0000 <= 9
  {
  }

  lemma PrologueErrorExactly(b: seq<u8>, options: ParseOptions)
    requires |b| >= 28
    ensures P.ParsePrologue(b, StandardProfile(options)).Ok? <==> PrologueError(b, options).None?
    ensures PrologueError(b, options).Some? ==>
              P.ParsePrologue(b, StandardProfile(options)) == Err(PrologueError(b, options).value)
  {
    hide WordAt, AdmissionError, StandardProfile.ValidateHeaderAndClass;
    var w0, w2, w3 := WordAt(b, 0), WordAt(b, 2), WordAt(b, 3);
    KnownCodesParse(w0, w2, w3);
    if ParseHeader(w0).Ok? && ParseClassId(w2, w3).Ok? {
      AdmissionErrorExactly(options, ParseHeader(w0).value, ParseClassId(w2, w3).value);
    }
  }

  // ---- bodies ----

  function DataError(b: seq<u8>, c: ClassId, options: ParseOptions): Option<ParseError>
    requires |b| >= 28
  {
    var pad := c.padBitCount;
    if pad != 0
       && (options.standard.V1_1? || (c.packetClass.Raw() == 0 && c.informationClass.Raw() % 0x100 == 0)) then
      Some(PadBitsNotAllowed(c.informationClass, c.packetClass, pad))
    else if pad > 8 * (|b| - 28) then Some(InvalidPadding(pad, 8 * (|b| - 28)))
    else if BigEndian(b[28..]) % P.Pow2(pad) != 0 then Some(NonZeroPaddingBits)
    else None
  }

  function PaddingError(c: ClassId): Option<ParseError> {
    if c.padBitCount == 0 then None
    else Some(PadBitsNotAllowed(c.informationClass, c.packetClass, c.padBitCount))
  }

  function SizeInWords(b: seq<u8>): u16
    requires |b| < 0x4_0000
  {
    |b| / 4
  }

  function SignalContextError(b: seq<u8>, c: ClassId): Option<ParseError>
    requires |b| < 0x4_0000
  {
    if |b| != 108 then Some(InvalidPacketSize(c.packetClass, 27, SizeInWords(b)))
    else if PaddingError(c).Some? then PaddingError(c)
    else if WordAt(b, 7) % 0x8000_0000 != 0x7BB9_8000 then
      Some(InvalidFieldValueSet(FSignalContextCif0, WordAt(b, 7)))
    else if !WholeHz(b, 9) then Some(FractionalHzNotAllowed(FContextBandwidth, DoubleWord(b, 9)))
    else if !WholeHz(b, 19) then Some(FractionalHzNotAllowed(FContextSampleRate, DoubleWord(b, 19)))
    else if !WholeHz(b, 11) then Some(FractionalHzNotAllowed(FContextIfReference, DoubleWord(b, 11)))
    else if !WholeHz(b, 13) then Some(FractionalHzNotAllowed(FContextRfReference, DoubleWord(b, 13)))
    else if !WholeHz(b, 15) then Some(FractionalHzNotAllowed(FContextIfBandOffset, DoubleWord(b, 15)))
    else if !FormatConforms(WordAt(b, 25), WordAt(b, 26)) then
      Some(InvalidPayloadFormat(WordAt(b, 25), WordAt(b, 26)))
    else None
  }

  function VersionContextError(b: seq<u8>, c: ClassId): Option<ParseError>
    requires |b| < 0x4_0000
  {
    if |b| != 44 then Some(InvalidPacketSize(c.packetClass, 11, SizeInWords(b)))
    else if PaddingError(c).Some? then PaddingError(c)
    else if WordAt(b, 7) % 0x8000_0000 != 2 then Some(InvalidFieldValueSet(FVersionContextCif0, WordAt(b, 7)))
    else if WordAt(b, 8) != 12 then Some(InvalidFieldValue(FVersionContextCif1, 12, WordAt(b, 8)))
    else if WordAt(b, 9) != 4 then Some(InvalidFieldValue(FVita49SpecVersion, 4, WordAt(b, 9)))
    else if WordAt(b, 10) / 64 % 16 != 0 then
      Some(InvalidFieldValue(FVersionDeviceType, 0, WordAt(b, 10) / 64 % 16))
    else if WordAt(b, 10) % 64 != 0 then Some(InvalidFieldValue(FDifiIcdVersion, 0, WordAt(b, 10) % 64))
    else None
  }

  function TimingFlowControlError(b: seq<u8>, c: ClassId): Option<ParseError>
    requires |b| < 0x4_0000
  {
    if |b| != 84 then Some(InvalidPacketSize(c.packetClass, 21, SizeInWords(b)))
    else if PaddingError(c).Some? then PaddingError(c)
    else if WordAt(b, 7) != 0xA100_0000 then Some(InvalidFieldValue(FTimingCam, 0xA100_0000, WordAt(b, 7)))
    else if WordAt(b, 11) != 0x4030_0002 then Some(InvalidFieldValue(FTimingCif0, 0x4030_0002, WordAt(b, 11)))
    else if WordAt(b, 12) != 2 then Some(InvalidFieldValue(FTimingCif1, 2, WordAt(b, 12)))
    else if !WholeHz(b, 14) then Some(FractionalHzNotAllowed(FTimingSampleRate, DoubleWord(b, 14)))
    else if WordAt(b, 20) >= 0x1_0000 then Some(ReservedBitsNonZero(FBufferStatus, WordAt(b, 20) / 0x1_0000))
    else None
  }

  /** What both capabilities layouts report before they look at their size. */
  function EarlyError(b: seq<u8>, c: ClassId, camField: FieldName, cam: u32): Option<ParseError>
    requires 28 <= |b|
  {
    if PaddingError(c).Some? then PaddingError(c)
    else if |b| < 44 then Some(InputTooShort(|b| + 4, |b|))
    else if WordAt(b, 7) != cam then Some(InvalidFieldValue(camField, cam, WordAt(b, 7)))
    else if |b| < 48 then Some(InputTooShort(|b| + 4, |b|))
    else None
  }

  function QueryError(b: seq<u8>, c: ClassId): Option<ParseError>
    requires 28 <= |b| < 0x4_0000
  {
    var early := EarlyError(b, c, FQueryCam, 0xA110_0000);
    if early.Some? then early
    else if WordAt(b, 11) >= 0x8000_0000 then
      if |b| != 60 then Some(InvalidPacketSize(c.packetClass, 15, SizeInWords(b)))
      else if WordAt(b, 11) != 0x8000_0000 then Some(InvalidFieldValue(FShortQueryCif0, 0x8000_0000, WordAt(b, 11)))
      else None
    else if |b| != 52 then Some(InvalidPacketSize(c.packetClass, 13, SizeInWords(b)))
    else if WordAt(b, 11) != 0x7BB9_8002 then Some(InvalidFieldValue(FLongQueryCif0, 0x7BB9_8002, WordAt(b, 11)))
    else if WordAt(b, 12) != 2 then Some(InvalidFieldValue(FLongQueryCif1, 2, WordAt(b, 12)))
    else None
  }

  function ResponseError(b: seq<u8>, c: ClassId): Option<ParseError>
    requires 28 <= |b| < 0x4_0000
  {
    var early := EarlyError(b, c, FResponseCam, 0xA110_0400);
    if early.Some? then early
    else if WordAt(b, 11) >= 0x8000_0000 then
      if |b| != 72 then Some(InvalidPacketSize(c.packetClass, 18, SizeInWords(b)))
      else if WordAt(b, 11) != 0x8000_0000 then
        Some(InvalidFieldValue(FShortResponseCif0, 0x8000_0000, WordAt(b, 11)))
      else None
    else if SizeInWords(b) < 14 then Some(InvalidPacketSize(c.packetClass, 14, SizeInWords(b)))
    else if WordAt(b, 11) != 0x7BB9_8002 then Some(InvalidFieldValue(FLongResponseCif0, 0x7BB9_8002, WordAt(b, 11)))
    else if WordAt(b, 12) != 2 then Some(InvalidFieldValue(FLongResponseCif1, 2, WordAt(b, 12)))
    else None
  }

  function StatusError(b: seq<u8>, c: ClassId): Option<ParseError>
    requires |b| < 0x4_0000
  {
    if |b| != 60 && |b| != 68 && |b| != 84 then
      Some(InvalidPacketSizeSet(c.packetClass, [15, 17, 21], SizeInWords(b)))
    else if PaddingError(c).Some? then PaddingError(c)
    else if WordAt(b, 7) != 0xA108_0000 then Some(InvalidFieldValue(FStatusCam, 0xA108_0000, WordAt(b, 7)))
    else if WordAt(b, 11) != 0 then Some(InvalidFieldValue(FStatusCif0, 0, WordAt(b, 11)))
    else if WordAt(b, 12) != 0 then Some(InvalidFieldValue(FStatusCif1, 0, WordAt(b, 12)))
    else
      var flags := WordAt(b, 14) / 16 % 2 * 16 + WordAt(b, 14) / 8 % 2 * 8;
      var expected := if |b| == 60 then 0 else if |b| == 68 then 0x10 else 0x18;
      if flags != expected then Some(InvalidFieldValue(FStatusFlags, expected, flags))
      else if |b| == 84 && !WholeHz(b, 17) then Some(FractionalHzNotAllowed(FStatusSampleRate, DoubleWord(b, 17)))
      else if |b| == 84 && !WholeHz(b, 19) then Some(FractionalHzNotAllowed(FStatusBandwidth, DoubleWord(b, 19)))
      else None
  }

  function BodyError(b: seq<u8>, c: ClassId, options: ParseOptions): Option<ParseError>
    requires 28 <= |b| < 0x4_0000
  {
    match c.packetClass
    case StandardFlowSignalData | SampleCountSignalData => DataError(b, c, options)
    case StandardFlowSignalContext | SampleCountSignalContext => SignalContextError(b, c)
    case VersionFlowSignalContext => VersionContextError(b, c)
    case SampleCountTimingFlowControl | RealTimeTimingFlowControl => TimingFlowControlError(b, c)
    case SinkCapabilitiesQueryClass => QueryError(b, c)
    case SinkCapabilitiesResponseClass => ResponseError(b, c)
    case StatusReportClass => StatusError(b, c)
  }

  /** A result is an error exactly when one is expected, and is then that error. */
  predicate Reports<T>(r: Result<T, ParseError>, e: Option<ParseError>) {
    (r.Ok? <==> e.None?) && (r.Err? ==> e == Some(r.error))
  }

  lemma HzReads(b: seq<u8>, k: nat)
    requires 4 * k + 8 <= |b|
    ensures var v := FromHiLo(WordAt(b, k), WordAt(b, k + 1));
            v == DoubleWord(b, k) && U64OfI64(I64OfU64(v)) == v && (v % 0x10_0000 == 0 <==> WholeHz(b, k))
  {
    hide WordAt;
    FractionIsLow(WordAt(b, k), WordAt(b, k + 1));
  }

  lemma FormatError(word0: u32, word1: u32)
    ensures !FormatConforms(word0, word1) ==>
              ParsePayloadFormat(word0, word1) == Err(InvalidPayloadFormat(word0, word1))
    ensures FormatConforms(word0, word1) ==> ParsePayloadFormat(word0, word1).Ok?
  {
    FormatExactly(word0, word1);
  }

  lemma SignalContextReports(b: seq<u8>, prologue: Prologue, profile: StandardProfile)
    requires 28 <= |b| == 4 * prologue.header.packetSizeWords
    ensures Reports(P.ParseSignalContext(b, prologue, profile), SignalContextError(b, prologue.classId))
  {
    hide WordAt, FromHiLo, I64OfU64, U64OfI64, ParsePayloadFormat, FormatConforms, I16OfU16, DoubleWord, WholeHz;
    if |b| == 108 {
      HzReads(b, 9);
      HzReads(b, 11);
      HzReads(b, 13);
      HzReads(b, 15);
      HzReads(b, 19);
      FormatError(WordAt(b, 25), WordAt(b, 26));
    }
  }

  lemma VersionContextReports(b: seq<u8>, prologue: Prologue, profile: StandardProfile)
    requires 28 <= |b| == 4 * prologue.header.packetSizeWords
    ensures Reports(P.ParseVersionContext(b, prologue, profile), VersionContextError(b, prologue.classId))
  {
    hide WordAt;
  }

  lemma TimingFlowControlReports(b: seq<u8>, prologue: Prologue, profile: StandardProfile)
    requires 28 <= |b| == 4 * prologue.header.packetSizeWords
    ensures Reports(P.ParseTimingFlowControl(b, prologue, profile), TimingFlowControlError(b, prologue.classId))
  {
    hide WordAt, FromHiLo, I64OfU64, P.DecodeBufferStatus, DoubleWord, WholeHz;
    if |b| == 84 {
      HzReads(b, 14);
    }
  }

  lemma QueryReports(b: seq<u8>, prologue: Prologue, profile: StandardProfile)
    requires 28 <= |b| == 4 * prologue.header.packetSizeWords
    ensures Reports(P.ParseSinkCapabilitiesQuery(b, prologue, profile), QueryError(b, prologue.classId))
  {
    hide WordAt, FromHiLo;
  }

  lemma ResponseReports(b: seq<u8>, prologue: Prologue, profile: StandardProfile)
    requires 28 <= |b| == 4 * prologue.header.packetSizeWords
    ensures Reports(P.ParseSinkCapabilitiesResponse(b, prologue, profile), ResponseError(b, prologue.classId))
  {
    hide WordAt, FromHiLo;
  }

  lemma StatusReports(b: seq<u8>, prologue: Prologue, profile: StandardProfile)
    requires 28 <= |b| == 4 * prologue.header.packetSizeWords
    ensures Reports(P.ParseStatusReport(b, prologue, profile), StatusError(b, prologue.classId))
  {
    hide WordAt, FromHiLo, P.QuantitativeFlags, DoubleWord, WholeHz;
    if |b| >= 60 {
      FlagBits(WordAt(b, 14));
    }
    if |b| == 84 {
      HzReads(b, 17);
      HzReads(b, 19);
    }
  }

  lemma DataReports(b: seq<u8>, prologue: Prologue, options: ParseOptions)
    requires 28 <= |b| == 4 * prologue.header.packetSizeWords
    requires prologue.classId.packetClass.StandardFlowSignalData? || prologue.classId.packetClass.SampleCountSignalData?
    ensures Reports(P.ParseData(b, prologue, StandardProfile(options)), DataError(b, prologue.classId, options))
  {
    hide P.ValidateDataPadding, P.Pow2;
    PaddingIsDivisibility(b[28..], prologue.classId.padBitCount);
  }

  /** Each layout's parser reports the first requirement of its layout that fails. */
  lemma BodyRejectedExactly(b: seq<u8>, prologue: Prologue, options: ParseOptions)
    requires 28 <= |b| == 4 * prologue.header.packetSizeWords
    ensures Reports(P.ParseBody(b, prologue, StandardProfile(options)), BodyError(b, prologue.classId, options))
  {
    hide WordAt, P.ParseData, P.ParseSignalContext, P.ParseVersionContext, P.ParseTimingFlowControl,
      P.ParseSinkCapabilitiesQuery, P.ParseSinkCapabilitiesResponse, P.ParseStatusReport,
      DataError, SignalContextError, VersionContextError, TimingFlowControlError, QueryError, ResponseError,
      StatusError;
    var profile := StandardProfile(options);
    match prologue.classId.packetClass
    case StandardFlowSignalData | SampleCountSignalData => DataReports(b, prologue, options);
    case StandardFlowSignalContext | SampleCountSignalContext => SignalContextReports(b, prologue, profile);
    case VersionFlowSignalContext => VersionContextReports(b, prologue, profile);
    case SampleCountTimingFlowControl | RealTimeTimingFlowControl => TimingFlowControlReports(b, prologue, profile);
    case SinkCapabilitiesQueryClass => QueryReports(b, prologue, profile);
    case SinkCapabilitiesResponseClass => ResponseReports(b, prologue, profile);
    case StatusReportClass => StatusReports(b, prologue, profile);
  }

  // ---- the whole input ----

  /** The error of an input: framing, then prologue, then body. */
  function PrefixError(b: seq<u8>, options: ParseOptions): Option<ParseError> {
    if |b| < 28 then Some(InputTooShort(28, |b|)) else
    var n := WordAt(b, 0) % 0x1_0000;
    if n < 7 then Some(PacketSizeTooSmall(n))
    else if |b| < 4 * n then Some(PacketTruncated(4 * n, |b|))
    else if PrologueError(b, options).Some? then PrologueError(b, options)
    else
      var c := ParseClassId(WordAt(b, 2), WordAt(b, 3));
      assert c.Ok? by { KnownCodesParse(WordAt(b, 0), WordAt(b, 2), WordAt(b, 3)); }
      BodyError(b[..4 * n], c.value, options)
  }

  lemma PrologueOfPrefix(b: seq<u8>, len: nat, options: ParseOptions)
    requires 28 <= len <= |b|
    ensures PrologueError(b[..len], options) == PrologueError(b, options)
    ensures WordAt(b[..len], 0) == WordAt(b, 0)
    ensures WordAt(b[..len], 2) == WordAt(b, 2) && WordAt(b[..len], 3) == WordAt(b, 3)
  {
    hide WordAt;
    WordOfPrefix(b, len, 0);
    WordOfPrefix(b, len, 2);
    WordOfPrefix(b, len, 3);
  }

  lemma DecodedParts(b: seq<u8>, options: ParseOptions)
    requires |b| >= 28 && P.ParsePrologue(b, StandardProfile(options)).Ok?
    ensures var prologue := P.ParsePrologue(b, StandardProfile(options)).value;
            && ParseClassId(WordAt(b, 2), WordAt(b, 3)) == Ok(prologue.classId)
            && prologue.header.packetSizeWords == WordAt(b, 0) % 0x1_0000
  {
    hide WordAt, ParseClassId, StandardProfile.ValidateHeaderAndClass;
  }

  lemma PrefixRejectedExactly(b: seq<u8>, options: ParseOptions)
    ensures Reports(P.ParsePrefix(b, options), PrefixError(b, options))
  {
    hide P.ParsePrefix, P.ParsePrologue, P.ParseBody, BodyError, PrologueError, WordAt, ParseClassId;
    ParsePrefixUnfolds(b, options);
    if |b| >= 28 {
      var n := WordAt(b, 0) % 0x1_0000;
      if 7 <= n && 4 * n <= |b| {
        var s := b[..4 * n];
        PrologueOfPrefix(b, 4 * n, options);
        PrologueErrorExactly(s, options);
        if P.ParsePrologue(s, StandardProfile(options)).Ok? {
          DecodedParts(s, options);
          BodyRejectedExactly(s, P.ParsePrologue(s, StandardProfile(options)).value, options);
        }
      }
    }
  }

  /** Every input that is not accepted is rejected with the first error; surplus bytes come last. */
  lemma RejectedExactly(b: seq<u8>, options: ParseOptions)
    ensures Reports(P.ParseExact(b, options),
                    if PrefixError(b, options).Some? then PrefixError(b, options)
                    else
                      var n := WordAt(b, 0) % 0x1_0000;
                      if |b| > 4 * n then Some(TrailingBytes(|b| - 4 * n)) else None)
  {
    hide P.ParsePrefix, P.ParsePrologue, P.ParseBody, BodyError, PrologueError, WordAt, ParseClassId;
    PrefixRejectedExactly(b, options);
    ParsePrefixUnfolds(b, options);
  }
}
