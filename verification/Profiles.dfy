/** How the standard profiles relate: what each version and mode accepts. */
module Profiles {
  import opened Wrappers
  import opened Raw
  import opened Wire
  import opened Standard
  import opened RoundTrip
  import P = Parser

  // ---- the membership table as a rule ----

  /** What an information class offers. */
  datatype Features = Features(
    realTime: bool,          // signal flow stamped with real time
    sampleCount: bool,       // signal flow stamped with a sample count
    flowControl: bool,       // timing flow control in the flow's own time base
    linkEstablishment: bool)

  /** The code of an information class without its link establishment bit. */
  function BaseCode(c: InformationClassCode): u16 {
    if c.Raw() >= 0x100 then c.Raw() - 0x100 else c.Raw()
  }

  function FeaturesOf(c: InformationClassCode): Features {
    var low := BaseCode(c);
    Features(
      (low == 0 || low == 3 || low == 6),
      (low == 2 || low == 4 || low == 5),
      (low == 2 || low == 3 || low == 5 || low == 6),
      c.Raw() >= 0x100)
  }

  /** What a packet class asks of an information class; `VersionFlow` and its one packet stand apart. */
  predicate Offers(c: InformationClassCode, p: PacketClassCode) {
    var f := FeaturesOf(c);
    match p
    case StandardFlowSignalData | StandardFlowSignalContext => f.realTime
    case SampleCountSignalData | SampleCountSignalContext => f.sampleCount
    case RealTimeTimingFlowControl => f.flowControl && f.realTime
    case SampleCountTimingFlowControl => f.flowControl && f.sampleCount
    case VersionFlowSignalContext => c.VersionFlow?
    case SinkCapabilitiesQueryClass | SinkCapabilitiesResponseClass => f.linkEstablishment
    case StatusReportClass => f.linkEstablishment && (f.realTime || f.sampleCount)
  }

  /**
   The membership tables follow one rule: version 1.3.0 admits exactly what the
   class offers, 1.2.1 the same without link establishment, and 1.1 only the basic
   data plane and the version flow.
   */
  lemma MembershipRule(options: ParseOptions, c: InformationClassCode, p: PacketClassCode)
    ensures StandardProfile(options).AllowsPacketClass(c, p)
       <==> && Offers(c, p)
            && (options.standard.V1_2_1? ==> c.Raw() < 0x100)
            && (options.standard.V1_1? ==> c.Raw() <= 1)
  {
    match options.standard
    case V1_1 =>
    case V1_2_1 =>
    case V1_3_0 => NewestMembership(c, p);
  }

  lemma NewestMembership(c: InformationClassCode, p: PacketClassCode)
    ensures AllowedIn130(c, p) <==> Offers(c, p)
  {
    match p
    case StandardFlowSignalData | StandardFlowSignalContext =>
    case SampleCountSignalData | SampleCountSignalContext =>
    case _ =>
  }

  // ---- which headers and classes a profile admits ----

  const LEGACY: ParseOptions := ParseOptions(V1_2_1, LegacyVersionPacketType)
  const STRICT_1_2_1: ParseOptions := ParseOptions(V1_2_1, Strict)

  predicate Admits(options: ParseOptions, h: PacketHeader, c: ClassId) {
    StandardProfile(options).ValidateHeaderAndClass(h, c).Ok?
  }

  /** The packet types that carry a packet class. */
  predicate TypeCarries(options: ParseOptions, packetType: PacketType, packetClass: PacketClassCode) {
    match packetClass
    case StandardFlowSignalData | SampleCountSignalData => packetType.Raw() == 1
    case StandardFlowSignalContext | SampleCountSignalContext => packetType.Raw() == 4
    case VersionFlowSignalContext =>
      || (packetType.Raw() == 4 && !options.standard.V1_1?)
      || (packetType.Raw() == 5 && (options.standard.V1_1? || options == LEGACY))
    case SampleCountTimingFlowControl | RealTimeTimingFlowControl => packetType.Raw() == 6
    case SinkCapabilitiesQueryClass | SinkCapabilitiesResponseClass | StatusReportClass => packetType.Raw() == 7
  }

  /** The type-specific bits are settled by the class: an acknowledgement bit, or a coarse timestamp mode. */
  function BitsOf(c: ClassId): u8 {
    match c.packetClass
    case SinkCapabilitiesResponseClass => 4
    case VersionFlowSignalContext => 1
    case StandardFlowSignalContext => if BaseCode(c.informationClass) == 0 then 1 else 0
    case _ => 0
  }

  /** A class's own time base; the link establishment packets have none. */
  function TimeBaseOf(packetClass: PacketClassCode): Option<Tsf> {
    match packetClass
    case SampleCountSignalData | SampleCountSignalContext | SampleCountTimingFlowControl => Some(SampleCount)
    case SinkCapabilitiesQueryClass | SinkCapabilitiesResponseClass | StatusReportClass => None
    case _ => Some(RealTimePicoseconds)
  }

  /** The class settles packet type, type-specific bits and time base; its information class offers it. */
  predicate Admissible(options: ParseOptions, h: PacketHeader, c: ClassId) {
    && h.classIdIndicator
    && TypeCarries(options, h.packetType, c.packetClass)
    && h.typeSpecificBits == BitsOf(c)
    && (TimeBaseOf(c.packetClass).Some? ==> TimeBaseOf(c.packetClass).value == h.tsf)
    && Offers(c.informationClass, c.packetClass)
    && (options.standard.V1_2_1? ==> c.informationClass.Raw() < 0x100)
    && (options.standard.V1_1? ==> c.informationClass.Raw() <= 1)
  }

  /** The seven prologue checks taken together: which headers a profile admits for a class. */
  lemma AdmissionRule(options: ParseOptions, h: PacketHeader, c: ClassId)
    requires h.typeSpecificBits <= 7 && h.tsm == TsmOf(h.packetType, h.typeSpecificBits)
    ensures Admits(options, h, c) <==> Admissible(options, h, c)
  {
    hide StandardProfile.AllowsPacketClass;
    MembershipRule(options, c.informationClass, c.packetClass);
    match c.packetClass
    case StandardFlowSignalContext =>
    case VersionFlowSignalContext =>
    case _ =>
  }

  lemma AdmitsStrict(mode: CompatibilityMode, h: PacketHeader, c: ClassId)
    ensures Admits(STRICT_1_2_1, h, c)
       <==> Admits(ParseOptions(V1_3_0, mode), h, c) && c.informationClass.Raw() < 0x100
  {
    MembershipRule(STRICT_1_2_1, c.informationClass, c.packetClass);
    MembershipRule(ParseOptions(V1_3_0, mode), c.informationClass, c.packetClass);
  }

  lemma AdmitsLegacy(mode: CompatibilityMode, h: PacketHeader, c: ClassId)
    ensures Admits(LEGACY, h, c)
       <==> || Admits(STRICT_1_2_1, h, c)
            || (Admits(ParseOptions(V1_1, mode), h, c) && h.packetType.VersionWithStreamId?)
  {
  }

  lemma AdmitsOldest(mode: CompatibilityMode, h: PacketHeader, c: ClassId)
    ensures Admits(ParseOptions(V1_1, mode), h, c)
       <==> && Admits(LEGACY, h, c)
            && (c.informationClass.BasicDataPlane? || h.packetType.VersionWithStreamId?)
  {
  }

  // ---- what the rest of the parser takes from the profile ----

  /** The body parser looks at nothing but the padding permission. */
  lemma BodySharesProfile(b: seq<u8>, prologue: Prologue, one: StandardProfile, two: StandardProfile)
    requires |b| >= 28
    requires var c := prologue.classId;
             one.PermitsDataPadding(c.informationClass, c.packetClass)
             == two.PermitsDataPadding(c.informationClass, c.packetClass)
    ensures P.ParseBody(b, prologue, one) == P.ParseBody(b, prologue, two)
  {
    hide WordAt, P.ReadU32, P.ReadU64, P.ReadI64, P.ParseCommon, ParsePayloadFormat;
    match prologue.classId.packetClass
    case StandardFlowSignalData | SampleCountSignalData =>
    case StandardFlowSignalContext | SampleCountSignalContext =>
      assert P.ParseSignalContext(b, prologue, one) == P.ParseSignalContext(b, prologue, two);
    case VersionFlowSignalContext =>
      assert P.ParseVersionContext(b, prologue, one) == P.ParseVersionContext(b, prologue, two);
    case SampleCountTimingFlowControl | RealTimeTimingFlowControl =>
      assert P.ParseTimingFlowControl(b, prologue, one) == P.ParseTimingFlowControl(b, prologue, two);
    case SinkCapabilitiesQueryClass =>
      assert P.ParseSinkCapabilitiesQuery(b, prologue, one) == P.ParseSinkCapabilitiesQuery(b, prologue, two);
    case SinkCapabilitiesResponseClass =>
      assert P.ParseSinkCapabilitiesResponse(b, prologue, one) == P.ParseSinkCapabilitiesResponse(b, prologue, two);
    case StatusReportClass =>
      assert P.ParseStatusReport(b, prologue, one) == P.ParseStatusReport(b, prologue, two);
  }

  /** Two profiles that both accept a body read the same packet from it. */
  lemma BodyAgrees(b: seq<u8>, prologue: Prologue, one: StandardProfile, two: StandardProfile)
    requires |b| >= 28
    requires P.ParseBody(b, prologue, one).Ok? && P.ParseBody(b, prologue, two).Ok?
    ensures P.ParseBody(b, prologue, one) == P.ParseBody(b, prologue, two)
  {
    hide WordAt, P.ReadU32, P.ReadU64, P.ReadI64, P.ParseCommon, ParsePayloadFormat;
  }

  /** The prologue is decoded the same way under every profile; only the admission differs. */
  lemma PrologueSharesProfile(b: seq<u8>, one: ParseOptions, two: ParseOptions)
    requires P.ParsePrologue(b, StandardProfile(one)).Ok?
    ensures var p := P.ParsePrologue(b, StandardProfile(one)).value;
            && Admits(one, p.header, p.classId)
            && (Admits(two, p.header, p.classId) ==> P.ParsePrologue(b, StandardProfile(two)) == Ok(p))
            && (P.ParsePrologue(b, StandardProfile(two)).Ok? ==>
                  Admits(two, p.header, p.classId) && P.ParsePrologue(b, StandardProfile(two)) == Ok(p))
  {
    hide ParseHeader, ParseClassId, StandardProfile.ValidateHeaderAndClass;
  }

  /** Two accepting option values return the same packet and the same remainder. */
  lemma AcceptingProfilesAgree(b: seq<u8>, one: ParseOptions, two: ParseOptions)
    requires P.ParsePrefix(b, one).Ok? && P.ParsePrefix(b, two).Ok?
    ensures P.ParsePrefix(b, one) == P.ParsePrefix(b, two)
  {
    hide P.ParsePrefix, P.ParsePrologue, P.ParseBody;
    ParsePrefixUnfolds(b, one);
    ParsePrefixUnfolds(b, two);
    var s := b[..4 * (WordAt(b, 0) % 0x1_0000)];
    PrologueSharesProfile(s, one, two);
    BodyAgrees(s, P.ParsePrologue(s, StandardProfile(one)).value, StandardProfile(one), StandardProfile(two));
  }

  predicate SamePadding(one: ParseOptions, two: ParseOptions, p: Packet) {
    var c := p.Prologue().classId;
    StandardProfile(one).PermitsDataPadding(c.informationClass, c.packetClass)
    == StandardProfile(two).PermitsDataPadding(c.informationClass, c.packetClass)
  }

  /** A packet accepted under one option value is accepted under another that admits its prologue. */
  lemma Transfer(b: seq<u8>, one: ParseOptions, two: ParseOptions)
    requires P.ParseExact(b, one).Ok?
    ensures var p := P.ParseExact(b, one).value;
            var h, c := p.Prologue().header, p.Prologue().classId;
            && Admits(one, h, c)
            && (Admits(two, h, c) && SamePadding(one, two, p) ==> P.ParseExact(b, two) == Ok(p))
            && (P.ParseExact(b, two).Ok? ==> Admits(two, h, c) && P.ParseExact(b, two) == Ok(p))
  {
    hide P.ParsePrefix, P.ParsePrologue, P.ParseBody, Admits;
    ParsePrefixUnfolds(b, one);
    ParsePrefixUnfolds(b, two);
    var p := P.ParseExact(b, one).value;
    var s := b[..4 * (WordAt(b, 0) % 0x1_0000)];
    var prologue := P.ParsePrologue(s, StandardProfile(one)).value;
    PrologueSharesProfile(s, one, two);
    BodyKeepsPrologue(s, prologue, StandardProfile(one));
    if SamePadding(one, two, p) {
      BodySharesProfile(s, prologue, StandardProfile(one), StandardProfile(two));
    }
    if P.ParseExact(b, two).Ok? {
      AcceptingProfilesAgree(b, one, two);
    }
  }

  lemma BodyKeepsPrologue(b: seq<u8>, prologue: Prologue, profile: StandardProfile)
    requires |b| >= 28 && P.ParseBody(b, prologue, profile).Ok?
    ensures P.ParseBody(b, prologue, profile).value.Prologue() == prologue
  {
    hide WordAt, P.ReadU32, P.ReadU64, P.ReadI64, P.ParseCommon, ParsePayloadFormat;
  }

  // ---- the lattice ----

  /** Strict 1.2.1 accepts exactly the 1.3.0 packets whose information class is below 0x0100. */
  lemma StrictIsOldClassesOf130(b: seq<u8>, mode: CompatibilityMode, p: Packet)
    ensures P.ParseExact(b, STRICT_1_2_1) == Ok(p)
       <==> && P.ParseExact(b, ParseOptions(V1_3_0, mode)) == Ok(p)
            && p.Prologue().classId.informationClass.Raw() < 0x100
  {
    hide P.ParseExact, Admits;
    var newest := ParseOptions(V1_3_0, mode);
    AdmitsStrict(mode, p.Prologue().header, p.Prologue().classId);
    if P.ParseExact(b, STRICT_1_2_1) == Ok(p) {
      Transfer(b, STRICT_1_2_1, newest);
    }
    if P.ParseExact(b, newest) == Ok(p) {
      Transfer(b, newest, STRICT_1_2_1);
    }
  }

  /** Legacy 1.2.1 adds exactly the packets of the old version packet type, as 1.1 accepts them. */
  lemma LegacyAddsVersionType(b: seq<u8>, mode: CompatibilityMode, p: Packet)
    ensures P.ParseExact(b, LEGACY) == Ok(p)
       <==> || P.ParseExact(b, STRICT_1_2_1) == Ok(p)
            || (P.ParseExact(b, ParseOptions(V1_1, mode)) == Ok(p)
                && p.Prologue().header.packetType.VersionWithStreamId?)
  {
    hide P.ParseExact;
    var oldest := ParseOptions(V1_1, mode);
    AdmitsLegacy(mode, p.Prologue().header, p.Prologue().classId);
    if P.ParseExact(b, LEGACY) == Ok(p) {
      Transfer(b, LEGACY, STRICT_1_2_1);
      Transfer(b, LEGACY, oldest);
    }
    if P.ParseExact(b, STRICT_1_2_1) == Ok(p) {
      Transfer(b, STRICT_1_2_1, LEGACY);
    }
    if P.ParseExact(b, oldest) == Ok(p) {
      Transfer(b, oldest, LEGACY);
    }
  }

  /** 1.1 accepts exactly the legacy packets of the basic data plane and of the old version packet type. */
  lemma OldestIsPartOfLegacy(b: seq<u8>, mode: CompatibilityMode, p: Packet)
    ensures P.ParseExact(b, ParseOptions(V1_1, mode)) == Ok(p)
       <==> && P.ParseExact(b, LEGACY) == Ok(p)
            && (p.Prologue().classId.informationClass.BasicDataPlane?
                || p.Prologue().header.packetType.VersionWithStreamId?)
  {
    hide P.ParseExact;
    var oldest := ParseOptions(V1_1, mode);
    AdmitsOldest(mode, p.Prologue().header, p.Prologue().classId);
    if P.ParseExact(b, LEGACY) == Ok(p) {
      Transfer(b, LEGACY, oldest);
    }
    if P.ParseExact(b, oldest) == Ok(p) {
      Transfer(b, oldest, LEGACY);
    }
  }

  /** Outside 1.2.1 the compatibility mode changes nothing, errors included. */
  lemma ModeMattersOnlyIn121(b: seq<u8>, standard: DifiStandardVersion, one: CompatibilityMode, two: CompatibilityMode)
    requires !standard.V1_2_1?
    ensures P.ParseExact(b, ParseOptions(standard, one)) == P.ParseExact(b, ParseOptions(standard, two))
  {
    hide P.ParsePrefix, P.ParsePrologue, P.ParseBody;
    var o1, o2 := ParseOptions(standard, one), ParseOptions(standard, two);
    ParsePrefixUnfolds(b, o1);
    ParsePrefixUnfolds(b, o2);
    if 28 <= |b| {
      var n := WordAt(b, 0) % 0x1_0000;
      if 7 <= n && 4 * n <= |b| {
        var s := b[..4 * n];
        ModeFreePrologue(s, standard, one, two);
        var prologue := P.ParsePrologue(s, StandardProfile(o1));
        if prologue.Ok? {
          BodySharesProfile(s, prologue.value, StandardProfile(o1), StandardProfile(o2));
        }
      }
    }
  }

  lemma ModeFreePrologue(b: seq<u8>, standard: DifiStandardVersion, one: CompatibilityMode, two: CompatibilityMode)
    requires !standard.V1_2_1?
    ensures P.ParsePrologue(b, StandardProfile(ParseOptions(standard, one)))
            == P.ParsePrologue(b, StandardProfile(ParseOptions(standard, two)))
  {
    hide ParseHeader, ParseClassId, P.ReadU32, P.ReadU64;
  }
}
