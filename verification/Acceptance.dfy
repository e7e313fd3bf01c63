/** The accepted inputs, described by arithmetic on their words. */
module Acceptance {
  import opened Raw
  import opened Wire
  import opened Standard
  import opened Arithmetic
  import opened RoundTripPrologue
  import opened RoundTrip
  import opened Profiles
  import opened Padding
  import opened FixedWords
  import P = Parser

  // ---- the layouts ----

  /** A fixed-point value whose fraction, the low 20 bits, is clear. */
  predicate WholeHz(b: seq<u8>, k: nat)
    requires 4 * k + 8 <= |b|
  {
    WordAt(b, k + 1) % 0x10_0000 == 0
  }

  /** Complex signed items of `m + 1` bits in fields of `m + 1` bits, for 4 to 16 bits. */
  predicate FormatConforms(word0: u32, word1: u32) {
    && word1 == 0
    && 0xA000_0000 + 3 * 65 <= word0 <= 0xA000_0000 + 15 * 65
    && (word0 - 0xA000_0000) % 65 == 0
  }

  predicate SignalContextConforms(b: seq<u8>) {
    && |b| == 108
    && WordAt(b, 7) % 0x8000_0000 == 0x7BB9_8000
    && WholeHz(b, 9) && WholeHz(b, 11) && WholeHz(b, 13) && WholeHz(b, 15) && WholeHz(b, 19)
    && FormatConforms(WordAt(b, 25), WordAt(b, 26))
  }

  predicate VersionContextConforms(b: seq<u8>) {
    && |b| == 44
    && WordAt(b, 7) % 0x8000_0000 == 2 && WordAt(b, 8) == 12 && WordAt(b, 9) == 4
    && WordAt(b, 10) % 0x400 == 0
  }

  predicate TimingFlowControlConforms(b: seq<u8>) {
    && |b| == 84
    && WordAt(b, 7) == 0xA100_0000 && WordAt(b, 11) == 0x4030_0002 && WordAt(b, 12) == 2
    && WholeHz(b, 14)
    && WordAt(b, 20) < 0x1_0000
  }

  predicate QueryConforms(b: seq<u8>) {
    && (|b| == 52 || |b| == 60)
    && WordAt(b, 7) == 0xA110_0000
    && (|b| == 52 ==> WordAt(b, 11) == 0x7BB9_8002 && WordAt(b, 12) == 2)
    && (|b| == 60 ==> WordAt(b, 11) == 0x8000_0000)
  }

  predicate ResponseConforms(b: seq<u8>) {
    && |b| >= 56
    && WordAt(b, 7) == 0xA110_0400
    && ((WordAt(b, 11) == 0x7BB9_8002 && WordAt(b, 12) == 2) || (WordAt(b, 11) == 0x8000_0000 && |b| == 72))
  }

  /** The two presence flags, bits 4 and 3 of word 14, state the size. */
  predicate StatusConforms(b: seq<u8>) {
    && (|b| == 60 || |b| == 68 || |b| == 84)
    && WordAt(b, 7) == 0xA108_0000 && WordAt(b, 11) == 0 && WordAt(b, 12) == 0
    && (WordAt(b, 14) / 16 % 2 == 1 <==> |b| != 60)
    && (WordAt(b, 14) / 8 % 2 == 1 <==> |b| == 84)
    && (|b| == 84 ==> WholeHz(b, 17) && WholeHz(b, 19))
  }

  /** What the class id, words 2 and 3, asks of the bytes after the prologue. */
  predicate BodyConforms(b: seq<u8>, options: ParseOptions)
    requires |b| >= 28
  {
    var pad := WordAt(b, 2) / 0x800_0000;
    var informationCode, classCode := WordAt(b, 3) / 0x1_0000, WordAt(b, 3) % 0x1_0000;
    if classCode == 0 || classCode == 2 then DataConforms(b, pad, informationCode, classCode, options) else
    && pad == 0
    && match classCode
       case 1 | 3 => SignalContextConforms(b)
       case 4 => VersionContextConforms(b)
       case 5 | 6 => TimingFlowControlConforms(b)
       case 7 => QueryConforms(b)
       case 8 => ResponseConforms(b)
       case 9 => StatusConforms(b)
       case _ => false
  }

  lemma FractionIsLow(high: u32, low: u32)
    ensures FromHiLo(high, low) % 0x10_0000 == low % 0x10_0000
    ensures U64OfI64(I64OfU64(FromHiLo(high, low))) == FromHiLo(high, low)
  {
    assert high * 0x1_0000_0000 == high * 0x1000 * 0x10_0000;
  }

  lemma FormatExactly(word0: u32, word1: u32)
    ensures ParsePayloadFormat(word0, word1).Ok? <==> FormatConforms(word0, word1)
  {
    var low := word0 % 0x1000;
    assert low == word0 / 64 % 64 * 64 + word0 % 64;
    if ParsePayloadFormat(word0, word1).Ok? {
      assert word0 - 0xA000_0000 == 65 * (word0 % 64);
    }
    if FormatConforms(word0, word1) {
      FormatFields(word0, (word0 - 0xA000_0000) / 65);
    }
  }

  lemma FormatFields(word0: u32, m: int)
    requires 3 <= m <= 15 && word0 == 0xA000_0000 + 65 * m
    ensures word0 % 64 == m && word0 / 64 % 64 == m && word0 - word0 % 0x1000 == 0xA000_0000
  {
    QuotientIs(word0, 64, 0x280_0000 + m, m);
    QuotientIs(word0, 0x1000, 0xA_0000, 65 * m);
  }

  lemma SignalContextExactly(b: seq<u8>, prologue: Prologue, profile: StandardProfile)
    requires 28 <= |b| == 4 * prologue.header.packetSizeWords
    ensures P.ParseSignalContext(b, prologue, profile).Ok?
       <==> prologue.classId.padBitCount == 0 && SignalContextConforms(b)
  {
    hide WordAt, FromHiLo, I64OfU64, U64OfI64, ParsePayloadFormat, FormatConforms, I16OfU16;
    if |b| == 108 {
      FractionIsLow(WordAt(b, 9), WordAt(b, 10));
      FractionIsLow(WordAt(b, 11), WordAt(b, 12));
      FractionIsLow(WordAt(b, 13), WordAt(b, 14));
      FractionIsLow(WordAt(b, 15), WordAt(b, 16));
      FractionIsLow(WordAt(b, 19), WordAt(b, 20));
      FormatExactly(WordAt(b, 25), WordAt(b, 26));
    }
  }

  lemma TimingFlowControlExactly(b: seq<u8>, prologue: Prologue, profile: StandardProfile)
    requires 28 <= |b| == 4 * prologue.header.packetSizeWords
    ensures P.ParseTimingFlowControl(b, prologue, profile).Ok?
       <==> prologue.classId.padBitCount == 0 && TimingFlowControlConforms(b)
  {
    hide WordAt, FromHiLo, I64OfU64, P.DecodeBufferStatus;
    if |b| == 84 {
      FractionIsLow(WordAt(b, 14), WordAt(b, 15));
    }
  }

  lemma StatusExactly(b: seq<u8>, prologue: Prologue, profile: StandardProfile)
    requires 28 <= |b| == 4 * prologue.header.packetSizeWords
    ensures P.ParseStatusReport(b, prologue, profile).Ok? <==> prologue.classId.padBitCount == 0 && StatusConforms(b)
  {
    hide WordAt, FromHiLo, P.QuantitativeFlags;
    if |b| >= 60 {
      FlagBits(WordAt(b, 14));
    }
    if |b| == 84 {
      FractionIsLow(WordAt(b, 17), WordAt(b, 18));
      FractionIsLow(WordAt(b, 19), WordAt(b, 20));
    }
  }

  lemma VersionContextExactly(b: seq<u8>, prologue: Prologue, profile: StandardProfile)
    requires 28 <= |b| == 4 * prologue.header.packetSizeWords
    ensures P.ParseVersionContext(b, prologue, profile).Ok?
       <==> prologue.classId.padBitCount == 0 && VersionContextConforms(b)
  {
    hide WordAt;
    if |b| == 44 {
      var w := WordAt(b, 10);
      assert w % 0x400 == w / 64 % 16 * 64 + w % 64;
    }
  }

  lemma SinkCapabilitiesExactly(b: seq<u8>, prologue: Prologue, profile: StandardProfile)
    requires 28 <= |b| == 4 * prologue.header.packetSizeWords
    ensures P.ParseSinkCapabilitiesQuery(b, prologue, profile).Ok?
       <==> prologue.classId.padBitCount == 0 && QueryConforms(b)
    ensures P.ParseSinkCapabilitiesResponse(b, prologue, profile).Ok?
       <==> prologue.classId.padBitCount == 0 && ResponseConforms(b)
  {
    hide WordAt, FromHiLo;
  }

  /** Word 2 is the pad count over the DIFI identifier, word 3 the two class codes. */
  predicate Identifies(b: seq<u8>, c: ClassId)
    requires |b| >= 28
  {
    && c.padBitCount == WordAt(b, 2) / 0x800_0000
    && WordAt(b, 2) % 0x800_0000 == 0x6A_621E == c.oui
    && c.informationClass.Raw() == WordAt(b, 3) / 0x1_0000
    && c.packetClass.Raw() == WordAt(b, 3) % 0x1_0000
  }

  /** The layouts' parsers accept exactly the bodies that conform. */
  lemma BodyAcceptedExactly(b: seq<u8>, prologue: Prologue, options: ParseOptions)
    requires 28 <= |b| == 4 * prologue.header.packetSizeWords && Identifies(b, prologue.classId)
    ensures P.ParseBody(b, prologue, StandardProfile(options)).Ok? <==> BodyConforms(b, options)
  {
    hide WordAt, P.ParseData, P.ParseSignalContext, P.ParseVersionContext, P.ParseTimingFlowControl,
      P.ParseSinkCapabilitiesQuery, P.ParseSinkCapabilitiesResponse, P.ParseStatusReport,
      DataConforms, SignalContextConforms, VersionContextConforms, TimingFlowControlConforms,
      QueryConforms, ResponseConforms, StatusConforms;
    var profile := StandardProfile(options);
    match prologue.classId.packetClass
    case StandardFlowSignalData | SampleCountSignalData => DataAcceptedExactly(b, prologue, options);
    case StandardFlowSignalContext | SampleCountSignalContext => SignalContextExactly(b, prologue, profile);
    case VersionFlowSignalContext => VersionContextExactly(b, prologue, profile);
    case SampleCountTimingFlowControl | RealTimeTimingFlowControl => TimingFlowControlExactly(b, prologue, profile);
    case SinkCapabilitiesQueryClass | SinkCapabilitiesResponseClass => SinkCapabilitiesExactly(b, prologue, profile);
    case StatusReportClass => StatusExactly(b, prologue, profile);
  }

  // ---- the prologue ----

  /** Which information class codes offer a packet class code: a low byte from 0 to 6, with link establishment above. */
  predicate CodeOffers(informationCode: u16, classCode: u16) {
    var low, linked := informationCode % 0x100, informationCode / 0x100 == 1;
    && low <= 6 && informationCode < 0x200
    && match classCode
       case 0 | 1 => low == 0 || low == 3 || low == 6
       case 2 | 3 => low == 2 || low == 4 || low == 5
       case 4 => informationCode == 1
       case 5 => low == 2 || low == 5
       case 6 => low == 3 || low == 6
       case 7 | 8 => linked
       case 9 => linked && low != 1
       case _ => false
  }

  /** Which packet type codes carry a packet class code: the version packet was type 5 in 1.1 and is type 4 since. */
  predicate CodeCarries(typeCode: u32, classCode: u16, options: ParseOptions) {
    match classCode
    case 0 | 2 => typeCode == 1
    case 1 | 3 => typeCode == 4
    case 4 =>
      || (typeCode == 4 && !options.standard.V1_1?)
      || (typeCode == 5 && (options.standard.V1_1? || options == ParseOptions(V1_2_1, LegacyVersionPacketType)))
    case 5 | 6 => typeCode == 6
    case 7 | 8 | 9 => typeCode == 7
    case _ => false
  }

  /** The type-specific bits of a packet class code: an acknowledgement bit, or a coarse timestamp mode. */
  function BitsOfCode(informationCode: u16, classCode: u16): u8 {
    if classCode == 8 then 4
    else if classCode == 4 then 1
    else if classCode == 1 && informationCode % 0x100 == 0 then 1
    else 0
  }

  predicate PrologueConforms(b: seq<u8>, options: ParseOptions)
    requires |b| >= 28
  {
    var w0 := WordAt(b, 0);
    var informationCode, classCode := WordAt(b, 3) / 0x1_0000, WordAt(b, 3) % 0x1_0000;
    var tsi, tsf := w0 / 0x40_0000 % 4, w0 / 0x10_0000 % 4;
    && WordAt(b, 2) % 0x800_0000 == 0x6A_621E
    && CodeOffers(informationCode, classCode)
    && (options.standard.V1_2_1? ==> informationCode < 0x100)
    && (options.standard.V1_1? ==> informationCode <= 1)
    && CodeCarries(w0 / 0x1000_0000, classCode, options)
    && w0 / 0x800_0000 % 2 == 1
    && w0 / 0x100_0000 % 8 == BitsOfCode(informationCode, classCode)
    && tsi != 0
    && match classCode
       case 2 | 3 | 5 => tsf == 1
       case 0 | 1 | 4 | 6 => tsf == 2
       case _ => tsf == 1 || tsf == 2
  }

  /** The typed admission rule says the same as the codes. */
  lemma AdmissionInCodes(options: ParseOptions, h: PacketHeader, c: ClassId)
    ensures Admissible(options, h, c)
       <==> && h.classIdIndicator
            && CodeOffers(c.informationClass.Raw(), c.packetClass.Raw())
            && (options.standard.V1_2_1? ==> c.informationClass.Raw() < 0x100)
            && (options.standard.V1_1? ==> c.informationClass.Raw() <= 1)
            && CodeCarries(h.packetType.Raw(), c.packetClass.Raw(), options)
            && h.typeSpecificBits == BitsOfCode(c.informationClass.Raw(), c.packetClass.Raw())
            && (c.packetClass.Raw() in {2, 3, 5} ==> h.tsf.Raw() == 1)
            && (c.packetClass.Raw() in {0, 1, 4, 6} ==> h.tsf.Raw() == 2)
  {
    match c.packetClass
    case StandardFlowSignalData | StandardFlowSignalContext =>
    case SampleCountSignalData | SampleCountSignalContext =>
    case _ =>
  }

  /** The prologue is accepted exactly when its codes conform, and then it identifies its class. */
  lemma PrologueAcceptedExactly(b: seq<u8>, options: ParseOptions)
    requires |b| >= 28
    ensures P.ParsePrologue(b, StandardProfile(options)).Ok? <==> PrologueConforms(b, options)
    ensures P.ParsePrologue(b, StandardProfile(options)).Ok? ==>
              var prologue := P.ParsePrologue(b, StandardProfile(options)).value;
              && Identifies(b, prologue.classId)
              && prologue.header.packetSizeWords == WordAt(b, 0) % 0x1_0000
  {
    hide WordAt, Admissible, CodeOffers, CodeCarries, BitsOfCode, StandardProfile.ValidateHeaderAndClass;
    var w0, w2, w3 := WordAt(b, 0), WordAt(b, 2), WordAt(b, 3);
    ClassWords(w2, w3);
    if ParseHeader(w0).Ok? && ParseClassId(w2, w3).Ok? {
      var h, c := ParseHeader(w0).value, ParseClassId(w2, w3).value;
      AdmissionRule(options, h, c);
      AdmissionInCodes(options, h, c);
    }
    if PrologueConforms(b, options) {
      KnownCodes(w0, w3, options);
    }
  }

  /** Codes that carry and offer are codes of some type and class. */
  lemma KnownCodes(w0: u32, w3: u32, options: ParseOptions)
    requires CodeOffers(w3 / 0x1_0000, w3 % 0x1_0000) && CodeCarries(w0 / 0x1000_0000, w3 % 0x1_0000, options)
    ensures PacketType.TryFrom(w0 / 0x1000_0000).Ok?
    ensures InformationClassCode.TryFrom(w3 / 0x1_0000).Ok? && PacketClassCode.TryFrom(w3 % 0x1_0000).Ok?
  {
  }

  // ---- the whole packet ----

  /**
   An input is accepted exactly when its size field is its length, the codes of its
   prologue conform to the profile, and its body conforms to its class code.
   */
  lemma AcceptedExactly(b: seq<u8>, options: ParseOptions)
    ensures P.ParseExact(b, options).Ok?
       <==> && |b| >= 28 && |b| == 4 * (WordAt(b, 0) % 0x1_0000)
            && PrologueConforms(b, options) && BodyConforms(b, options)
  {
    hide P.ParsePrefix, P.ParsePrologue, P.ParseBody, BodyConforms, PrologueConforms, WordAt;
    ParsePrefixUnfolds(b, options);
    if |b| >= 28 && |b| == 4 * (WordAt(b, 0) % 0x1_0000) {
      assert b[..|b|] == b;
      PrologueAcceptedExactly(b, options);
      if P.ParsePrologue(b, StandardProfile(options)).Ok? {
        BodyAcceptedExactly(b, P.ParsePrologue(b, StandardProfile(options)).value, options);
      }
    }
  }
}
