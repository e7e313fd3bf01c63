/** The prologue's bit fields: packing and unpacking undo each other. */
module RoundTripPrologue {
  import opened Wrappers
  import opened Raw
  import opened Wire
  import opened Standard
  import opened Encoding
  import opened Arithmetic
  import P = Parser

  /** The codes of the standard. */
  lemma CodesAreStandard()
    ensures SignalDataWithStreamId.Raw() == 1 && ContextWithStreamId.Raw() == 4 && VersionWithStreamId.Raw() == 5
    ensures CommandWithStreamId.Raw() == 6 && ExtensionCommandWithStreamId.Raw() == 7
    ensures Utc.Raw() == 1 && Gps.Raw() == 2 && Posix.Raw() == 3
    ensures SampleCount.Raw() == 1 && RealTimePicoseconds.Raw() == 2
    ensures BasicDataPlane.Raw() == 0 && VersionFlow.Raw() == 1
    ensures DataPlaneUpstreamFlowControlSampleCount.Raw() == 2 && DataPlaneUpstreamFlowControlRealTime.Raw() == 3
    ensures BasicDataPlaneSampleCount.Raw() == 4
    ensures DataPlaneDownstreamFlowControlSampleCount.Raw() == 5 && DataPlaneDownstreamFlowControlRealTime.Raw() == 6
    ensures BasicDataPlaneWithLinkEstablishment.Raw() == 0x100 && StandaloneLinkEstablishment.Raw() == 0x101
    ensures DataPlaneUpstreamFlowControlSampleCountWithLinkEstablishment.Raw() == 0x102
    ensures DataPlaneUpstreamFlowControlRealTimeWithLinkEstablishment.Raw() == 0x103
    ensures BasicDataPlaneSampleCountWithLinkEstablishment.Raw() == 0x104
    ensures DataPlaneDownstreamFlowControlSampleCountWithLinkEstablishment.Raw() == 0x105
    ensures DataPlaneDownstreamFlowControlRealTimeWithLinkEstablishment.Raw() == 0x106
    ensures StandardFlowSignalData.Raw() == 0 && StandardFlowSignalContext.Raw() == 1
    ensures SampleCountSignalData.Raw() == 2 && SampleCountSignalContext.Raw() == 3
    ensures VersionFlowSignalContext.Raw() == 4
    ensures SampleCountTimingFlowControl.Raw() == 5 && RealTimeTimingFlowControl.Raw() == 6
    ensures SinkCapabilitiesQueryClass.Raw() == 7 && SinkCapabilitiesResponseClass.Raw() == 8
    ensures StatusReportClass.Raw() == 9
  {
  }

  /** Every enumeration is decoded from its own codes, and from no others. */
  lemma CodesInvert(value: u16)
    ensures forall t: PacketType :: PacketType.TryFrom(t.Raw()) == Ok(t)
    ensures forall t: Tsi :: Tsi.TryFrom(t.Raw()) == Ok(t)
    ensures forall t: Tsf :: Tsf.TryFrom(t.Raw()) == Ok(t)
    ensures forall c: InformationClassCode :: InformationClassCode.TryFrom(c.Raw()) == Ok(c)
    ensures forall c: PacketClassCode :: PacketClassCode.TryFrom(c.Raw()) == Ok(c)
    ensures value < 0x100 ==> (PacketType.TryFrom(value).Ok? <==> exists t: PacketType :: t.Raw() == value)
    ensures value < 0x100 ==> (Tsi.TryFrom(value).Ok? <==> exists t: Tsi :: t.Raw() == value)
    ensures value < 0x100 ==> (Tsf.TryFrom(value).Ok? <==> exists t: Tsf :: t.Raw() == value)
    ensures InformationClassCode.TryFrom(value).Ok? <==> exists c: InformationClassCode :: c.Raw() == value
    ensures PacketClassCode.TryFrom(value).Ok? <==> exists c: PacketClassCode :: c.Raw() == value
  {
  }

  /** A header whose raw word and timestamp mode agree with its decoded fields. */
  predicate HeaderAgrees(h: PacketHeader) {
    && h.sequence <= 15 && h.typeSpecificBits <= 7
    && h.classIdIndicator
    && h.tsm == TsmOf(h.packetType, h.typeSpecificBits)
    && h.raw == HeaderBits(h)
  }

  /** The bit fields of the header word, from the least significant end. */
  lemma HeaderFields(h: PacketHeader)
    requires h.sequence <= 15 && h.typeSpecificBits <= 7
    ensures var w := HeaderBits(h);
            && w % 0x1_0000 == h.packetSizeWords
            && w / 0x1_0000 % 16 == h.sequence
            && w / 0x10_0000 % 4 == h.tsf.Raw()
            && w / 0x40_0000 % 4 == h.tsi.Raw()
            && w / 0x100_0000 % 8 == h.typeSpecificBits
            && w / 0x800_0000 % 2 == 1
            && w / 0x1000_0000 == h.packetType.Raw()
  {
    var w := HeaderBits(h);
    var t: int, b: int, i: int, f: int, s: int :=
      h.packetType.Raw(), h.typeSpecificBits, h.tsi.Raw(), h.tsf.Raw(), h.sequence;
    var z: int := h.packetSizeWords;
    QuotientIs(w, 0x1_0000, s + 16 * (f + 4 * (i + 4 * (b + 8 * (1 + 2 * t)))), z);
    QuotientIs(w, 0x10_0000, f + 4 * (i + 4 * (b + 8 * (1 + 2 * t))), s * 0x1_0000 + z);
    QuotientIs(w, 0x40_0000, i + 4 * (b + 8 * (1 + 2 * t)), f * 0x10_0000 + s * 0x1_0000 + z);
    QuotientIs(w, 0x100_0000, b + 8 * (1 + 2 * t), i * 0x40_0000 + f * 0x10_0000 + s * 0x1_0000 + z);
    QuotientIs(w, 0x800_0000, 1 + 2 * t, b * 0x100_0000 + i * 0x40_0000 + f * 0x10_0000 + s * 0x1_0000 + z);
    QuotientIs(w, 0x1000_0000, t, 0x800_0000 + b * 0x100_0000 + i * 0x40_0000 + f * 0x10_0000 + s * 0x1_0000 + z);
  }

  /** Packing a header and parsing the word gives the header back. */
  lemma HeaderWrittenThenParsed(h: PacketHeader)
    requires HeaderAgrees(h)
    ensures ParseHeader(h.raw) == Ok(h)
  {
    HeaderFields(h);
  }

  /** Parsing a word and packing the header gives the word back. */
  lemma HeaderParsedThenWritten(raw: u32)
    requires ParseHeader(raw).Ok? && ParseHeader(raw).value.classIdIndicator
    ensures HeaderAgrees(ParseHeader(raw).value)
  {
    var h := ParseHeader(raw).value;
    assert raw / 0x10_0000 == raw / 0x1_0000 / 16;
    assert raw / 0x40_0000 == raw / 0x10_0000 / 4;
    assert raw / 0x100_0000 == raw / 0x40_0000 / 4;
    assert raw / 0x800_0000 == raw / 0x100_0000 / 8;
    assert raw / 0x1000_0000 == raw / 0x800_0000 / 2;
  }

  lemma ClassIdWrittenThenParsed(c: ClassId)
    requires c.padBitCount <= 31 && c.oui == 0x6A_621E
    ensures ParseClassId(c.padBitCount * 0x800_0000 + c.oui, ClassWord(c)) == Ok(c)
  {
    var word0 := c.padBitCount * 0x800_0000 + c.oui;
    assert word0 / 0x100_0000 == c.padBitCount * 8;
    var word1 := ClassWord(c);
    assert word1 / 0x1_0000 == c.informationClass.Raw() && word1 % 0x1_0000 == c.packetClass.Raw();
  }

  lemma ClassIdParsedThenWritten(word0: u32, word1: u32)
    requires ParseClassId(word0, word1).Ok?
    ensures var c := ParseClassId(word0, word1).value;
            && c.padBitCount <= 31 && c.oui == 0x6A_621E
            && c.padBitCount * 0x800_0000 + c.oui == word0
            && ClassWord(c) == word1
  {
    assert word0 / 0x800_0000 == word0 / 0x100_0000 / 8;
  }

  lemma ClassWords(w2: u32, w3: u32)
    ensures w2 % 0x800_0000 == 0x6A_621E <==> w2 / 0x100_0000 % 8 == 0 && w2 % 0x100_0000 == 0x6A_621E
    ensures ParseClassId(w2, w3).Ok?
       <==> && w2 % 0x800_0000 == 0x6A_621E
            && InformationClassCode.TryFrom(w3 / 0x1_0000).Ok? && PacketClassCode.TryFrom(w3 % 0x1_0000).Ok?
    ensures ParseClassId(w2, w3).Ok? ==>
              var c := ParseClassId(w2, w3).value;
              && c.padBitCount == w2 / 0x800_0000 && c.oui == 0x6A_621E
              && c.informationClass.Raw() == w3 / 0x1_0000 && c.packetClass.Raw() == w3 % 0x1_0000
  {
    assert w2 % 0x800_0000 == w2 / 0x100_0000 % 8 * 0x100_0000 + w2 % 0x100_0000;
  }

  /** Everything that the prologue checks establish, on either side. */
  predicate PrologueChecked(p: Prologue, profile: StandardProfile) {
    && PrologueFits(p)
    && p.classId.oui == DIFI_CID
    && HeaderAgrees(p.header)
    && profile.ValidateHeaderAndClass(p.header, p.classId).Ok?
  }

  lemma PrologueWrittenThenParsed(b: seq<u8>, p: Prologue, profile: StandardProfile)
    requires PrologueChecked(p, profile)
    requires 28 <= |b| && Words(b, 7) == PrologueWords(p)
    ensures P.ParsePrologue(b, profile) == Ok(p)
  {
    hide WordAt, HeaderBits, ClassWord, ParseClassId, ParseHeader;
    var ws := PrologueWords(p);
    assert forall i | 0 <= i < 7 :: WordAt(b, i) == Words(b, 7)[i];
    HeaderWrittenThenParsed(p.header);
    ClassIdWrittenThenParsed(p.classId);
    assert ws[0] == p.header.raw && ws[1] == p.streamId && ws[3] == ClassWord(p.classId);
    assert ws[2] == p.classId.padBitCount * 0x800_0000 + p.classId.oui;
    assert ws[4] == p.integerSecondsTimestamp;
    assert ws[5] == Hi(p.fractionalSecondsTimestamp) && ws[6] == Lo(p.fractionalSecondsTimestamp);
  }

  lemma PrologueParsedThenWritten(b: seq<u8>, profile: StandardProfile)
    requires P.ParsePrologue(b, profile).Ok?
    ensures 28 <= |b|
    ensures var p := P.ParsePrologue(b, profile).value;
            PrologueChecked(p, profile) && Words(b, 7) == PrologueWords(p)
  {
    hide WordAt;
    var p := P.ParsePrologue(b, profile).value;
    HeaderParsedThenWritten(WordAt(b, 0));
    ClassIdParsedThenWritten(WordAt(b, 2), WordAt(b, 3));
    var ws := PrologueWords(p);
    assert forall i | 0 <= i < 7 :: WordAt(b, i) == Words(b, 7)[i];
    assert ws[0] == WordAt(b, 0) && ws[1] == WordAt(b, 1) && ws[2] == WordAt(b, 2) && ws[3] == WordAt(b, 3);
    assert ws[4] == WordAt(b, 4) && ws[5] == WordAt(b, 5) && ws[6] == WordAt(b, 6);
  }
}
