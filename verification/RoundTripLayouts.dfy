/**
 The seven packet layouts: what the writer's validation admits is what the
 layout's parser accepts, field for field and word for word.
 */
module RoundTripLayouts {
  import opened Wrappers
  import opened Raw
  import opened Wire
  import opened Standard
  import opened Encoding
  import opened Arithmetic
  import P = Parser
  import W = Writer

  // ---- reading and collecting words ----

  lemma WordsRead(b: seq<u8>, n: nat)
    requires 4 * n <= |b|
    ensures forall i | 0 <= i < n :: WordAt(b, i) == Words(b, n)[i]
  {
  }

  lemma Collect(b: seq<u8>, k: nat, v: u32)
    requires 4 * k + 4 <= |b| && WordAt(b, k) == v
    ensures Words(b, k + 1) == Words(b, k) + [v]
  {
    WordsExtend(b, k);
  }

  lemma Collect64(b: seq<u8>, k: nat, v: u64)
    requires 4 * k + 8 <= |b| && FromHiLo(WordAt(b, k), WordAt(b, k + 1)) == v
    ensures Words(b, k + 2) == Words(b, k) + [Hi(v)] + [Lo(v)]
  {
    WordsExtend(b, k);
    WordsExtend(b, k + 1);
    FromHiLoInverts(WordAt(b, k), WordAt(b, k + 1));
  }

  lemma ReadBack64(b: seq<u8>, k: nat, v: u64)
    requires 4 * k + 8 <= |b| && WordAt(b, k) == Hi(v) && WordAt(b, k + 1) == Lo(v)
    ensures P.ReadU64(b, k) == Ok(v)
  {
    HiLoInverts(v);
  }

  lemma ReadBackI64(b: seq<u8>, k: nat, v: i64)
    requires 4 * k + 8 <= |b| && WordAt(b, k) == Hi(U64OfI64(v)) && WordAt(b, k + 1) == Lo(U64OfI64(v))
    ensures P.ReadI64(b, k) == Ok(v)
  {
    hide Hi, Lo;
    ReadBack64(b, k, U64OfI64(v));
  }

  lemma CommonParsedThenWritten(b: seq<u8>)
    requires P.ParseCommon(b).Ok?
    ensures 4 * 11 <= |b|
    ensures Words(b, 11) == CommonWords(Words(b, 7), P.ParseCommon(b).value)
  {
    var c := P.ParseCommon(b).value;
    Collect(b, 7, c.cam);
    Collect(b, 8, c.messageId);
    Collect(b, 9, c.controlleeId);
    Collect(b, 10, c.controllerId);
  }

  // ---- signal data ----

  lemma DataWrittenThenParsed(b: seq<u8>, p: SignalDataPacket, profile: StandardProfile)
    requires W.ValidateSignalData(p.prologue, p.payload, profile).Ok?
    requires 28 <= |b| == 4 * p.prologue.header.packetSizeWords && b[28..] == p.payload
    ensures P.ParseData(b, p.prologue, profile) == Ok(p)
  {
  }

  lemma DataParsedThenWritten(b: seq<u8>, prologue: Prologue, profile: StandardProfile)
    requires 28 <= |b| == 4 * prologue.header.packetSizeWords
    requires P.ParseData(b, prologue, profile).Ok?
    ensures var p := P.ParseData(b, prologue, profile).value;
            p.prologue == prologue && p.payload == b[28..] && W.ValidateSignalData(prologue, p.payload, profile).Ok?
  {
  }

  // ---- signal context ----

  lemma PayloadFormatWrittenThenParsed(f: PayloadFormat)
    requires W.ValidatePayloadFormat(f).Ok?
    ensures ParsePayloadFormat(f.rawWord0, f.rawWord1) == Ok(f)
  {
    var m := f.dataItemSizeBits - 1;
    assert f.rawWord0 / 64 == 0x280_0000 + m;
    assert f.rawWord0 / 0x1000 == 0xA_0000;
    assert f.sampleFormat == ComplexSignedCartesian;
  }

  lemma PayloadFormatParsedThenWritten(word0: u32, word1: u32)
    requires ParsePayloadFormat(word0, word1).Ok?
    ensures var f := ParsePayloadFormat(word0, word1).value;
            W.ValidatePayloadFormat(f).Ok? && f.rawWord0 == word0 && f.rawWord1 == word1
  {
    assert word0 % 0x1000 == word0 / 64 % 64 * 64 + word0 % 64;
  }

  /** Where each field of a signal context packet stands. */
  predicate SignalContextAt(b: seq<u8>, p: SignalContextPacket) {
    && P.ReadU32(b, 7) == Ok(p.cif0)
    && P.ReadU32(b, 8) == Ok(p.referencePoint)
    && P.ReadU64(b, 9) == Ok(p.bandwidth)
    && P.ReadI64(b, 11) == Ok(p.ifReferenceFrequency)
    && P.ReadI64(b, 13) == Ok(p.rfReferenceFrequency)
    && P.ReadI64(b, 15) == Ok(p.ifBandOffset)
    && P.ReadU32(b, 17) == Ok(U16OfI16(p.scalingLevel) * 0x1_0000 + U16OfI16(p.referenceLevel))
    && P.ReadU32(b, 18) == Ok(p.gain2 * 0x1_0000 + p.gain1)
    && P.ReadU64(b, 19) == Ok(p.sampleRate)
    && P.ReadI64(b, 21) == Ok(p.timestampAdjustment)
    && P.ReadU32(b, 23) == Ok(p.timestampCalibrationTime)
    && P.ReadU32(b, 24) == Ok(p.stateAndEventIndicators)
    && P.ReadU32(b, 25) == Ok(p.payloadFormat.rawWord0)
    && P.ReadU32(b, 26) == Ok(p.payloadFormat.rawWord1)
  }

  lemma SignalContextPlaced(b: seq<u8>, p: SignalContextPacket)
    requires |b| == 4 * 27
    ensures SignalContextAt(b, p) <==> Words(b, 27) == SignalContextWords(Words(b, 7), p)
  {
    if Words(b, 27) == SignalContextWords(Words(b, 7), p) {
      SignalContextReads(b, p);
    }
    if SignalContextAt(b, p) {
      SignalContextCollects(b, p);
    }
  }

  lemma SignalContextReads(b: seq<u8>, p: SignalContextPacket)
    requires |b| == 4 * 27 && Words(b, 27) == SignalContextWords(Words(b, 7), p)
    ensures SignalContextAt(b, p)
  {
    hide WordAt, Hi, Lo, U64OfI64, U16OfI16, FromHiLo, I16OfU16, I64OfU64;
    WordsRead(b, 27);
    ReadBack64(b, 9, p.bandwidth);
    ReadBackI64(b, 11, p.ifReferenceFrequency);
    ReadBackI64(b, 13, p.rfReferenceFrequency);
    ReadBackI64(b, 15, p.ifBandOffset);
    ReadBack64(b, 19, p.sampleRate);
    ReadBackI64(b, 21, p.timestampAdjustment);
  }

  lemma SignalContextCollects(b: seq<u8>, p: SignalContextPacket)
    requires |b| == 4 * 27 && SignalContextAt(b, p)
    ensures Words(b, 27) == SignalContextWords(Words(b, 7), p)
  {
    hide WordAt;
    Collect(b, 7, p.cif0);
    Collect(b, 8, p.referencePoint);
    Collect64(b, 9, p.bandwidth);
    Collect64(b, 11, U64OfI64(p.ifReferenceFrequency));
    Collect64(b, 13, U64OfI64(p.rfReferenceFrequency));
    Collect64(b, 15, U64OfI64(p.ifBandOffset));
    Collect(b, 17, U16OfI16(p.scalingLevel) * 0x1_0000 + U16OfI16(p.referenceLevel));
    Collect(b, 18, p.gain2 * 0x1_0000 + p.gain1);
    Collect64(b, 19, p.sampleRate);
    Collect64(b, 21, U64OfI64(p.timestampAdjustment));
    Collect(b, 23, p.timestampCalibrationTime);
    Collect(b, 24, p.stateAndEventIndicators);
    Collect(b, 25, p.payloadFormat.rawWord0);
    Collect(b, 26, p.payloadFormat.rawWord1);
  }

  lemma SignalContextWrittenThenParsed(b: seq<u8>, p: SignalContextPacket, profile: StandardProfile)
    requires W.ValidateSignalContext(p, profile).Ok?
    requires |b| == 4 * 27 && SignalContextAt(b, p)
    ensures P.ParseSignalContext(b, p.prologue, profile) == Ok(p)
  {
    hide WordAt, Hi, Lo, FromHiLo;
    PayloadFormatWrittenThenParsed(p.payloadFormat);
    HalvesInvert(U16OfI16(p.scalingLevel), U16OfI16(p.referenceLevel));
    HalvesInvert(p.gain2, p.gain1);
  }

  lemma SignalContextParsedThenWritten(b: seq<u8>, prologue: Prologue, profile: StandardProfile)
    requires |b| == 4 * prologue.header.packetSizeWords
    requires P.ParseSignalContext(b, prologue, profile).Ok?
    ensures |b| == 4 * 27
    ensures var p := P.ParseSignalContext(b, prologue, profile).value;
            && p.prologue == prologue
            && W.ValidateSignalContext(p, profile).Ok?
            && SignalContextAt(b, p)
  {
    hide WordAt;
    PayloadFormatParsedThenWritten(WordAt(b, 25), WordAt(b, 26));
  }

  // ---- version context ----

  /** The bit fields of the version word. */
  lemma VersionFields(p: VersionContextPacket)
    requires VersionFits(p)
    ensures var w := VersionWord(p);
            && w / 0x200_0000 == p.year
            && w / 0x1_0000 % 0x200 == p.day
            && w / 0x400 % 64 == p.revision
            && w / 64 % 16 == p.deviceType
            && w % 64 == 0
  {
    var w := VersionWord(p);
    var y: int, d: int, r: int, t: int := p.year, p.day, p.revision, p.deviceType;
    QuotientIs(w, 64, t + 16 * (r + 64 * (d + 0x200 * y)), 0);
    QuotientIs(w, 0x400, r + 64 * (d + 0x200 * y), t * 64);
    QuotientIs(w, 0x1_0000, d + 0x200 * y, r * 0x400 + t * 64);
    QuotientIs(w, 0x200_0000, y, d * 0x1_0000 + r * 0x400 + t * 64);
  }

  lemma VersionContextWrittenThenParsed(b: seq<u8>, p: VersionContextPacket, profile: StandardProfile)
    requires VersionFits(p) && W.ValidateVersionContext(p, profile).Ok?
    requires |b| == 4 * 11 && Words(b, 11) == VersionContextWords(Words(b, 7), p)
    ensures P.ParseVersionContext(b, p.prologue, profile) == Ok(p)
  {
    hide WordAt;
    WordsRead(b, 11);
    VersionFields(p);
    assert p.icdVersion == Version1;
  }

  lemma VersionContextParsedThenWritten(b: seq<u8>, prologue: Prologue, profile: StandardProfile)
    requires |b| == 4 * prologue.header.packetSizeWords
    requires P.ParseVersionContext(b, prologue, profile).Ok?
    ensures |b| == 4 * 11
    ensures var p := P.ParseVersionContext(b, prologue, profile).value;
            && p.prologue == prologue
            && VersionFits(p) && W.ValidateVersionContext(p, profile).Ok?
            && Words(b, 11) == VersionContextWords(Words(b, 7), p)
  {
    hide WordAt;
    var p := P.ParseVersionContext(b, prologue, profile).value;
    Collect(b, 7, p.cif0);
    Collect(b, 8, p.cif1);
    Collect(b, 9, p.vita49SpecVersion);
    var w := WordAt(b, 10);
    assert w / 0x200_0000 == w / 0x1_0000 / 0x200 && w / 0x1_0000 == w / 0x400 / 64 && w / 0x400 == w / 64 / 16;
    Collect(b, 10, VersionWord(p));
  }

  // ---- timing flow control ----

  lemma BufferStatusWrittenThenParsed(s: BufferStatus)
    requires W.ValidateBufferStatus(s).Ok?
    ensures s.raw / 0x1_0000 == 0 && P.DecodeBufferStatus(s.raw) == s
  {
    assert s.raw / 16 == s.bufferLevel;
  }

  lemma NibbleBits(f: int)
    requires 0 <= f < 16
    ensures f == f / 8 % 2 * 8 + f / 4 % 2 * 4 + f / 2 % 2 * 2 + f % 2
  {
  }

  lemma BufferStatusParsedThenWritten(raw: u32)
    requires raw / 0x1_0000 == 0
    ensures var s := P.DecodeBufferStatus(raw); s.raw == raw && W.ValidateBufferStatus(s).Ok?
  {
    NibbleBits(raw % 16);
    assert raw / 16 % 0x1000 == raw / 16;
  }

  /** Where each field of a timing flow control packet stands. */
  predicate TimingFlowControlAt(b: seq<u8>, p: TimingFlowControlPacket) {
    && P.ParseCommon(b) == Ok(p.common)
    && P.ReadU32(b, 11) == Ok(p.cif0)
    && P.ReadU32(b, 12) == Ok(p.cif1)
    && P.ReadU32(b, 13) == Ok(p.referencePoint)
    && P.ReadU64(b, 14) == Ok(p.sampleRate)
    && P.ReadI64(b, 16) == Ok(p.timestampAdjustment)
    && P.ReadU64(b, 18) == Ok(p.bufferSizeBytes)
    && P.ReadU32(b, 20) == Ok(p.bufferStatus.raw)
  }

  lemma TimingFlowControlPlaced(b: seq<u8>, p: TimingFlowControlPacket)
    requires |b| == 4 * 21
    ensures TimingFlowControlAt(b, p) <==> Words(b, 21) == TimingFlowControlWords(Words(b, 7), p)
  {
    hide WordAt, Hi, Lo, FromHiLo;
    if Words(b, 21) == TimingFlowControlWords(Words(b, 7), p) {
      WordsRead(b, 21);
      ReadBack64(b, 14, p.sampleRate);
      ReadBackI64(b, 16, p.timestampAdjustment);
      ReadBack64(b, 18, p.bufferSizeBytes);
    }
    if TimingFlowControlAt(b, p) {
      CommonParsedThenWritten(b);
      Collect(b, 11, p.cif0);
      Collect(b, 12, p.cif1);
      Collect(b, 13, p.referencePoint);
      Collect64(b, 14, p.sampleRate);
      Collect64(b, 16, U64OfI64(p.timestampAdjustment));
      Collect64(b, 18, p.bufferSizeBytes);
      Collect(b, 20, p.bufferStatus.raw);
    }
  }

  lemma TimingFlowControlWrittenThenParsed(b: seq<u8>, p: TimingFlowControlPacket, profile: StandardProfile)
    requires W.ValidateTimingFlowControl(p, profile).Ok?
    requires |b| == 4 * 21 && TimingFlowControlAt(b, p)
    ensures P.ParseTimingFlowControl(b, p.prologue, profile) == Ok(p)
  {
    hide WordAt;
    BufferStatusWrittenThenParsed(p.bufferStatus);
  }

  lemma TimingFlowControlParsedThenWritten(b: seq<u8>, prologue: Prologue, profile: StandardProfile)
    requires |b| == 4 * prologue.header.packetSizeWords
    requires P.ParseTimingFlowControl(b, prologue, profile).Ok?
    ensures |b| == 4 * 21
    ensures var p := P.ParseTimingFlowControl(b, prologue, profile).value;
            && p.prologue == prologue
            && W.ValidateTimingFlowControl(p, profile).Ok?
            && TimingFlowControlAt(b, p)
  {
    hide WordAt;
    BufferStatusParsedThenWritten(WordAt(b, 20));
  }

  // ---- sink capabilities query ----

  lemma QueryWrittenThenParsed(b: seq<u8>, p: SinkCapabilitiesQueryPacket, profile: StandardProfile)
    requires QueryFits(p) && W.ValidateSinkCapabilitiesQuery(p, profile).Ok?
    requires var n := if p.form.Long? then 13 else 15;
             |b| == 4 * n && Words(b, n) == QueryWords(Words(b, 7), p)
    ensures P.ParseSinkCapabilitiesQuery(b, p.prologue, profile) == Ok(p)
  {
    hide WordAt;
    WordsRead(b, if p.form.Long? then 13 else 15);
  }

  lemma QueryParsedThenWritten(b: seq<u8>, prologue: Prologue, profile: StandardProfile)
    requires |b| == 4 * prologue.header.packetSizeWords
    requires P.ParseSinkCapabilitiesQuery(b, prologue, profile).Ok?
    ensures var p := P.ParseSinkCapabilitiesQuery(b, prologue, profile).value;
            var n := if p.form.Long? then 13 else 15;
            && p.prologue == prologue
            && QueryFits(p) && W.ValidateSinkCapabilitiesQuery(p, profile).Ok?
            && |b| == 4 * n && Words(b, n) == QueryWords(Words(b, 7), p)
  {
    hide WordAt;
    var p := P.ParseSinkCapabilitiesQuery(b, prologue, profile).value;
    CommonParsedThenWritten(b);
    Collect(b, 11, p.cif0);
    Collect(b, 12, WordAt(b, 12));
    if p.form.Short? {
      Collect64(b, 13, p.sinkTimeCalibrationFractional.value);
    }
  }

  // ---- sink capabilities response ----

  lemma ResponseWrittenThenParsed(b: seq<u8>, p: SinkCapabilitiesResponsePacket, profile: StandardProfile)
    requires ResponseFits(p) && W.ValidateSinkCapabilitiesResponse(p, profile).Ok?
    requires |b| == 4 * p.prologue.header.packetSizeWords
    requires p.form.Long? ==>
               4 * 13 <= |b| && Words(b, 13) == ResponseWords(Words(b, 7), p) && b[4 * 13..] == p.capabilityTable
    requires p.form.Short? ==> |b| == 4 * 18 && Words(b, 18) == ResponseWords(Words(b, 7), p)
    ensures P.ParseSinkCapabilitiesResponse(b, p.prologue, profile) == Ok(p)
  {
    hide WordAt;
    WordsRead(b, if p.form.Long? then 13 else 18);
  }

  lemma ResponseParsedThenWritten(b: seq<u8>, prologue: Prologue, profile: StandardProfile)
    requires |b| == 4 * prologue.header.packetSizeWords
    requires P.ParseSinkCapabilitiesResponse(b, prologue, profile).Ok?
    ensures var p := P.ParseSinkCapabilitiesResponse(b, prologue, profile).value;
            && p.prologue == prologue
            && ResponseFits(p) && W.ValidateSinkCapabilitiesResponse(p, profile).Ok?
            && (p.form.Long? ==>
                  && 4 * 13 < |b| && Words(b, 13) == ResponseWords(Words(b, 7), p)
                  && b[4 * 13..] == p.capabilityTable)
            && (p.form.Short? ==> |b| == 4 * 18 && Words(b, 18) == ResponseWords(Words(b, 7), p))
  {
    hide WordAt;
    var p := P.ParseSinkCapabilitiesResponse(b, prologue, profile).value;
    CommonParsedThenWritten(b);
    Collect(b, 11, p.cif0);
    Collect(b, 12, WordAt(b, 12));
    if p.form.Short? {
      Collect64(b, 13, p.controlPacketFractionalTimestamp.value);
      Collect(b, 15, p.sinkReceptionIntegerTimestamp.value);
      Collect64(b, 16, p.sinkReceptionFractionalTimestamp.value);
    }
  }

  // ---- status report ----

  /** Where each field of a status report packet stands. */
  predicate StatusAt(b: seq<u8>, p: StatusReportPacket)
    requires StatusFits(p)
  {
    && P.ParseCommon(b) == Ok(p.common)
    && P.ReadU32(b, 11) == Ok(p.cif0)
    && P.ReadU32(b, 12) == Ok(p.cif1)
    && P.ReadU32(b, 13) == Ok(p.packetErrors)
    && P.ReadU32(b, 14) == Ok(p.sinkErrorsWarnings)
    && (p.referenceLevelLimit.Some? ==>
          && P.ReadU32(b, 15) == Ok(p.referenceLevelLimit.value.rawMinMax)
          && P.ReadU32(b, 16) == Ok(p.referenceLevelLimit.value.rawResolutionReserved))
    && (p.sampleRateLimit.Some? ==>
          && P.ReadU64(b, 17) == Ok(p.sampleRateLimit.value)
          && P.ReadU64(b, 19) == Ok(p.bandwidthLimit.value))
  }

  lemma StatusPlaced(b: seq<u8>, p: StatusReportPacket)
    requires StatusFits(p) && |b| == 4 * StatusSize(p)
    ensures StatusAt(b, p) <==> Words(b, StatusSize(p)) == ReportWords(Words(b, 7), p)
  {
    hide WordAt, Hi, Lo;
    if Words(b, StatusSize(p)) == ReportWords(Words(b, 7), p) {
      WordsRead(b, StatusSize(p));
      if p.sampleRateLimit.Some? {
        ReadBack64(b, 17, p.sampleRateLimit.value);
        ReadBack64(b, 19, p.bandwidthLimit.value);
      }
    }
    if StatusAt(b, p) {
      CommonParsedThenWritten(b);
      Collect(b, 11, p.cif0);
      Collect(b, 12, p.cif1);
      Collect(b, 13, p.packetErrors);
      Collect(b, 14, p.sinkErrorsWarnings);
      if p.referenceLevelLimit.Some? {
        Collect(b, 15, p.referenceLevelLimit.value.rawMinMax);
        Collect(b, 16, p.referenceLevelLimit.value.rawResolutionReserved);
      }
      if p.sampleRateLimit.Some? {
        Collect64(b, 17, p.sampleRateLimit.value);
        Collect64(b, 19, p.bandwidthLimit.value);
      }
    }
  }

  lemma StatusWrittenThenParsed(b: seq<u8>, p: StatusReportPacket, profile: StandardProfile)
    requires StatusFits(p) && W.ValidateStatusReport(p, profile).Ok?
    requires p.prologue.header.packetSizeWords == StatusSize(p)
    requires |b| == 4 * StatusSize(p) && StatusAt(b, p)
    ensures P.ParseStatusReport(b, p.prologue, profile) == Ok(p)
  {
    hide WordAt;
  }

  lemma StatusParsedThenWritten(b: seq<u8>, prologue: Prologue, profile: StandardProfile)
    requires |b| == 4 * prologue.header.packetSizeWords
    requires P.ParseStatusReport(b, prologue, profile).Ok?
    ensures var p := P.ParseStatusReport(b, prologue, profile).value;
            && p.prologue == prologue
            && StatusFits(p) && W.ValidateStatusReport(p, profile).Ok?
            && |b| == 4 * StatusSize(p) && StatusAt(b, p)
  {
    hide WordAt;
  }
}
