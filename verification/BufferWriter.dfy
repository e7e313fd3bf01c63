/** Emission into a caller-owned buffer (src/writer.rs). */
module BufferWriter {
  import opened Wrappers
  import opened Raw
  import opened Wire
  import opened Encoding
  import opened Writer
  import opened Prepared

  /** Nothing outside words `from..to` of the buffer has changed. */
  twostate predicate OnlyWords(out: array<u8>, from: nat, to: nat)
    reads out
  {
    forall k | 0 <= k < out.Length && !(4 * from <= k < 4 * to) :: out[k] == old(out[k])
  }

  /** The prologue that is written: the plan overrides the header fields it names. */
  function Planned(prologue: Prologue, plan: WritePlan): Prologue {
    prologue.(header := prologue.header.(
                packetType := plan.packetType,
                typeSpecificBits := plan.typeSpecificBits,
                packetSizeWords := plan.packetSizeWords))
  }

  method WritePrologue(prologue: Prologue, plan: WritePlan, out: array<u8>)
    requires PrologueFits(prologue) && plan.typeSpecificBits <= 7
    requires 28 <= out.Length
    modifies out
    ensures Words(out[..], 7) == PrologueWords(Planned(prologue, plan))
    ensures OnlyWords(out, 0, 7)
  {
    var headerWord := HeaderWord(plan.packetType, plan.typeSpecificBits, prologue.header.tsi, prologue.header.tsf,
                                 prologue.header.sequence, plan.packetSizeWords);
    // the source's `expect`
    assert headerWord.Ok?;
    WriteU32(out, 0, headerWord.value);
    WriteU32(out, 1, prologue.streamId);
    WriteU32(out, 2, prologue.classId.padBitCount * 0x800_0000 + prologue.classId.oui);
    WriteU32(out, 3, prologue.classId.informationClass.Raw() * 0x1_0000 + prologue.classId.packetClass.Raw());
    WriteU32(out, 4, prologue.integerSecondsTimestamp);
    WriteU64(out, 5, prologue.fractionalSecondsTimestamp);
  }

  method WriteSignalContext(packet: SignalContextPacket, out: array<u8>)
    requires 4 * 27 <= out.Length
    modifies out
    ensures Words(out[..], 27) == SignalContextWords(old(Words(out[..], 7)), packet)
    ensures OnlyWords(out, 7, 27)
  {
    hide Hi, Lo, U64OfI64, Words;
    WriteU32(out, 7, packet.cif0);
    WriteU32(out, 8, packet.referencePoint);
    WriteU64(out, 9, packet.bandwidth);
    WriteI64(out, 11, packet.ifReferenceFrequency);
    WriteI64(out, 13, packet.rfReferenceFrequency);
    WriteI64(out, 15, packet.ifBandOffset);
    WriteU32(out, 17, U16OfI16(packet.scalingLevel) * 0x1_0000 + U16OfI16(packet.referenceLevel));
    WriteU32(out, 18, packet.gain2 * 0x1_0000 + packet.gain1);
    WriteU64(out, 19, packet.sampleRate);
    WriteI64(out, 21, packet.timestampAdjustment);
    WriteU32(out, 23, packet.timestampCalibrationTime);
    WriteU32(out, 24, packet.stateAndEventIndicators);
    WriteU32(out, 25, packet.payloadFormat.rawWord0);
    WriteU32(out, 26, packet.payloadFormat.rawWord1);
  }

  method WriteVersionContext(packet: VersionContextPacket, out: array<u8>)
    requires VersionFits(packet)
    requires 4 * 11 <= out.Length
    modifies out
    ensures Words(out[..], 11) == VersionContextWords(old(Words(out[..], 7)), packet)
    ensures OnlyWords(out, 7, 11)
  {
    WriteU32(out, 7, packet.cif0);
    WriteU32(out, 8, packet.cif1);
    WriteU32(out, 9, packet.vita49SpecVersion);
    var versionWord := packet.year * 0x200_0000 + packet.day * 0x1_0000 + packet.revision * 0x400
                       + packet.deviceType * 64 + packet.icdVersion.Raw();
    WriteU32(out, 10, versionWord);
  }

  method WriteCommon(common: CommandCommon, out: array<u8>)
    requires 4 * 11 <= out.Length
    modifies out
    ensures Words(out[..], 11) == CommonWords(old(Words(out[..], 7)), common)
    ensures OnlyWords(out, 7, 11)
  {
    WriteU32(out, 7, common.cam);
    WriteU32(out, 8, common.messageId);
    WriteU32(out, 9, common.controlleeId);
    WriteU32(out, 10, common.controllerId);
  }

  method WriteTimingFlowControl(packet: TimingFlowControlPacket, out: array<u8>)
    requires 4 * 21 <= out.Length
    modifies out
    ensures Words(out[..], 21) == TimingFlowControlWords(old(Words(out[..], 7)), packet)
    ensures OnlyWords(out, 7, 21)
  {
    WriteCommon(packet.common, out);
    WriteU32(out, 11, packet.cif0);
    WriteU32(out, 12, packet.cif1);
    WriteU32(out, 13, packet.referencePoint);
    WriteU64(out, 14, packet.sampleRate);
    WriteI64(out, 16, packet.timestampAdjustment);
    WriteU64(out, 18, packet.bufferSizeBytes);
    WriteU32(out, 20, packet.bufferStatus.raw);
  }

  /** The first field of a query's form that is absent, in the order in which the step reaches them. */
  function AbsentFromQuery(p: SinkCapabilitiesQueryPacket): Option<FieldName> {
    match p.form
    case Long => if p.cif1.None? then Some(FCif1) else None
    case Short =>
      if p.sinkTimeCalibrationInteger.None? then Some(FSinkTimeCalibrationInteger)
      else if p.sinkTimeCalibrationFractional.None? then Some(FSinkTimeCalibrationFractional)
      else None
  }

  function AbsentFromResponse(p: SinkCapabilitiesResponsePacket): Option<FieldName> {
    match p.form
    case Long => if p.cif1.None? then Some(FCif1) else None
    case Short =>
      if p.controlPacketIntegerTimestamp.None? then Some(FControlPacketIntegerTimestamp)
      else if p.controlPacketFractionalTimestamp.None? then Some(FControlPacketFractionalTimestamp)
      else if p.sinkReceptionIntegerTimestamp.None? then Some(FSinkReceptionIntegerTimestamp)
      else if p.sinkReceptionFractionalTimestamp.None? then Some(FSinkReceptionFractionalTimestamp)
      else None
  }

  /** Fails exactly for a packet that does not fit its form, naming the first absent field. */
  method WriteSinkCapabilitiesQuery(packet: SinkCapabilitiesQueryPacket, out: array<u8>)
    returns (r: Verdict)
    requires 4 * (if packet.form.Long? then 13 else 15) <= out.Length
    modifies out
    ensures r.Ok? <==> QueryFits(packet)
    ensures r == match AbsentFromQuery(packet)
                 case None => Ok(())
                 case Some(field) => Err(MissingField(field))
    ensures QueryFits(packet) ==>
              var n := if packet.form.Long? then 13 else 15;
              Words(out[..], n) == QueryWords(old(Words(out[..], 7)), packet)
    ensures OnlyWords(out, 7, if packet.form.Long? then 13 else 15)
  {
    WriteCommon(packet.common, out);
    WriteU32(out, 11, packet.cif0);
    match packet.form {
      case Long =>
        var cif1 :- Require(FCif1, packet.cif1);
        WriteU32(out, 12, cif1);
      case Short =>
        var integerTime :- Require(FSinkTimeCalibrationInteger, packet.sinkTimeCalibrationInteger);
        WriteU32(out, 12, integerTime);
        var fractionalTime :- Require(FSinkTimeCalibrationFractional, packet.sinkTimeCalibrationFractional);
        WriteU64(out, 13, fractionalTime);
    }
    return Ok(());
  }

  method WriteSinkCapabilitiesResponse(packet: SinkCapabilitiesResponsePacket, out: array<u8>)
    returns (r: Verdict)
    requires packet.form.Long? ==> 4 * 13 + |packet.capabilityTable| <= out.Length
    requires packet.form.Short? ==> 4 * 18 <= out.Length
    modifies out
    ensures r.Ok? <==> ResponseFits(packet)
    ensures r == match AbsentFromResponse(packet)
                 case None => Ok(())
                 case Some(field) => Err(MissingField(field))
    ensures ResponseFits(packet) && packet.form.Long? ==>
              && Words(out[..], 13) == ResponseWords(old(Words(out[..], 7)), packet)
              && out[4 * 13..4 * 13 + |packet.capabilityTable|] == packet.capabilityTable
    ensures ResponseFits(packet) && packet.form.Short? ==>
              Words(out[..], 18) == ResponseWords(old(Words(out[..], 7)), packet)
    ensures packet.form.Short? ==> OnlyWords(out, 7, 18)
    ensures packet.form.Long? ==>
              forall k | 0 <= k < 28 || 4 * 13 + |packet.capabilityTable| <= k < out.Length :: out[k] == old(out[k])
  {
    WriteCommon(packet.common, out);
    WriteU32(out, 11, packet.cif0);
    match packet.form {
      case Long =>
        var cif1 :- Require(FCif1, packet.cif1);
        WriteU32(out, 12, cif1);
        ghost var filled := out[..];
        CopyFromSlice(out, 4 * 13, packet.capabilityTable);
        WordsOfPrefix(filled, out[..], 13);
      case Short =>
        var controlInteger :- Require(FControlPacketIntegerTimestamp, packet.controlPacketIntegerTimestamp);
        WriteU32(out, 12, controlInteger);
        var controlFractional :-
          Require(FControlPacketFractionalTimestamp, packet.controlPacketFractionalTimestamp);
        WriteU64(out, 13, controlFractional);
        var receptionInteger :- Require(FSinkReceptionIntegerTimestamp, packet.sinkReceptionIntegerTimestamp);
        WriteU32(out, 15, receptionInteger);
        var receptionFractional :-
          Require(FSinkReceptionFractionalTimestamp, packet.sinkReceptionFractionalTimestamp);
        WriteU64(out, 16, receptionFractional);
    }
    return Ok(());
  }

  /** The limits that are present stand in their own words, whichever they are. */
  predicate LimitsAt(b: seq<u8>, p: StatusReportPacket) {
    && (p.referenceLevelLimit.Some? ==>
          && 4 * 17 <= |b|
          && WordAt(b, 15) == p.referenceLevelLimit.value.rawMinMax
          && WordAt(b, 16) == p.referenceLevelLimit.value.rawResolutionReserved)
    && (p.sampleRateLimit.Some? ==>
          4 * 19 <= |b| && FromHiLo(WordAt(b, 17), WordAt(b, 18)) == p.sampleRateLimit.value)
    && (p.bandwidthLimit.Some? ==>
          4 * 21 <= |b| && FromHiLo(WordAt(b, 19), WordAt(b, 20)) == p.bandwidthLimit.value)
  }

  /** The bytes of the limits that are present. */
  predicate InLimits(p: StatusReportPacket, k: nat) {
    || (p.referenceLevelLimit.Some? && 60 <= k < 68)
    || (p.sampleRateLimit.Some? && 68 <= k < 76)
    || (p.bandwidthLimit.Some? && 76 <= k < 84)
  }

  lemma LastWords(b: seq<u8>, k: nat)
    requires 4 * k + 8 <= |b|
    ensures Words(b, k + 2) == Words(b, k) + [WordAt(b, k)] + [WordAt(b, k + 1)]
    ensures Words(b, k + 2)[k] == WordAt(b, k) && Words(b, k + 2)[k + 1] == WordAt(b, k + 1)
  {
    WordsExtend(b, k);
    WordsExtend(b, k + 1);
  }

  lemma SameTwoWords(s: seq<u8>, t: seq<u8>, k: nat)
    requires |s| == |t| && 4 * k + 8 <= |s|
    requires forall i | 4 * k <= i < 4 * k + 8 :: s[i] == t[i]
    ensures WordAt(s, k) == WordAt(t, k) && WordAt(s, k + 1) == WordAt(t, k + 1)
  {
    assert s[4 * k..4 * k + 4] == t[4 * k..4 * k + 4];
    assert s[4 * k + 4..4 * k + 8] == t[4 * k + 4..4 * k + 8];
  }

  /** With the limits in order, the head and the limits in place are the report's words. */
  lemma ReportOfParts(b: seq<u8>, head: seq<u32>, p: StatusReportPacket)
    requires 4 * 15 <= |b| && Words(b, 15) == ReportHeadWords(head, p) && LimitsAt(b, p)
    ensures StatusFits(p) ==> 4 * StatusSize(p) <= |b| && Words(b, StatusSize(p)) == ReportWords(head, p)
  {
    hide WordAt, Words, ReportHeadWords, Hi, Lo, FromHiLo;
    if StatusFits(p) && p.referenceLevelLimit.Some? {
      LastWords(b, 15);
      if p.sampleRateLimit.Some? {
        LastWords(b, 17);
        LastWords(b, 19);
        FromHiLoInverts(WordAt(b, 17), WordAt(b, 18));
        FromHiLoInverts(WordAt(b, 19), WordAt(b, 20));
      }
    }
  }

  /** Writes whichever limits are present; a report whose limits are in order leaves no gap between its words. */
  method WriteStatusReport(packet: StatusReportPacket, out: array<u8>) returns (r: Verdict)
    requires 4 * 15 <= out.Length
    requires packet.referenceLevelLimit.Some? ==> 4 * 17 <= out.Length
    requires packet.sampleRateLimit.Some? ==> 4 * 19 <= out.Length
    requires packet.bandwidthLimit.Some? ==> 4 * 21 <= out.Length
    modifies out
    ensures r.Ok?
    ensures Words(out[..], 15) == ReportHeadWords(old(Words(out[..], 7)), packet)
    ensures LimitsAt(out[..], packet)
    ensures forall k | 0 <= k < out.Length && !(28 <= k < 60) && !InLimits(packet, k) :: out[k] == old(out[k])
    ensures StatusFits(packet) ==>
              var n := StatusSize(packet);
              && Words(out[..], n) == ReportWords(old(Words(out[..], 7)), packet)
              && OnlyWords(out, 7, n)
  {
    hide WordAt, Words, Hi, Lo, FromHiLo, CommonWords, ReportWords;
    WriteCommon(packet.common, out);
    WriteU32(out, 11, packet.cif0);
    WriteU32(out, 12, packet.cif1);
    WriteU32(out, 13, packet.packetErrors);
    WriteU32(out, 14, packet.sinkErrorsWarnings);
    ghost var head := out[..];
    assert Words(head, 15) == ReportHeadWords(old(Words(out[..], 7)), packet);
    if packet.referenceLevelLimit.Some? {
      WriteU32(out, 15, packet.referenceLevelLimit.value.rawMinMax);
      WriteU32(out, 16, packet.referenceLevelLimit.value.rawResolutionReserved);
      LastWords(out[..], 15);
      assert WordAt(out[..], 15) == packet.referenceLevelLimit.value.rawMinMax;
      assert WordAt(out[..], 16) == packet.referenceLevelLimit.value.rawResolutionReserved;
    }
    ghost var upToLevel := out[..];
    if packet.sampleRateLimit.Some? {
      WriteU64(out, 17, packet.sampleRateLimit.value);
      LastWords(out[..], 17);
      HiLoInverts(packet.sampleRateLimit.value);
    }
    ghost var upToRate := out[..];
    if packet.bandwidthLimit.Some? {
      WriteU64(out, 19, packet.bandwidthLimit.value);
      LastWords(out[..], 19);
      HiLoInverts(packet.bandwidthLimit.value);
    }
    WordsOfPrefix(head, out[..], 15);
    if packet.referenceLevelLimit.Some? {
      SameTwoWords(upToLevel, out[..], 15);
    }
    if packet.sampleRateLimit.Some? {
      SameTwoWords(upToRate, out[..], 17);
    }
    assert LimitsAt(out[..], packet);
    ReportOfParts(out[..], old(Words(out[..], 7)), packet);
    return Ok(());
  }

  /** The emission step after the prologue, for a packet that fits. */
  method WriteBody(packet: Packet, out: array<u8>) returns (r: Verdict)
    requires Fits(packet) && 4 * WordCount(packet) + |Tail(packet)| <= out.Length
    requires Words(out[..], 7) == PrologueWords(packet.Prologue())
    modifies out
    ensures r.Ok?
    ensures Words(out[..], WordCount(packet)) == PacketWords(packet)
    ensures out[4 * WordCount(packet)..4 * WordCount(packet) + |Tail(packet)|] == Tail(packet)
    ensures forall k | 4 * WordCount(packet) + |Tail(packet)| <= k < out.Length :: out[k] == old(out[k])
  {
    r := Ok(());
    match packet {
      case SignalData(p) =>
        CopyFromSlice(out, 28, p.payload);
        WordsOfPrefix(old(out[..]), out[..], 7);
      case SignalContext(p) => WriteSignalContext(p, out);
      case VersionContext(p) => WriteVersionContext(p, out);
      case TimingFlowControl(p) => WriteTimingFlowControl(p, out);
      case SinkCapabilitiesQuery(p) => r := WriteSinkCapabilitiesQuery(p, out);
      case SinkCapabilitiesResponse(p) => r := WriteSinkCapabilitiesResponse(p, out);
      case StatusReport(p) => r := WriteStatusReport(p, out);
    }
  }

  /** Prologue and body of a packet that fits, into a buffer that is long enough. */
  method WriteFitting(packet: Packet, plan: WritePlan, out: array<u8>) returns (r: Verdict)
    requires Fits(packet) && |Encode(packet)| <= out.Length
    requires Planned(packet.Prologue(), plan) == packet.Prologue()
    modifies out
    ensures r.Ok?
    ensures out[..] == Encode(packet) + old(out[|Encode(packet)|..])
  {
    hide PacketWords, Words;
    WritePrologue(packet.Prologue(), plan, out);
    r := WriteBody(packet, out);
    EncodedBuffer(old(out[..]), out[..], packet);
  }

  /**
   What writing a packet makes of a buffer: the encoding followed by the untouched
   rest if the packet is accepted and fits, and the buffer as it was otherwise.
   */
  function BufferAfter(packet: Packet, before: seq<u8>, options: WriteOptions): (after: seq<u8>)
    ensures |after| == |before|
  {
    if EncodedLen(packet, options).Ok? && EncodedLen(packet, options).value <= |before| then
      PreparedFits(packet, options);
      Encode(packet) + before[|Encode(packet)|..]
    else before
  }

  /**
   Writes one packet, or nothing.  After `PreparePacket` has accepted, none of
   the emission steps can fail; before that, the buffer has not been touched.
   */
  method WritePacket(packet: Packet, out: array<u8>, options: WriteOptions) returns (r: Result<nat, WriteError>)
    modifies out
    ensures r == match EncodedLen(packet, options)
                 case Err(e) => Err(e)
                 case Ok(n) => if out.Length < n then Err(OutputTooSmall(n, out.Length)) else Ok(n)
    ensures out[..] == BufferAfter(packet, old(out[..]), options)
    ensures r.Err? ==> out[..] == old(out[..])
    ensures r.Ok? ==> Fits(packet) && out[..r.value] == Encode(packet) && out[r.value..] == old(out[r.value..])
  {
    hide Encode;
    var plan :- PreparePacket(packet, options);
    var encodedLen := plan.packetSizeWords * 4;
    if out.Length < encodedLen {
      return Err(OutputTooSmall(encodedLen, out.Length));
    }
    PreparedFits(packet, options);
    var written := WriteFitting(packet, plan, out);
    assert written.Ok?;
    return Ok(encodedLen);
  }

  /** A buffer that holds the packet's words, then its tail, then what was there before. */
  lemma EncodedBuffer(before: seq<u8>, after: seq<u8>, packet: Packet)
    requires Fits(packet) && 4 * WordCount(packet) + |Tail(packet)| <= |after| == |before|
    requires Words(after, WordCount(packet)) == PacketWords(packet)
    requires after[4 * WordCount(packet)..4 * WordCount(packet) + |Tail(packet)|] == Tail(packet)
    requires forall k | 4 * WordCount(packet) + |Tail(packet)| <= k < |after| :: after[k] == before[k]
    ensures after == Encode(packet) + before[|Encode(packet)|..]
  {
    hide PacketWords, Tail, WordCount, Words;
    var n, m := 4 * WordCount(packet), |Encode(packet)|;
    BytesOfWords(after, WordCount(packet));
    assert after == after[..n] + after[n..m] + after[m..];
    assert after[m..] == before[m..];
  }
}
