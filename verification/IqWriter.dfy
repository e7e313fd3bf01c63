/** Direct writing of ComplexI8 and ComplexI16 signal data (src/writer.rs). */
module IqWriter {
  import opened Wrappers
  import opened Raw
  import opened Wire
  import opened Standard
  import opened Encoding
  import opened Samples
  import opened RoundTrip
  import opened Prepared
  import opened Profiles
  import opened Acceptance
  import opened Rejection
  import B = BufferWriter
  import C = Codec
  import P = Parser
  import W = Writer

  datatype SignalDataWriteSpec = SignalDataWriteSpec(
    streamId: u32,
    informationClass: InformationClassCode,
    packetClass: PacketClassCode,
    tsi: Tsi,
    tsf: Tsf,
    sequence: u8,
    integerSecondsTimestamp: u32,
    fractionalSecondsTimestamp: u64)

  function IqI8Words(spec: SignalDataWriteSpec, samples: seq<ComplexI8>): Result<u16, WriteError> {
    if |samples| % 2 != 0 then Err(OddComplexI8SampleCount(|samples|)) else
    SignalDataSpecWords(spec, |samples| * 2)
  }

  function IqI16Words(spec: SignalDataWriteSpec, samples: seq<ComplexI16>): Result<u16, WriteError> {
    SignalDataSpecWords(spec, |samples| * 4)
  }

  function EncodedIqI8Len(spec: SignalDataWriteSpec, samples: seq<ComplexI8>): Result<nat, WriteError> {
    var words :- IqI8Words(spec, samples);
    Ok(words * 4)
  }

  function EncodedIqI16Len(spec: SignalDataWriteSpec, samples: seq<ComplexI16>): Result<nat, WriteError> {
    var words :- IqI16Words(spec, samples);
    Ok(words * 4)
  }

  function SpecClassId(spec: SignalDataWriteSpec): ClassId {
    ClassId(0, DIFI_CID, spec.informationClass, spec.packetClass)
  }

  function SignalDataSpecWords(spec: SignalDataWriteSpec, payloadBytes: nat): (r: Result<u16, WriteError>)
    ensures r.Ok? ==> spec.sequence <= 15 && 4 * r.value == 28 + payloadBytes
  {
    if payloadBytes % 4 != 0 then Err(PayloadLengthNotWordAligned(payloadBytes)) else
    if spec.sequence > 15 then Err(FieldOutOfRange(FSequence, 15, spec.sequence)) else
    var words := 7 + payloadBytes / 4;
    if words >= 0x1_0000 then Err(PacketTooLarge(words)) else
    var headerWord :- W.HeaderWord(SignalDataWithStreamId, 0, spec.tsi, spec.tsf, spec.sequence, words);
    var header := PacketHeader(headerWord, SignalDataWithStreamId, true, 0, None, spec.tsi, spec.tsf,
                               spec.sequence, words);
    var _ :- FirstError(W.AsWrite(StandardProfile(DEFAULT).ValidateHeaderAndClass(header, SpecClassId(spec))),
                        W.ValidateClassId(SpecClassId(spec)));
    Ok(words)
  }

  /** Two checks in sequence. */
  function FirstError(one: W.Verdict, two: W.Verdict): W.Verdict {
    if one.Err? then one else two
  }

  // ---- the packet that the spec describes ----

  /** The header of a packet of that many words; the 16-bit size field truncates. */
  function SpecHeader(spec: SignalDataWriteSpec, words: nat): PacketHeader {
    var size := words % 0x1_0000;
    var headerWord := W.HeaderWord(SignalDataWithStreamId, 0, spec.tsi, spec.tsf, spec.sequence, size);
    PacketHeader(if headerWord.Ok? then headerWord.value else 0, SignalDataWithStreamId, true, 0, None,
                 spec.tsi, spec.tsf, spec.sequence, size)
  }

  function SpecPrologue(spec: SignalDataWriteSpec, words: nat): Prologue {
    Prologue(SpecHeader(spec, words), spec.streamId, SpecClassId(spec), spec.integerSecondsTimestamp,
             spec.fractionalSecondsTimestamp)
  }

  /** The signal data packet with zero padding and this payload. */
  function IqPacket(spec: SignalDataWriteSpec, payload: seq<u8>): Packet {
    SignalData(SignalDataPacket(SpecPrologue(spec, 7 + |payload| / 4), payload))
  }

  /** The direct writers' checks are those of the general writer on that packet. */
  lemma SpecWordsArePrepared(spec: SignalDataWriteSpec, payload: seq<u8>)
    ensures SignalDataSpecWords(spec, |payload|).Ok? <==> Writable(IqPacket(spec, payload), DEFAULT)
    ensures SignalDataSpecWords(spec, |payload|).Ok? ==>
              W.EncodedLen(IqPacket(spec, payload), DEFAULT) == Ok(SignalDataSpecWords(spec, |payload|).value * 4)
  {
    hide StandardProfile.ValidateHeaderAndClass;
    var p := IqPacket(spec, payload);
    var words := 7 + |payload| / 4;
    if |payload| % 4 == 0 && words < 0x1_0000 {
      var plan := W.WritePlan(SignalDataWithStreamId, 0, words);
      assert W.ValidatePrologue(p.Prologue(), plan, DEFAULT).Ok? <==> SignalDataSpecWords(spec, |payload|).Ok?;
    }
  }

  /**
   The direct writer succeeds exactly when the general writer succeeds on the packet,
   and then with the same length.
   */
  lemma IqI8RefinesWriter(spec: SignalDataWriteSpec, samples: seq<ComplexI8>)
    ensures var p := IqPacket(spec, EncodeI8(samples));
            && (EncodedIqI8Len(spec, samples).Ok? <==> W.EncodedLen(p, DEFAULT).Ok?)
            && (EncodedIqI8Len(spec, samples).Ok? ==> EncodedIqI8Len(spec, samples) == W.EncodedLen(p, DEFAULT))
  {
    hide SignalDataSpecWords, W.PreparePacket;
    var payload := EncodeI8(samples);
    SpecWordsArePrepared(spec, payload);
    if |samples| % 2 != 0 {
      assert |payload| % 4 != 0;
      OddPayloadIsRejected(spec, payload);
    }
  }

  lemma OddPayloadIsRejected(spec: SignalDataWriteSpec, payload: seq<u8>)
    requires |payload| % 4 != 0
    ensures W.PreparePacket(IqPacket(spec, payload), DEFAULT) == Err(PayloadLengthNotWordAligned(|payload|))
  {
  }

  lemma IqI16RefinesWriter(spec: SignalDataWriteSpec, samples: seq<ComplexI16>)
    ensures var p := IqPacket(spec, EncodeI16(samples));
            && (EncodedIqI16Len(spec, samples).Ok? <==> W.EncodedLen(p, DEFAULT).Ok?)
            && (EncodedIqI16Len(spec, samples).Ok? ==> EncodedIqI16Len(spec, samples) == W.EncodedLen(p, DEFAULT))
  {
    hide SignalDataSpecWords, W.PreparePacket;
    SpecWordsArePrepared(spec, EncodeI16(samples));
  }

  // ---- when the direct writers succeed ----

  /** Signal data in the flow's own time base, in an information class that offers it. */
  predicate SpecAdmitted(spec: SignalDataWriteSpec) {
    && (spec.packetClass.StandardFlowSignalData? || spec.packetClass.SampleCountSignalData?)
    && spec.tsf == (if spec.packetClass.SampleCountSignalData? then SampleCount else RealTimePicoseconds)
    && Offers(spec.informationClass, spec.packetClass)
  }

  lemma SpecWordsExactly(spec: SignalDataWriteSpec, payloadBytes: nat)
    ensures SignalDataSpecWords(spec, payloadBytes).Ok?
       <==> && SpecAdmitted(spec) && spec.sequence <= 15
            && payloadBytes % 4 == 0 && payloadBytes <= 4 * 65528
  {
    hide Offers, StandardProfile.AllowsPacketClass;
    MembershipRule(DEFAULT, spec.informationClass, spec.packetClass);
  }

  /** With an admitted spec, the sample count alone decides: an even count up to 131056, or any count up to 65528. */
  lemma IqSucceedsExactly(spec: SignalDataWriteSpec, narrow: seq<ComplexI8>, wide: seq<ComplexI16>)
    ensures EncodedIqI8Len(spec, narrow).Ok?
       <==> SpecAdmitted(spec) && spec.sequence <= 15 && |narrow| % 2 == 0 && |narrow| <= 131056
    ensures EncodedIqI16Len(spec, wide).Ok?
       <==> SpecAdmitted(spec) && spec.sequence <= 15 && |wide| <= 65528
  {
    hide SignalDataSpecWords, SpecAdmitted;
    SpecWordsExactly(spec, |narrow| * 2);
    SpecWordsExactly(spec, |wide| * 4);
  }

  /** Why the direct writers refuse a spec with a payload of whole words. */
  function SpecError(spec: SignalDataWriteSpec, payloadBytes: nat): Option<WriteError>
    requires payloadBytes % 4 == 0
  {
    var informationCode, classCode := spec.informationClass.Raw(), spec.packetClass.Raw();
    if spec.sequence > 15 then Some(FieldOutOfRange(FSequence, 15, spec.sequence))
    else if payloadBytes > 4 * 65528 then Some(PacketTooLarge(7 + payloadBytes / 4))
    else if classCode != 0 && classCode != 2 then
      Some(Profile(PacketTypeClassMismatch(SignalDataWithStreamId, spec.packetClass)))
    else if !CodeOffers(informationCode, classCode) then
      Some(Profile(PacketClassNotInInformationClass(spec.informationClass, spec.packetClass)))
    else if classCode == 0 && spec.tsf.Raw() != 2 then
      Some(Profile(InvalidTsfForPacketClass(spec.packetClass, RealTimePicoseconds, SampleCount)))
    else if classCode == 2 && spec.tsf.Raw() != 1 then
      Some(Profile(InvalidTsfForPacketClass(spec.packetClass, SampleCount, RealTimePicoseconds)))
    else None
  }

  lemma SpecWordsReport(spec: SignalDataWriteSpec, payloadBytes: nat)
    requires payloadBytes % 4 == 0
    ensures SignalDataSpecWords(spec, payloadBytes) ==
            match SpecError(spec, payloadBytes)
            case Some(e) => Err(e)
            case None => Ok(7 + payloadBytes / 4)
  {
    hide CodeOffers, StandardProfile.AllowsPacketClass;
    MembershipInCodes(DEFAULT, SpecClassId(spec));
    match spec.packetClass
    case StandardFlowSignalData | SampleCountSignalData =>
    case _ =>
  }

  /** The direct writers' answers: the first error, or the length in bytes. */
  lemma IqAnswersExactly(spec: SignalDataWriteSpec, narrow: seq<ComplexI8>, wide: seq<ComplexI16>)
    ensures EncodedIqI8Len(spec, narrow) ==
            if |narrow| % 2 != 0 then Err(OddComplexI8SampleCount(|narrow|)) else
            match SpecError(spec, 2 * |narrow|)
            case Some(e) => Err(e)
            case None => Ok(28 + 2 * |narrow|)
    ensures EncodedIqI16Len(spec, wide) ==
            match SpecError(spec, 4 * |wide|)
            case Some(e) => Err(e)
            case None => Ok(28 + 4 * |wide|)
  {
    hide SignalDataSpecWords, SpecError;
    if |narrow| % 2 == 0 {
      SpecWordsReport(spec, 2 * |narrow|);
    }
    SpecWordsReport(spec, 4 * |wide|);
  }

  // ---- write, parse, decode ----

  /** The spec's fields, the DIFI identifier and the length in words, as numbers in the first seven words. */
  predicate OnWire(b: seq<u8>, spec: SignalDataWriteSpec)
    requires |b| >= 28
  {
    && WordAt(b, 0) == 0x1800_0000 + spec.tsi.Raw() * 0x40_0000 + spec.tsf.Raw() * 0x10_0000
                       + spec.sequence * 0x1_0000 + |b| / 4
    && WordAt(b, 1) == spec.streamId
    && WordAt(b, 2) == 0x6A_621E
    && WordAt(b, 3) == spec.informationClass.Raw() * 0x1_0000 + spec.packetClass.Raw()
    && WordAt(b, 4) == spec.integerSecondsTimestamp
    && WordAt(b, 5) * 0x1_0000_0000 + WordAt(b, 6) == spec.fractionalSecondsTimestamp
  }

  lemma IqOnWire(spec: SignalDataWriteSpec, payload: seq<u8>)
    requires SignalDataSpecWords(spec, |payload|).Ok? && Fits(IqPacket(spec, payload))
    ensures var b := Encode(IqPacket(spec, payload));
            |b| == 28 + |payload| && OnWire(b, spec) && b[28..] == payload
  {
    hide WordAt, BytesOf, StandardProfile.ValidateHeaderAndClass;
    var p := IqPacket(spec, payload);
    EncodedShape(p);
    var b, ws := Encode(p), PrologueWords(p.Prologue());
    assert forall i | 0 <= i < 7 :: WordAt(b, i) == Words(b, 7)[i] == ws[i];
    assert ws[0] == HeaderBits(p.Prologue().header) && ws[1] == spec.streamId && ws[2] == 0x6A_621E;
    assert ws[3] == ClassWord(SpecClassId(spec)) && ws[4] == spec.integerSecondsTimestamp;
    assert ws[5] == Hi(spec.fractionalSecondsTimestamp) && ws[6] == Lo(spec.fractionalSecondsTimestamp);
    HiLoInverts(spec.fractionalSecondsTimestamp);
  }

  /** The packet that the direct writers emit parses back whole. */
  lemma IqParses(spec: SignalDataWriteSpec, payload: seq<u8>)
    requires SignalDataSpecWords(spec, |payload|).Ok?
    ensures Fits(IqPacket(spec, payload))
    ensures P.ParseExact(Encode(IqPacket(spec, payload)), DEFAULT) == Ok(IqPacket(spec, payload))
  {
    hide SignalDataSpecWords, W.PreparePacket, Encode, P.ParseExact, Writable, SpecPrologue;
    SpecWordsArePrepared(spec, payload);
    SpecWordsExactly(spec, |payload|);
    assert (IqPacket(spec, payload)).Prologue().classId == SpecClassId(spec) by { SpecParts(spec, payload); }
    C.WriteThenParse(IqPacket(spec, payload), DEFAULT);
  }

  lemma SpecParts(spec: SignalDataWriteSpec, payload: seq<u8>)
    ensures IqPacket(spec, payload).Prologue().classId == SpecClassId(spec)
  {
  }

  /** The samples and every field of the spec come back. */
  predicate Carries(p: Packet, spec: SignalDataWriteSpec) {
    && p.SignalData?
    && p.Prologue().streamId == spec.streamId
    && p.Prologue().classId == SpecClassId(spec)
    && p.Prologue().header.tsi == spec.tsi
    && p.Prologue().header.tsf == spec.tsf
    && p.Prologue().header.sequence == spec.sequence
    && p.Prologue().integerSecondsTimestamp == spec.integerSecondsTimestamp
    && p.Prologue().fractionalSecondsTimestamp == spec.fractionalSecondsTimestamp
  }

  lemma IqI8EndToEnd(spec: SignalDataWriteSpec, samples: seq<ComplexI8>)
    requires EncodedIqI8Len(spec, samples).Ok?
    ensures Fits(IqPacket(spec, EncodeI8(samples)))
    ensures var parsed := P.ParseExact(Encode(IqPacket(spec, EncodeI8(samples))), DEFAULT);
            && parsed.Ok? && Carries(parsed.value, spec)
            && |parsed.value.signalData.payload| % 2 == 0
            && DecodeI8(parsed.value.signalData.payload) == samples
    ensures var b := Encode(IqPacket(spec, EncodeI8(samples)));
            |b| >= 28 && OnWire(b, spec) && SpelledI8(samples, b[28..])
  {
    hide P.ParseExact, Encode, SignalDataSpecWords, DecodeI8, OnWire, SpelledI8;
    IqParses(spec, EncodeI8(samples));
    DecodeInvertsEncodeI8(samples);
    EncodedIsSpelledI8(samples);
    IqOnWire(spec, EncodeI8(samples));
  }

  lemma IqI16EndToEnd(spec: SignalDataWriteSpec, samples: seq<ComplexI16>)
    requires EncodedIqI16Len(spec, samples).Ok?
    ensures Fits(IqPacket(spec, EncodeI16(samples)))
    ensures var parsed := P.ParseExact(Encode(IqPacket(spec, EncodeI16(samples))), DEFAULT);
            && parsed.Ok? && Carries(parsed.value, spec)
            && |parsed.value.signalData.payload| % 4 == 0
            && DecodeI16(parsed.value.signalData.payload) == samples
    ensures var b := Encode(IqPacket(spec, EncodeI16(samples)));
            |b| >= 28 && OnWire(b, spec) && SpelledI16(samples, b[28..])
  {
    hide P.ParseExact, Encode, SignalDataSpecWords, DecodeI16, OnWire, SpelledI16;
    IqParses(spec, EncodeI16(samples));
    DecodeInvertsEncodeI16(samples);
    EncodedIsSpelledI16(samples);
    IqOnWire(spec, EncodeI16(samples));
  }

  // ---- emission ----

  method WriteSpecPrologue(spec: SignalDataWriteSpec, words: u16, out: array<u8>)
    requires spec.sequence <= 15 && 28 <= out.Length
    modifies out
    ensures PrologueFits(SpecPrologue(spec, words)) && Words(out[..], 7) == PrologueWords(SpecPrologue(spec, words))
    ensures forall k | 28 <= k < out.Length :: out[k] == old(out[k])
  {
    hide Words, Hi, Lo;
    var headerWord := W.HeaderWord(SignalDataWithStreamId, 0, spec.tsi, spec.tsf, spec.sequence, words);
    // the source's `expect`
    assert headerWord.Ok?;
    WriteU32(out, 0, headerWord.value);
    WriteU32(out, 1, spec.streamId);
    WriteU32(out, 2, DIFI_CID);
    WriteU32(out, 3, spec.informationClass.Raw() * 0x1_0000 + spec.packetClass.Raw());
    WriteU32(out, 4, spec.integerSecondsTimestamp);
    WriteU64(out, 5, spec.fractionalSecondsTimestamp);
  }

  /** The prologue's words, then the payload, then what was there before: that is the packet's encoding. */
  lemma IqBuffer(before: seq<u8>, after: seq<u8>, spec: SignalDataWriteSpec, payload: seq<u8>)
    requires SignalDataSpecWords(spec, |payload|).Ok? && 28 + |payload| <= |after| == |before|
    requires PrologueFits(SpecPrologue(spec, 7 + |payload| / 4))
    requires Words(after, 7) == PrologueWords(SpecPrologue(spec, 7 + |payload| / 4))
    requires after[28..28 + |payload|] == payload
    requires forall k | 28 + |payload| <= k < |after| :: after[k] == before[k]
    ensures var p := IqPacket(spec, payload);
            && Fits(p) && |Encode(p)| == SignalDataSpecWords(spec, |payload|).value * 4
            && after == Encode(p) + before[|Encode(p)|..]
  {
    hide Words, SpecPrologue, PrologueWords, W.PreparePacket;
    SpecWordsArePrepared(spec, payload);
    var p := IqPacket(spec, payload);
    PreparedFits(p, DEFAULT);
    B.EncodedBuffer(before, after, p);
  }

  method WriteIqDataI8(spec: SignalDataWriteSpec, samples: seq<ComplexI8>, out: array<u8>)
    returns (r: Result<nat, WriteError>)
    modifies out
    ensures r == match EncodedIqI8Len(spec, samples)
                 case Err(e) => Err(e)
                 case Ok(n) => if out.Length < n then Err(OutputTooSmall(n, out.Length)) else Ok(n)
    ensures out[..] == B.BufferAfter(IqPacket(spec, EncodeI8(samples)), old(out[..]), DEFAULT)
    ensures r.Ok? ==>
              && Fits(IqPacket(spec, EncodeI8(samples)))
              && out[..r.value] == Encode(IqPacket(spec, EncodeI8(samples)))
  {
    IqI8RefinesWriter(spec, samples);
    hide SignalDataSpecWords, SpecPrologue, PrologueWords, Words, PrologueFits, SpelledI8, SpelledI16;
    var words :- IqI8Words(spec, samples);
    var encodedLen := words as int * 4;
    if out.Length < encodedLen {
      return Err(OutputTooSmall(encodedLen, out.Length));
    }
    WriteSpecPrologue(spec, words, out);
    EmitI8(samples, out);
    IqBuffer(old(out[..]), out[..], spec, EncodeI8(samples));
    return Ok(encodedLen);
  }

  /** The sample loop of `write_iq_data_i8`. */
  method EmitI8(samples: seq<ComplexI8>, out: array<u8>)
    requires 28 + 2 * |samples| <= out.Length
    modifies out
    ensures out[28..28 + 2 * |samples|] == EncodeI8(samples)
    ensures SpelledI8(samples, out[28..28 + 2 * |samples|])
    ensures Words(out[..], 7) == old(Words(out[..], 7))
    ensures forall k | 28 + 2 * |samples| <= k < out.Length :: out[k] == old(out[k])
  {
    var offset := 28;
    for n := 0 to |samples|
      invariant offset == 28 + 2 * n
      invariant out[28..offset] == EncodeI8(samples[..n])
      invariant forall k | 0 <= k < 28 || offset <= k < out.Length :: out[k] == old(out[k])
    {
      out[offset] := U8OfI8(samples[n].i);
      out[offset + 1] := U8OfI8(samples[n].q);
      offset := offset + 2;
      assert samples[..n + 1][..n] == samples[..n];
      assert out[28..offset] == out[28..offset - 2] + [out[offset - 2], out[offset - 1]];
    }
    assert samples[..|samples|] == samples;
    EncodedIsSpelledI8(samples);
    WordsOfPrefix(out[..], old(out[..]), 7);
  }

  method WriteIqDataI16(spec: SignalDataWriteSpec, samples: seq<ComplexI16>, out: array<u8>)
    returns (r: Result<nat, WriteError>)
    modifies out
    ensures r == match EncodedIqI16Len(spec, samples)
                 case Err(e) => Err(e)
                 case Ok(n) => if out.Length < n then Err(OutputTooSmall(n, out.Length)) else Ok(n)
    ensures out[..] == B.BufferAfter(IqPacket(spec, EncodeI16(samples)), old(out[..]), DEFAULT)
    ensures r.Ok? ==>
              && Fits(IqPacket(spec, EncodeI16(samples)))
              && out[..r.value] == Encode(IqPacket(spec, EncodeI16(samples)))
  {
    IqI16RefinesWriter(spec, samples);
    hide SignalDataSpecWords, SpecPrologue, PrologueWords, Words, PrologueFits, SpelledI8, SpelledI16;
    var words :- IqI16Words(spec, samples);
    var encodedLen := words as int * 4;
    if out.Length < encodedLen {
      return Err(OutputTooSmall(encodedLen, out.Length));
    }
    WriteSpecPrologue(spec, words, out);
    EmitI16(samples, out);
    IqBuffer(old(out[..]), out[..], spec, EncodeI16(samples));
    return Ok(encodedLen);
  }

  lemma OneMoreI16(samples: seq<ComplexI16>, n: nat)
    requires n < |samples|
    ensures EncodeI16(samples[..n + 1]) ==
            EncodeI16(samples[..n]) + Be16(U16OfI16(samples[n].i)) + Be16(U16OfI16(samples[n].q))
  {
    assert samples[..n + 1][..n] == samples[..n];
  }

  /** The sample loop of `write_iq_data_i16`. */
  method EmitI16(samples: seq<ComplexI16>, out: array<u8>)
    requires 28 + 4 * |samples| <= out.Length
    modifies out
    ensures out[28..28 + 4 * |samples|] == EncodeI16(samples)
    ensures SpelledI16(samples, out[28..28 + 4 * |samples|])
    ensures Words(out[..], 7) == old(Words(out[..], 7))
    ensures forall k | 28 + 4 * |samples| <= k < out.Length :: out[k] == old(out[k])
  {
    hide EncodeI16, Be16, U16OfI16, Words, SpelledI16;
    var offset := 28;
    for n := 0 to |samples|
      invariant offset == 28 + 4 * n
      invariant out[28..offset] == EncodeI16(samples[..n])
      invariant forall k | 0 <= k < 28 || offset <= k < out.Length :: out[k] == old(out[k])
    {
      CopyFromSlice(out, offset, Be16(U16OfI16(samples[n].i)));
      CopyFromSlice(out, offset + 2, Be16(U16OfI16(samples[n].q)));
      offset := offset + 4;
      OneMoreI16(samples, n);
      assert out[28..offset] == out[28..offset - 4] + out[offset - 4..offset - 2] + out[offset - 2..offset];
    }
    assert samples[..|samples|] == samples;
    EncodedIsSpelledI16(samples);
    WordsOfPrefix(out[..], old(out[..]), 7);
  }
}
