/** Which of the writer's outputs parse at all, and as what. */
module OutputParses {
  import opened Wrappers
  import opened Raw
  import opened Wire
  import opened Standard
  import opened Encoding
  import opened Prepared
  import opened RoundTripPrologue
  import opened RoundTrip
  import opened Profiles
  import opened Acceptance
  import opened Codec
  import P = Parser
  import W = Writer

  predicate HasDataClass(p: Packet) {
    var c := p.Prologue().classId.packetClass;
    c.StandardFlowSignalData? || c.SampleCountSignalData?
  }

  /** A writable signal data packet that carries another packet's body. */
  ghost predicate IsDisguise(p: Packet, options: WriteOptions) {
    exists q ::
      Writable(q, options) && Coherent(q) && !q.SignalData? && Fits(q) && Disguised(q) == p
  }

  /** A written prologue is always read back, so the body's words decide. */
  lemma OutputParsesExactly(p: Packet, options: WriteOptions)
    requires Writable(p, options)
    ensures Fits(p) && |Encode(p)| >= 28 && Identifies(Encode(p), p.Prologue().classId)
    ensures P.ParseExact(Encode(p), options).Ok? <==> BodyConforms(Encode(p), options)
    ensures P.ParseExact(Encode(p), options).Ok? ==>
              P.ParseExact(Encode(p), options) == P.ParseBody(Encode(p), p.Prologue(), StandardProfile(options))
  {
    hide P.ParseBody, P.ParsePrologue, P.ParsePrefix, W.PreparePacket, PacketWords, PrologueWords, Words,
      BodyConforms, Encode, PrologueChecked;
    PreparedFits(p, options);
    WritableParts(p, options);
    EncodedShape(p);
    var b := Encode(p);
    PrologueWrittenThenParsed(b, p.Prologue(), StandardProfile(options));
    SizeOfPrologue(b, p.Prologue());
    ParsePrefixUnfolds(b, options);
    assert b[..|b|] == b;
    PrologueAcceptedExactly(b, options);
    BodyAcceptedExactly(b, p.Prologue(), options);
  }

  /** Another variant under a signal data class is always read, as the signal data that its bytes spell. */
  lemma DataClassParses(p: Packet, options: WriteOptions)
    requires Writable(p, options) && !p.SignalData? && HasDataClass(p)
    ensures Fits(p) && P.ParseExact(Encode(p), options) == Ok(Disguised(p))
  {
    hide W.PreparePacket, P.ParseExact, Encode, StandardProfile.ValidateHeaderAndClass;
    OutputParsesExactly(p, options);
    WritableParts(p, options);
    NoPadding(p, options);
  }

  /** A timing flow control variant under the class of standard flow signal data. */
  function MisclassifiedPacket(): Packet {
    var header := PacketHeader(0x1860_0015, SignalDataWithStreamId, true, 0, None,
                               Utc, RealTimePicoseconds, 0, 21);
    var classId := ClassId(0, DIFI_CID, BasicDataPlane, StandardFlowSignalData);
    TimingFlowControl(TimingFlowControlPacket(
      Prologue(header, 0, classId, 0, 0), CommandCommon(CAM_CONTROL_EXECUTE, 0, 0, 0),
      CIF_CONTROL_FLOW_0, CIF_CONTROL_FLOW_1, 0, 0, 0, 0, BufferStatus(0, 0, false, false, false, false)))
  }

  /** It is written, and read back as 56 bytes of signal data. */
  lemma MisclassifiedPacketParses()
    ensures var p := MisclassifiedPacket();
            && Writable(p, DEFAULT) && !Coherent(p) && Fits(p)
            && |Encode(p)[28..]| == 56
            && P.ParseExact(Encode(p), DEFAULT) == Ok(SignalData(SignalDataPacket(p.Prologue(), Encode(p)[28..])))
  {
    hide P.ParseExact, BytesOf, PacketWords;
    var p := MisclassifiedPacket();
    var h := p.Prologue().header;
    assert StandardProfile(DEFAULT).ValidateHeaderAndClass(h, p.Prologue().classId).Ok?;
    assert W.ValidatePrologue(p.Prologue(), W.WritePlan(h.packetType, 0, 21), DEFAULT).Ok?;
    assert W.ValidateBody(p, StandardProfile(DEFAULT)).Ok?;
    DataClassParses(p, DEFAULT);
  }

  /** Any other disagreement between variant and packet class shows in the size or in the CAM. */
  lemma OtherClassFails(p: Packet, options: WriteOptions)
    requires Writable(p, options) && !p.SignalData? && !HasDataClass(p) && !Coherent(p)
    ensures Fits(p) && P.ParseExact(Encode(p), options).Err?
  {
    hide P.ParseExact, Encode, W.PreparePacket;
    OutputParsesExactly(p, options);
    WrittenBits(p, options);
    WrittenCam(p, options);
  }

  lemma WrittenBits(p: Packet, options: WriteOptions)
    requires Writable(p, options)
    ensures W.CanonicalTypeSpecificBits(p) == Ok(BitsOf(p.Prologue().classId))
    ensures TypeCarries(options, p.Prologue().header.packetType, p.Prologue().classId.packetClass)
    ensures p.SignalContext? || p.VersionContext? ==> p.Prologue().header.tsm.Some?
    ensures p.Prologue().header.tsm == TsmOf(p.Prologue().header.packetType, p.Prologue().header.typeSpecificBits)
  {
    hide W.ValidateBody, Offers;
    PreparedFits(p, options);
    WritableParts(p, options);
    AdmissionRule(options, p.Prologue().header, p.Prologue().classId);
  }

  lemma WrittenCam(p: Packet, options: WriteOptions)
    requires Writable(p, options)
    ensures Fits(p)
    ensures p.TimingFlowControl? ==> WordAt(Encode(p), 7) == 0xA100_0000
    ensures p.SinkCapabilitiesQuery? ==> WordAt(Encode(p), 7) == 0xA110_0000
    ensures p.StatusReport? ==> WordAt(Encode(p), 7) == 0xA108_0000
  {
    hide WordAt, PrologueWords, BytesOf, StandardProfile.ValidateHeaderAndClass;
    PreparedFits(p, options);
    WritableParts(p, options);
    EncodedShape(p);
    var b, n := Encode(p), WordCount(p);
    if n > 7 {
      assert WordAt(b, 7) == Words(b, n)[7] == PacketWords(p)[7];
    }
  }

  /**
   Signal data under another class parses exactly when its words conform to that class, which
   is when they are the words of a packet of that class; and it parses to that packet.
   */
  lemma DisguiseParses(p: Packet, options: WriteOptions)
    requires Writable(p, options) && p.SignalData? && !Coherent(p)
    ensures Fits(p) && (P.ParseExact(Encode(p), options).Ok? <==> IsDisguise(p, options))
    ensures IsDisguise(p, options) <==> BodyConforms(Encode(p), options)
    ensures forall q :: Writable(q, options) && Coherent(q) && !q.SignalData? && Fits(q) && Disguised(q) == p ==>
                          P.ParseExact(Encode(p), options) == Ok(q)
  {
    hide P.ParseExact, Encode, W.PreparePacket, BodyConforms, Disguised;
    OutputParsesExactly(p, options);
    forall q | Writable(q, options) && Coherent(q) && !q.SignalData? && Fits(q) && Disguised(q) == p
      ensures P.ParseExact(Encode(p), options) == Ok(q)
    {
      DisguiseIsWritten(q, options);
      WriteThenParse(q, options);
    }
    if P.ParseExact(Encode(p), options).Ok? {
      ParseThenWrite(Encode(p), options);
      var q := P.ParseExact(Encode(p), options).value;
      BodyKeepsPrologue(Encode(p), p.Prologue(), StandardProfile(options));
      SameBytesDisguise(p, q);
    }
  }

  lemma SameBytesDisguise(p: Packet, q: Packet)
    requires Fits(p) && Fits(q) && Encode(p) == Encode(q) && p.Prologue() == q.Prologue() && p.SignalData?
    ensures Disguised(q) == p
  {
    hide BytesOf, PrologueWords;
    PrologueIsWhole(p);
  }

  /**
   Exactly which outputs parse: those whose variant agrees with the packet class, those of
   another variant under a signal data class, and signal data that carries another packet's body.
   */
  lemma OutputParses(p: Packet, options: WriteOptions)
    requires Writable(p, options)
    ensures Fits(p)
    ensures P.ParseExact(Encode(p), options).Ok?
       <==> || Coherent(p)
            || (!p.SignalData? && HasDataClass(p))
            || (p.SignalData? && IsDisguise(p, options))
  {
    hide P.ParseExact, Encode, W.PreparePacket, Coherent;
    PreparedFits(p, options);
    WriteThenParse(p, options);
    if p.SignalData? {
      if Coherent(p) {
      } else {
        DisguiseParses(p, options);
      }
    } else if HasDataClass(p) {
      DataClassParses(p, options);
    } else if !Coherent(p) {
      OtherClassFails(p, options);
    }
  }
}
