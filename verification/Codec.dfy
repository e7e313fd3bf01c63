/** Consequences of the round trip: exact domains, injectivity, framing of concatenated packets. */
module Codec {
  import opened Wrappers
  import opened Raw
  import opened Wire
  import opened Standard
  import opened Encoding
  import opened Prepared
  import opened RoundTripPrologue
  import opened RoundTrip
  import B = BufferWriter
  import P = Parser
  import W = Writer

  // ---- one packet ----

  /** What is written parses back to the packet exactly when variant and packet class agree. */
  lemma WriteThenParse(p: Packet, options: WriteOptions)
    requires Writable(p, options)
    ensures Fits(p)
    ensures P.ParseExact(Encode(p), options) == Ok(p) <==> Coherent(p)
  {
    hide P.ParsePrefix, PacketWords, W.PreparePacket, Coherent;
    PreparedFits(p, options);
    if Coherent(p) {
      WrittenThenParsed(p, options, []);
      assert Encode(p) + [] == Encode(p);
    }
    if P.ParseExact(Encode(p), options) == Ok(p) {
      ParsedThenWritten(Encode(p), options);
    }
  }

  /** What parses is what would be written: same length, same bytes, under the same options. */
  lemma ParseThenWrite(b: seq<u8>, options: ParseOptions)
    requires P.ParseExact(b, options).Ok?
    ensures var p := P.ParseExact(b, options).value;
            && Writable(p, options) && Coherent(p)
            && W.EncodedLen(p, options) == Ok(|b|)
            && Fits(p) && Encode(p) == b
  {
    hide P.ParsePrefix, PacketWords, W.PreparePacket, Coherent;
    var p := P.ParseExact(b, options).value;
    ParsedThenWritten(b, options);
    PreparedFits(p, options);
  }

  /** The parser's range is the writer's coherent domain. */
  lemma ParserRange(p: Packet, options: ParseOptions)
    ensures (exists b :: P.ParseExact(b, options) == Ok(p)) <==> Writable(p, options) && Coherent(p)
  {
    hide P.ParseExact, Encode, Writable, Coherent;
    if Writable(p, options) && Coherent(p) {
      WriteThenParse(p, options);
      assert P.ParseExact(Encode(p), options) == Ok(p);
    }
    if b :| P.ParseExact(b, options) == Ok(p) {
      ParseThenWrite(b, options);
    }
  }

  /** No two byte strings are the same packet, whatever options each was parsed under. */
  lemma ParsingIsInjective(a: seq<u8>, b: seq<u8>, forA: ParseOptions, forB: ParseOptions)
    requires P.ParseExact(a, forA).Ok? && P.ParseExact(a, forA) == P.ParseExact(b, forB)
    ensures a == b
  {
    hide P.ParseExact, Encode;
    ParseThenWrite(a, forA);
    ParseThenWrite(b, forB);
  }

  /**
   In a buffer: what was written there parses back exactly when variant and packet class
   agree, and the bytes written do not depend on what the buffer held.
   */
  lemma BufferHoldsPacket(p: Packet, before: seq<u8>, other: seq<u8>, options: WriteOptions)
    requires W.EncodedLen(p, options).Ok?
    requires W.EncodedLen(p, options).value <= |before| && W.EncodedLen(p, options).value <= |other|
    ensures var n := W.EncodedLen(p, options).value;
            && (P.ParseExact(B.BufferAfter(p, before, options)[..n], options) == Ok(p) <==> Coherent(p))
            && B.BufferAfter(p, before, options)[..n] == B.BufferAfter(p, other, options)[..n]
            && B.BufferAfter(p, before, options)[n..] == before[n..]
  {
    hide P.ParseExact, Encode, W.PreparePacket, Coherent;
    PreparedFits(p, options);
    WriteThenParse(p, options);
  }

  /** Parsing a packet and writing it into a buffer that is long enough copies the input. */
  lemma BufferReproducesInput(b: seq<u8>, before: seq<u8>, options: ParseOptions)
    requires P.ParseExact(b, options).Ok? && |b| <= |before|
    ensures B.BufferAfter(P.ParseExact(b, options).value, before, options) == b + before[|b|..]
  {
    hide P.ParseExact, Encode, W.PreparePacket, Coherent;
    ParseThenWrite(b, options);
  }

  /** Another packet's bytes after the prologue, carried as signal data under that packet's prologue. */
  function Disguised(p: Packet): Packet
    requires Fits(p)
  {
    SignalData(SignalDataPacket(p.Prologue(), Encode(p)[28..]))
  }

  /**
   The writer accepts such an incoherent packet exactly when the type-specific bits are zero,
   and then writes the bytes of the packet that it is not.
   */
  lemma DisguiseIsWritten(p: Packet, options: WriteOptions)
    requires Writable(p, options) && Coherent(p) && !p.SignalData?
    ensures Fits(p) && !Coherent(Disguised(p)) && Fits(Disguised(p))
    ensures Writable(Disguised(p), options) <==> p.Prologue().header.typeSpecificBits == 0
    ensures Encode(Disguised(p)) == Encode(p)
  {
    hide PacketWords, PrologueWords, BytesOf, Words, StandardProfile.ValidateHeaderAndClass;
    PreparedFits(p, options);
    WritableParts(p, options);
    EncodedShape(p);
    NoPadding(p, options);
    var d, b := Disguised(p), Encode(p);
    var h := p.Prologue().header;
    assert |b| == 28 + |b[28..]| == 4 * h.packetSizeWords;
    if h.typeSpecificBits == 0 {
      assert W.PacketSizeWords(d) == Ok(h.packetSizeWords);
      assert W.ValidatePrologue(p.Prologue(), W.WritePlan(h.packetType, 0, h.packetSizeWords), options).Ok?;
    }
    PrologueIsWhole(d);
    BytesOfWords(b, 7);
    assert b == b[..28] + b[28..];
  }

  lemma NoPadding(p: Packet, options: WriteOptions)
    requires W.ValidateBody(p, StandardProfile(options)).Ok? && !p.SignalData?
    ensures p.Prologue().classId.padBitCount == 0
  {
  }

  lemma PrologueIsWhole(d: Packet)
    requires d.SignalData? && Fits(d)
    ensures Encode(d) == BytesOf(PrologueWords(d.Prologue())) + d.signalData.payload
  {
    hide BytesOf, PrologueWords;
  }

  /** A signal data variant whose packet class says status report. */
  function IncoherentPacket(): Packet {
    var header := PacketHeader(0x7860_0007, ExtensionCommandWithStreamId, true, 0, None,
                               Utc, RealTimePicoseconds, 0, 7);
    var classId := ClassId(0, DIFI_CID, BasicDataPlaneWithLinkEstablishment, StatusReportClass);
    SignalData(SignalDataPacket(Prologue(header, 0, classId, 0, 0), []))
  }

  lemma IncoherentPacketIsWritable()
    ensures Writable(IncoherentPacket(), DEFAULT) && !Coherent(IncoherentPacket())
  {
    var p := IncoherentPacket();
    var h := p.Prologue().header;
    assert StandardProfile(DEFAULT).ValidateHeaderAndClass(h, p.Prologue().classId).Ok?;
    assert W.ValidatePrologue(p.Prologue(), W.WritePlan(h.packetType, 0, 7), DEFAULT).Ok?;
  }

  /** The writer accepts it, and its output does not parse. */
  lemma IncoherentPacketIsWritten()
    ensures var p := IncoherentPacket();
            && Writable(p, DEFAULT) && !Coherent(p) && Fits(p)
            && P.ParseExact(Encode(p), DEFAULT) ==
               Err(InvalidPacketSizeSet(StatusReportClass, STATUS_REPORT_SIZES, 7))
  {
    hide W.PreparePacket, P.ParsePrologue, P.ParsePrefix, Words, BytesOf, PacketWords, PrologueWords, PrologueChecked;
    var p := IncoherentPacket();
    IncoherentPacketIsWritable();
    PreparedFits(p, DEFAULT);
    WritableParts(p, DEFAULT);
    EncodedShape(p);
    PrologueWrittenThenParsed(Encode(p), p.Prologue(), StandardProfile(DEFAULT));
    SizeOfPrologue(Encode(p), p.Prologue());
    ParsePrefixUnfolds(Encode(p), DEFAULT);
    assert Encode(p)[..28] == Encode(p);
  }

  // ---- framing ----

  /** Every accepted prefix takes at least a prologue. */
  lemma ConsumesPrologue(input: seq<u8>, options: ParseOptions)
    requires P.ParsePrefix(input, options).Ok?
    ensures |P.ParsePrefix(input, options).value.1| + 28 <= |input|
  {
    ParsePrefixUnfolds(input, options);
  }

  /** Bytes after an accepted packet change the remainder and nothing else. */
  lemma SuffixIsRemainder(input: seq<u8>, options: ParseOptions, suffix: seq<u8>)
    requires P.ParsePrefix(input, options).Ok?
    ensures var (p, rest) := P.ParsePrefix(input, options).value;
            P.ParsePrefix(input + suffix, options) == Ok((p, rest + suffix))
  {
    hide P.ParsePrefix, Encode, Writable, Coherent;
    var (p, rest) := P.ParsePrefix(input, options).value;
    ParsedThenWritten(input, options);
    WrittenThenParsed(p, options, rest + suffix);
    assert input + suffix == Encode(p) + (rest + suffix);
  }

  /** A packet cut short is reported as short or truncated, with the length that was needed. */
  lemma TruncationIsReported(b: seq<u8>, options: ParseOptions, k: nat)
    requires P.ParseExact(b, options).Ok? && k < |b|
    ensures P.ParseExact(b[..k], options) ==
            Err(if k < 28 then InputTooShort(28, k) else PacketTruncated(|b|, k))
  {
    hide P.ParseBody, P.ParsePrologue, P.ParsePrefix;
    ParsePrefixUnfolds(b, options);
    ParsePrefixUnfolds(b[..k], options);
    if k >= 28 {
      WordOfPrefix(b, k, 0);
    }
  }

  /** A packet followed by anything is rejected by the exact parser, with the surplus counted. */
  lemma SurplusIsReported(b: seq<u8>, options: ParseOptions, suffix: seq<u8>)
    requires P.ParseExact(b, options).Ok? && suffix != []
    ensures P.ParseExact(b + suffix, options) == Err(TrailingBytes(|suffix|))
  {
    hide P.ParsePrefix;
    SuffixIsRemainder(b, options, suffix);
    assert [] + suffix == suffix;
  }

  /** Applies the prefix parser until nothing remains. */
  function ParseAll(input: seq<u8>, options: ParseOptions): Result<seq<Packet>, ParseError>
    decreases |input|
  {
    if input == [] then Ok([]) else
    var (p, rest) :- P.ParsePrefix(input, options);
    ConsumesPrologue(input, options);
    var ps :- ParseAll(rest, options);
    Ok([p] + ps)
  }

  predicate AllParseable(ps: seq<Packet>, options: ParseOptions) {
    forall p | p in ps :: Writable(p, options) && Coherent(p)
  }

  predicate AllFit(ps: seq<Packet>) {
    forall p | p in ps :: Fits(p)
  }

  function EncodeAll(ps: seq<Packet>): seq<u8>
    requires AllFit(ps)
  {
    if ps == [] then [] else assert ps[0] in ps; Encode(ps[0]) + EncodeAll(ps[1..])
  }

  lemma AllParseableFit(ps: seq<Packet>, options: ParseOptions)
    requires AllParseable(ps, options)
    ensures AllFit(ps)
  {
    hide Fits, Coherent, Writable;
    forall p | p in ps
      ensures Fits(p)
    {
      WrittenThenParsed(p, options, []);
    }
  }

  /** Concatenated packets come apart again, in order, with nothing left over. */
  lemma {:induction false} ConcatenationParses(ps: seq<Packet>, options: ParseOptions)
    requires AllParseable(ps, options)
    ensures AllFit(ps) && ParseAll(EncodeAll(ps), options) == Ok(ps)
  {
    hide Encode, P.ParsePrefix, Fits, Coherent, Writable;
    AllParseableFit(ps, options);
    if ps != [] {
      var rest := EncodeAll(ps[1..]);
      ConcatenationParses(ps[1..], options);
      assert ps[0] in ps;
      WrittenThenParsed(ps[0], options, rest);
      ConsumesPrologue(Encode(ps[0]) + rest, options);
      assert ps == [ps[0]] + ps[1..];
    }
  }

  /** Bytes that come apart completely are the concatenated encodings of what was found. */
  lemma {:induction false} ParsedConcatenation(b: seq<u8>, options: ParseOptions)
    requires ParseAll(b, options).Ok?
    ensures var ps := ParseAll(b, options).value;
            AllParseable(ps, options) && AllFit(ps) && EncodeAll(ps) == b
    decreases |b|
  {
    hide Encode, P.ParsePrefix, Fits, Coherent, Writable;
    if b != [] {
      var (p, rest) := P.ParsePrefix(b, options).value;
      ConsumesPrologue(b, options);
      ParsedConcatenation(rest, options);
      ParsedThenWritten(b, options);
      var ps := ParseAll(rest, options).value;
      assert ([p] + ps)[1..] == ps;
    }
  }

  /** So two packet lists with the same bytes are the same list. */
  lemma UniquelyDecodable(ps: seq<Packet>, qs: seq<Packet>, options: ParseOptions)
    requires AllParseable(ps, options) && AllParseable(qs, options)
    ensures AllFit(ps) && AllFit(qs)
    ensures EncodeAll(ps) == EncodeAll(qs) ==> ps == qs
  {
    hide Fits, Coherent, Writable, Encode;
    ConcatenationParses(ps, options);
    ConcatenationParses(qs, options);
  }

  // ---- the only ways to run out of input ----

  /**
   `InputTooShort` means fewer than 28 bytes, or a capabilities query or response
   that declares fewer than 12 words: the two layouts that read their CAM and CIF0
   before they check their size.
   */
  predicate ReadsPastEnd(input: seq<u8>, options: ParseOptions)
    requires 28 <= |input|
  {
    var n := WordAt(input, 0) % 0x1_0000;
    && 7 <= n <= 11 && 4 * n <= |input|
    && var prologue := P.ParsePrologue(input[..4 * n], StandardProfile(options));
    && prologue.Ok?
    && prologue.value.classId.padBitCount == 0
    && (prologue.value.classId.packetClass.SinkCapabilitiesQueryClass?
        || prologue.value.classId.packetClass.SinkCapabilitiesResponseClass?)
    && (n == 11 ==>
          WordAt(input, 7) == if prologue.value.classId.packetClass.SinkCapabilitiesQueryClass?
                              then CAM_EXTENSION_CONTROL_VALIDATE else CAM_EXTENSION_ACK_VALIDATE)
  }

  lemma TooShortExactly(input: seq<u8>, options: ParseOptions)
    ensures (P.ParsePrefix(input, options).Err? && P.ParsePrefix(input, options).error.InputTooShort?)
       <==> |input| < 28 || ReadsPastEnd(input, options)
  {
    hide P.ParsePrologue, P.ParsePrefix, P.ParseBody;
    ParsePrefixUnfolds(input, options);
    if 28 <= |input| {
      var n := WordAt(input, 0) % 0x1_0000;
      if 7 <= n && 4 * n <= |input| {
        var b := input[..4 * n];
        var prologue := P.ParsePrologue(b, StandardProfile(options));
        PrologueNeverShort(b, StandardProfile(options));
        if prologue.Ok? {
          PrologueParsedThenWritten(b, StandardProfile(options));
          SizeOfPrologue(b, prologue.value);
          WordOfPrefix(input, 4 * n, 0);
          if n >= 8 {
            WordOfPrefix(input, 4 * n, 7);
          }
          BodyTooShort(b, prologue.value, StandardProfile(options));
        }
      }
    }
  }

  lemma PrologueNeverShort(b: seq<u8>, profile: StandardProfile)
    requires 28 <= |b|
    ensures P.ParsePrologue(b, profile).Err? ==> !P.ParsePrologue(b, profile).error.InputTooShort?
  {
    hide WordAt, ParseHeader, ParseClassId, StandardProfile.AllowsPacketClass, P.ReadU64;
    assert P.ReadU64(b, 5).Ok? by { ReadsInside(b, 5); }
    HeaderNeverShort(WordAt(b, 0), WordAt(b, 2), WordAt(b, 3));
  }

  lemma ReadsInside(b: seq<u8>, i: nat)
    ensures P.ReadU64(b, i).Ok? <==> 4 * i + 8 <= |b|
  {
  }

  lemma HeaderNeverShort(word0: u32, word2: u32, word3: u32)
    ensures ParseHeader(word0).Err? ==> !ParseHeader(word0).error.InputTooShort?
    ensures ParseClassId(word2, word3).Err? ==> !ParseClassId(word2, word3).error.InputTooShort?
  {
  }

  lemma BodyTooShort(b: seq<u8>, prologue: Prologue, profile: StandardProfile)
    requires 28 <= |b| == 4 * prologue.header.packetSizeWords
    ensures var c := prologue.classId.packetClass;
            var r := P.ParseBody(b, prologue, profile);
            (r.Err? && r.error.InputTooShort?)
            <==> && |b| < 4 * 12
                 && prologue.classId.padBitCount == 0
                 && (c.SinkCapabilitiesQueryClass? || c.SinkCapabilitiesResponseClass?)
                 && (|b| == 4 * 11 ==>
                       WordAt(b, 7) == if c.SinkCapabilitiesQueryClass?
                                       then CAM_EXTENSION_CONTROL_VALIDATE else CAM_EXTENSION_ACK_VALIDATE)
  {
    hide WordAt, I64OfU64, U64OfI64, FromHiLo, ParsePayloadFormat, I16OfU16;
    match prologue.classId.packetClass
    case StandardFlowSignalContext | SampleCountSignalContext =>
      if |b| == 4 * 27 {
        FormatNeverShort(WordAt(b, 25), WordAt(b, 26));
      }
    case _ =>
  }

  lemma FormatNeverShort(word0: u32, word1: u32)
    ensures ParsePayloadFormat(word0, word1).Err? ==> !ParsePayloadFormat(word0, word1).error.InputTooShort?
  {
  }
}
