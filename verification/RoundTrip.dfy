/** The writer and the parser undo each other: main theorems. */
module RoundTrip {
  import opened Wrappers
  import opened Raw
  import opened Wire
  import opened Standard
  import opened Encoding
  import opened Prepared
  import opened RoundTripPrologue
  import opened RoundTripLayouts
  import P = Parser
  import W = Writer

  /** The writer accepts the packet under these options. */
  predicate Writable(p: Packet, options: WriteOptions) {
    W.PreparePacket(p, options).Ok?
  }

  /**
   The packet's variant is the one to which the parser dispatches its packet
   class.  The writer does not check this.
   */
  predicate Coherent(p: Packet) {
    match p.Prologue().classId.packetClass
    case StandardFlowSignalData | SampleCountSignalData => p.SignalData?
    case StandardFlowSignalContext | SampleCountSignalContext => p.SignalContext?
    case VersionFlowSignalContext => p.VersionContext?
    case SampleCountTimingFlowControl | RealTimeTimingFlowControl => p.TimingFlowControl?
    case SinkCapabilitiesQueryClass => p.SinkCapabilitiesQuery?
    case SinkCapabilitiesResponseClass => p.SinkCapabilitiesResponse?
    case StatusReportClass => p.StatusReport?
  }

  // ---- write, then parse ----

  lemma EncodedShape(p: Packet)
    requires Fits(p)
    ensures var b, n := Encode(p), WordCount(p);
            && Words(b, n) == PacketWords(p)
            && Words(b, 7) == PrologueWords(p.Prologue())
            && b[4 * n..] == Tail(p)
  {
    var b, n := Encode(p), WordCount(p);
    WordsOfBytes(PacketWords(p), Tail(p));
    assert Words(b, 7) == Words(b, n)[..7];
    PrologueFirst(p);
  }

  lemma PrologueFirst(p: Packet)
    requires Fits(p)
    ensures PacketWords(p)[..7] == PrologueWords(p.Prologue())
  {
    hide PrologueWords, Hi, Lo, U64OfI64;
  }

  /** The parts of the writer's verdict. */
  lemma WritableParts(p: Packet, options: WriteOptions)
    requires Writable(p, options)
    ensures PrologueChecked(p.Prologue(), StandardProfile(options))
    ensures W.ValidateBody(p, StandardProfile(options)).Ok?
  {
    PreparedPrologue(p.Prologue(), W.PreparePacket(p, options).value, options);
  }

  lemma BodyWrittenThenParsed(p: Packet, profile: StandardProfile)
    requires Fits(p) && W.ValidateBody(p, profile).Ok? && Coherent(p)
    requires |Encode(p)| == 4 * p.Prologue().header.packetSizeWords
    ensures P.ParseBody(Encode(p), p.Prologue(), profile) == Ok(p)
  {
    hide WordAt, PrologueWords, BytesOf, Words, P.ParseData, P.ParseSignalContext, P.ParseVersionContext,
      P.ParseTimingFlowControl, P.ParseSinkCapabilitiesQuery, P.ParseSinkCapabilitiesResponse, P.ParseStatusReport,
      W.ValidateSignalData, W.ValidateTimingFlowControl, W.ValidateSinkCapabilitiesQuery;
    var b := Encode(p);
    EncodedShape(p);
    match p
    case SignalData(d) => DataWrittenThenParsed(b, d, profile);
    case SignalContext(c) =>
      SignalContextPlaced(b, c);
      SignalContextWrittenThenParsed(b, c, profile);
    case VersionContext(v) => VersionContextWrittenThenParsed(b, v, profile);
    case TimingFlowControl(t) =>
      TimingFlowControlPlaced(b, t);
      TimingFlowControlWrittenThenParsed(b, t, profile);
    case SinkCapabilitiesQuery(q) => QueryWrittenThenParsed(b, q, profile);
    case SinkCapabilitiesResponse(r) => ResponseWrittenThenParsed(b, r, profile);
    case StatusReport(s) =>
      StatusPlaced(b, s);
      StatusWrittenThenParsed(b, s, profile);
  }

  /** A written packet is what the prefix parser finds, whatever bytes follow it. */
  lemma WrittenThenParsed(p: Packet, options: ParseOptions, rest: seq<u8>)
    requires Writable(p, options) && Coherent(p)
    ensures Fits(p)
    ensures P.ParsePrefix(Encode(p) + rest, options) == Ok((p, rest))
  {
    hide P.ParseBody, P.ParsePrologue, P.ParsePrefix, W.ValidateBody, PacketWords, PrologueWords, Words;
    var profile := StandardProfile(options);
    PreparedFits(p, options);
    WritableParts(p, options);
    EncodedShape(p);
    var b := Encode(p);
    PrologueWrittenThenParsed(b, p.Prologue(), profile);
    BodyWrittenThenParsed(p, profile);
    SizeOfPrologue(b, p.Prologue());
    assert (b + rest)[..|b|] == b && (b + rest)[|b|..] == rest;
    WordOfPrefix(b + rest, |b|, 0);
    ParsePrefixUnfolds(b + rest, options);
  }

  lemma SizeOfPrologue(b: seq<u8>, p: Prologue)
    requires PrologueFits(p) && 28 <= |b| && Words(b, 7) == PrologueWords(p)
    ensures WordAt(b, 0) % 0x1_0000 == p.header.packetSizeWords
  {
    assert WordAt(b, 0) == Words(b, 7)[0] == HeaderBits(p.header);
    HeaderFields(p.header);
  }

  /** The framing step of the prefix parser, with the single-packet parser left folded. */
  lemma ParsePrefixUnfolds(input: seq<u8>, options: ParseOptions)
    ensures P.ParsePrefix(input, options) ==
            if |input| < 28 then Err(InputTooShort(28, |input|)) else
            var n := WordAt(input, 0) % 0x1_0000;
            if n < 7 then Err(PacketSizeTooSmall(n)) else
            if |input| < 4 * n then Err(PacketTruncated(4 * n, |input|)) else
            match P.ParsePrologue(input[..4 * n], StandardProfile(options))
            case Err(e) => Err(e)
            case Ok(prologue) =>
              match P.ParseBody(input[..4 * n], prologue, StandardProfile(options))
              case Err(e) => Err(e)
              case Ok(p) => Ok((p, input[4 * n..]))
  {
    hide WordAt, P.ParsePrologue, P.ParseBody;
  }

  // ---- parse, then write ----

  lemma ParsedParts(b: seq<u8>, prologue: Prologue, profile: StandardProfile)
    requires 28 <= |b| == 4 * prologue.header.packetSizeWords
    requires PrologueFits(prologue) && Words(b, 7) == PrologueWords(prologue)
    requires P.ParseBody(b, prologue, profile).Ok?
    ensures var p := P.ParseBody(b, prologue, profile).value;
            && p.Prologue() == prologue && Coherent(p)
            && W.ValidateBody(p, profile).Ok?
            && Fits(p) && 4 * WordCount(p) <= |b|
            && Words(b, WordCount(p)) == PacketWords(p)
            && b[4 * WordCount(p)..] == Tail(p)
  {
    hide WordAt, PrologueWords, Words, W.ValidateSignalData, W.ValidateSignalContext, W.ValidateVersionContext,
      W.ValidateTimingFlowControl, W.ValidateSinkCapabilitiesQuery, W.ValidateStatusReport;
    match prologue.classId.packetClass
    case StandardFlowSignalData | SampleCountSignalData => DataParsedThenWritten(b, prologue, profile);
    case StandardFlowSignalContext | SampleCountSignalContext =>
      SignalContextParsedThenWritten(b, prologue, profile);
      SignalContextPlaced(b, P.ParseSignalContext(b, prologue, profile).value);
    case VersionFlowSignalContext => VersionContextParsedThenWritten(b, prologue, profile);
    case SampleCountTimingFlowControl | RealTimeTimingFlowControl =>
      TimingFlowControlParsedThenWritten(b, prologue, profile);
      TimingFlowControlPlaced(b, P.ParseTimingFlowControl(b, prologue, profile).value);
    case SinkCapabilitiesQueryClass => QueryParsedThenWritten(b, prologue, profile);
    case SinkCapabilitiesResponseClass => ResponseParsedThenWritten(b, prologue, profile);
    case StatusReportClass =>
      StatusParsedThenWritten(b, prologue, profile);
      StatusPlaced(b, P.ParseStatusReport(b, prologue, profile).value);
  }

  /** A parsed packet is writable and coherent, and its encoding is the bytes that were consumed. */
  lemma ParsedThenWritten(input: seq<u8>, options: ParseOptions)
    requires P.ParsePrefix(input, options).Ok?
    ensures var (p, rest) := P.ParsePrefix(input, options).value;
            && Writable(p, options) && Coherent(p)
            && Fits(p) && input == Encode(p) + rest
  {
    hide P.ParseBody, P.ParsePrologue, P.ParsePrefix, PacketWords, PrologueWords, Words, W.ValidateBody, Tail,
      WordCount, Writable;
    var profile := StandardProfile(options);
    ParsePrefixUnfolds(input, options);
    var n := WordAt(input, 0) % 0x1_0000;
    var b := input[..4 * n];
    var prologue := P.ParsePrologue(b, profile).value;
    PrologueParsedThenWritten(b, profile);
    SizeOfPrologue(b, prologue);
    WordOfPrefix(input, 4 * n, 0);
    ParsedParts(b, prologue, profile);
    var p := P.ParseBody(b, prologue, profile).value;
    BytesOfWords(b, WordCount(p));
    assert b == b[..4 * WordCount(p)] + b[4 * WordCount(p)..];
    assert |Encode(p)| == 4 * prologue.header.packetSizeWords;
    WritableFromParts(p, options);
    assert input == b + input[4 * n..];
  }

  lemma WritableFromParts(p: Packet, options: WriteOptions)
    requires PrologueChecked(p.Prologue(), StandardProfile(options))
    requires Coherent(p) && W.ValidateBody(p, StandardProfile(options)).Ok?
    requires Fits(p) && |Encode(p)| == 4 * p.Prologue().header.packetSizeWords
    ensures Writable(p, options)
  {
    var h := p.Prologue().header;
    CanonicalBits(p, options);
    PlannedSize(p, options);
    assert W.ValidatePrologue(p.Prologue(), W.WritePlan(h.packetType, h.typeSpecificBits, h.packetSizeWords),
                              options).Ok?;
  }

  lemma CanonicalBits(p: Packet, options: WriteOptions)
    requires PrologueChecked(p.Prologue(), StandardProfile(options)) && Coherent(p)
    ensures W.CanonicalTypeSpecificBits(p) == Ok(p.Prologue().header.typeSpecificBits)
  {
  }

  lemma PlannedSize(p: Packet, options: WriteOptions)
    requires Fits(p) && W.ValidateBody(p, StandardProfile(options)).Ok?
    requires |Encode(p)| == 4 * p.Prologue().header.packetSizeWords
    ensures W.PacketSizeWords(p) == Ok(p.Prologue().header.packetSizeWords)
  {
    hide PacketWords, BytesOf;
  }
}
