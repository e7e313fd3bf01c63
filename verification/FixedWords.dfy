/** The wire-level skeleton of every accepted packet: its size and its fixed words, as numbers. */
module FixedWords {
  import opened Raw
  import opened Wire
  import opened Standard
  import opened RoundTrip
  import opened RoundTripPrologue
  import Fields
  import P = Parser

  /** The top bit of CIF0 says that the context has changed; the other 31 bits are fixed. */
  predicate ChangeIndicator(word: u32, changed: bool, fields: u32) {
    word % 0x8000_0000 == fields && (changed <==> word / 0x8000_0000 == 1)
  }

  predicate Skeleton(b: seq<u8>, p: Packet)
    requires |b| >= 28
  {
    match p
    case SignalData(d) => b[28..] == d.payload
    case SignalContext(c) =>
      |b| == 108 && ChangeIndicator(WordAt(b, 7), c.contextChanged, 0x7BB9_8000)
    case VersionContext(v) =>
      && |b| == 44 && ChangeIndicator(WordAt(b, 7), v.contextChanged, 2)
      && WordAt(b, 8) == 12 && WordAt(b, 9) == 4 && WordAt(b, 10) % 0x400 == 0
    case TimingFlowControl(_) =>
      && |b| == 84
      && WordAt(b, 7) == 0xA100_0000 && WordAt(b, 11) == 0x4030_0002 && WordAt(b, 12) == 2
      && WordAt(b, 20) < 0x1_0000
    case SinkCapabilitiesQuery(q) =>
      && |b| == (if q.form.Short? then 60 else 52)
      && WordAt(b, 7) == 0xA110_0000
      && WordAt(b, 11) == (if q.form.Short? then 0x8000_0000 else 0x7BB9_8002)
      && (q.form.Long? ==> WordAt(b, 12) == 2)
    case SinkCapabilitiesResponse(r) =>
      && (if r.form.Short? then |b| == 72 else |b| >= 56 && b[52..] == r.capabilityTable)
      && WordAt(b, 7) == 0xA110_0400
      && WordAt(b, 11) == (if r.form.Short? then 0x8000_0000 else 0x7BB9_8002)
      && (r.form.Long? ==> WordAt(b, 12) == 2)
    case StatusReport(s) =>
      && |b| == (if s.sampleRateLimit.Some? then 84 else if s.referenceLevelLimit.Some? then 68 else 60)
      && WordAt(b, 7) == 0xA108_0000 && WordAt(b, 11) == 0 && WordAt(b, 12) == 0
      && (WordAt(b, 14) / 16 % 2 == 1 <==> s.referenceLevelLimit.Some?)
      && (WordAt(b, 14) / 8 % 2 == 1 <==> s.sampleRateLimit.Some?)
      && (s.sampleRateLimit.Some? <==> s.bandwidthLimit.Some?)
  }

  lemma BodySkeleton(b: seq<u8>, prologue: Prologue, profile: StandardProfile)
    requires 28 <= |b| == 4 * prologue.header.packetSizeWords
    requires P.ParseBody(b, prologue, profile).Ok?
    ensures Skeleton(b, P.ParseBody(b, prologue, profile).value)
  {
    hide WordAt, FromHiLo, I64OfU64, U64OfI64, ParsePayloadFormat, P.DecodeBufferStatus, P.ValidateDataPadding;
    match prologue.classId.packetClass
    case VersionFlowSignalContext => VersionTail(WordAt(b, 10));
    case StatusReportClass => FlagBits(WordAt(b, 14));
    case _ =>
  }

  lemma VersionTail(w: u32)
    ensures w / 64 % 16 == 0 && w % 64 == 0 ==> w % 0x400 == 0
  {
  }

  lemma FlagBits(w: u32)
    ensures P.QuantitativeFlags(w) == w / 16 % 2 * 16 + w / 8 % 2 * 8
  {
    assert w / 16 == w / 8 / 2;
  }

  /** Every accepted packet has the size and the fixed words of its layout, and its flags state its optional parts. */
  lemma AcceptedSkeleton(b: seq<u8>, options: ParseOptions)
    requires P.ParseExact(b, options).Ok?
    ensures |b| >= 28 && |b| % 4 == 0 && WordAt(b, 0) % 0x1_0000 == |b| / 4
    ensures WordAt(b, 2) % 0x800_0000 == 0x6A_621E
    ensures Skeleton(b, P.ParseExact(b, options).value)
  {
    hide P.ParsePrefix, P.ParsePrologue, P.ParseBody, Skeleton, WordAt, Fields.BodyFields;
    Fields.AcceptedFields(b, options);
    ParsePrefixUnfolds(b, options);
    var profile := StandardProfile(options);
    var s := b[..4 * (WordAt(b, 0) % 0x1_0000)];
    assert s == b;
    PrologueParsedThenWritten(s, profile);
    SizeOfPrologue(s, P.ParsePrologue(s, profile).value);
    BodySkeleton(s, P.ParsePrologue(s, profile).value, profile);
  }
}
