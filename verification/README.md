# A model of difi-rs

This project models the DIFI packet codec of difi-rs and proves how its halves relate: the strict
parser, the canonical writer that fills caller-owned buffers, the direct IQ writers and sample
decoders, and the sequence tracker behind the datagram stream parser.

| file | models |
|---|---|
| `Wrappers.dfy`, `Arithmetic.dfy` | results with `:-`, division with remainder |
| `Raw.dfy` | machine integers, big-endian words, in-place word writes (`src/raw.rs`) |
| `Wire.dfy` | packet types, bit fields and errors (`src/header.rs`, `src/information.rs`, `src/class_id.rs`, `src/payload_format.rs`, `src/packet.rs`, `src/context.rs`, `src/version.rs`, `src/command.rs`, `src/error.rs`, `src/validation.rs`) |
| `Standard.dfy` | the version-dependent profile (`src/standard.rs`) |
| `Parser.dfy` | the parser (`src/parser.rs`) |
| `Writer.dfy`, `BufferWriter.dfy` | validation and sizes; emission into an `array` (`src/writer.rs`) |
| `Encoding.dfy` | the wire format as one function from packets to bytes, the specification of both halves |
| `Prepared.dfy`, `RoundTripPrologue.dfy`, `RoundTripLayouts.dfy`, `RoundTrip.dfy`, `Codec.dfy` | round trips, exact domains, framing |
| `FixedWords.dfy`, `Padding.dfy`, `Profiles.dfy` | sizes and fixed words as numbers; padding as arithmetic; the relation between the profiles |
| `Fields.dfy`, `Acceptance.dfy`, `Rejection.dfy`, `Refusal.dfy` | in numerals, over the input's words or the packet's fields: decoded fields, accepted inputs, the parser's errors, the writer's errors |
| `OutputParses.dfy` | which of the writer's outputs parse |
| `Samples.dfy`, `IqWriter.dfy` | IQ decoding and direct IQ writing (`src/samples.rs`, `src/writer.rs`) |
| `Sequence.dfy`, `PacketStream.dfy`, `History.dfy`, `Loss.dfy` | the tracker and the stream parser as classes; whole runs; loss reporting |

## How the model reads the code

- Machine integers are bounded subsets of `int`. Shifts and masks are division and remainder by powers
  of two; an `|` that joins disjoint fields is a sum. Where the code would drop high bits of an
  unvalidated field, the emission step requires the field to fit, and validation is proved to ensure it.
- `?` is `:-`, an `expect` or `unreachable!` is an assertion or a precondition that every caller meets,
  and a slice index is a bound that Dafny proves.
- Error field names are constructors of one enumeration. Every error constructor keeps its numbers.
- `ParseOptions` and `WriteOptions` hold the same two fields and share one datatype.
- The seven prologue checks that the parser, the writer and the direct IQ writers make in the same order
  are one function, `ValidateHeaderAndClass`. Of the parser's two tests for a pad count beyond the
  payload, the second cannot fail once the first has passed; both have the same error and are joined.
- `copy_from_slice` and `chunks_exact` are library code and are modelled by what they do.

## Where the code does not meet its documentation

`README.md:114` promises parseable output, and `docs/adr/0001-strict-canonical-packet-writer.md:29-30`
packets that the parser can read back. The writer never compares a packet's enum variant with its packet
class, on which the parser dispatches, so neither holds of every packet that the writer accepts.

- Parses to the same packet: `Codec.WriteThenParse` proves that this is so exactly when variant and packet
  class agree.
- Parses at all: `OutputParses.OutputParses` proves that this is so exactly when the two agree, or the class
  is one of the two signal data classes, or the variant is signal data whose payload is another packet's body.
  In the second case the output is read as signal data (`OutputParses.DataClassParses`), in the third as that
  other packet (`OutputParses.DisguiseParses`). A caller can decide the question from the written words alone,
  by `OutputParses.OutputParsesExactly`.

`Codec.IncoherentPacketIsWritten` is a packet that is written and does not parse;
`OutputParses.MisclassifiedPacketParses` is one that is written and parses to something else.
`Codec.DisguiseIsWritten` says exactly when the bytes of one packet are also written for another.

## Model

| member | source | states |
|---|---|---|
| Raw.WriteU32 | src/raw.rs:28-32 | the buffer's word view grows by the value at its index, and no other byte changes |
| Raw.WriteU64 | src/raw.rs:35-38 | the same for a high and a low word |
| Raw.WriteI64 | src/raw.rs:41-43 | the same for the two's-complement image of a signed value |
| Raw.WordIsBigEndian | src/raw.rs:7-15 | a word is its four bytes, the most significant first |
| Raw.WordsOfBytes | src/raw.rs:7-15 | big-endian reads of laid-out words give the words, whatever follows |
| Raw.BytesOfWords | src/raw.rs:28-32 | laying out the words that were read gives the bytes |
| RoundTripPrologue.CodesAreStandard | src/information.rs:23-91 | every code of every packet type, time code, information class and packet class, in numerals |
| RoundTripPrologue.CodesInvert | src/information.rs:23-91 | every packet type, time code, information class and packet class is decoded from its own code, and a code that none has is rejected |
| RoundTripPrologue.HeaderFields | src/writer.rs:1164-1170 | every bit field of the joined header word is the field that was joined |
| RoundTripPrologue.HeaderWrittenThenParsed | src/header.rs:94-124 | parsing the joined word returns the header, timestamp mode included |
| RoundTripPrologue.HeaderParsedThenWritten | src/header.rs:94-124 | a parsed header with the class indicator joins to the very word it came from |
| RoundTripPrologue.ClassIdWrittenThenParsed | src/class_id.rs:16-40 | joining a class id with identifier 0x6A621E and parsing the two words returns it |
| RoundTripPrologue.ClassIdParsedThenWritten | src/class_id.rs:16-40 | a parsed class id has identifier 0x6A621E and joins to the two words it came from; reserved bits were zero |
| RoundTripPrologue.PrologueWrittenThenParsed | src/parser.rs:66-86 | seven laid-out words of a checked prologue parse to that prologue |
| RoundTripPrologue.PrologueParsedThenWritten | src/parser.rs:66-86 | a parsed prologue passes the writer's prologue conditions and its words are the input's |
| RoundTripLayouts.DataWrittenThenParsed | src/parser.rs:116-141 | signal data that the writer validates parses back with its payload |
| RoundTripLayouts.DataParsedThenWritten | src/writer.rs:445-467 | parsed signal data passes the writer's validation |
| RoundTripLayouts.PayloadFormatWrittenThenParsed | src/payload_format.rs:20-42 | a payload format that the writer validates is what its raw words parse to |
| RoundTripLayouts.PayloadFormatParsedThenWritten | src/writer.rs:746-781 | a parsed payload format passes the writer's validation and keeps its words |
| RoundTripLayouts.SignalContextPlaced | src/writer.rs:873-892 | laying out a signal context and reading each field at its word index are the same condition |
| RoundTripLayouts.SignalContextWrittenThenParsed | src/parser.rs:143-193 | a validated signal context in place parses to itself, signed and halved fields included |
| RoundTripLayouts.SignalContextParsedThenWritten | src/writer.rs:469-504 | a parsed signal context passes the writer's validation and stands in place |
| RoundTripLayouts.VersionFields | src/writer.rs:898-902 | the 7/9/6/4/6-bit fields of the version word are the fields that were joined |
| RoundTripLayouts.VersionContextWrittenThenParsed | src/parser.rs:195-244 | a validated version context's words parse to it |
| RoundTripLayouts.VersionContextParsedThenWritten | src/writer.rs:506-558 | a parsed version context passes the writer's validation and has the input's words |
| RoundTripLayouts.BufferStatusWrittenThenParsed | src/writer.rs:783-797 | a validated buffer status has clear reserved bits and decodes from its raw word |
| RoundTripLayouts.BufferStatusParsedThenWritten | src/parser.rs:267-292 | a decoded buffer status agrees with its raw word under the writer's check |
| RoundTripLayouts.TimingFlowControlPlaced | src/writer.rs:906-915 | laying out a timing flow control packet and reading each field at its word index are the same condition |
| RoundTripLayouts.TimingFlowControlWrittenThenParsed | src/parser.rs:246-295 | a validated timing flow control packet in place parses to itself |
| RoundTripLayouts.TimingFlowControlParsedThenWritten | src/writer.rs:560-577 | a parsed one passes the writer's validation and stands in place |
| RoundTripLayouts.QueryWrittenThenParsed | src/parser.rs:297-343 | a validated query parses to itself in the form it was written in |
| RoundTripLayouts.QueryParsedThenWritten | src/writer.rs:579-628 | a parsed query of either form passes the writer's validation with the input's words |
| RoundTripLayouts.ResponseWrittenThenParsed | src/parser.rs:345-399 | a validated response parses to itself, with its whole capability table |
| RoundTripLayouts.ResponseParsedThenWritten | src/writer.rs:630-710 | a parsed response of either form passes the writer's validation with the input's words and table |
| RoundTripLayouts.StatusPlaced | src/writer.rs:1017-1034 | laying out a status report of 15, 17 or 21 words and reading each field in place are the same condition |
| RoundTripLayouts.StatusWrittenThenParsed | src/parser.rs:401-467 | a validated status report in place parses to itself, its optional limits included |
| RoundTripLayouts.StatusParsedThenWritten | src/writer.rs:712-744 | a parsed one passes the writer's validation, size and flags agreeing with the limits present |
| Prepared.PreparedFits | src/writer.rs:218-244 | an accepted packet fits every bit field and form, the plan is its own header, and its encoding has the planned length |
| BufferWriter.WritePrologue | src/writer.rs:846-871 | the first seven words become the prologue with the plan's header fields, and nothing else changes |
| BufferWriter.WriteSignalContext | src/writer.rs:873-892 | words 7 to 26 become the signal context's, and nothing else changes |
| BufferWriter.WriteVersionContext | src/writer.rs:894-904 | words 7 to 10 become the version context's, and nothing else changes |
| BufferWriter.WriteCommon | src/writer.rs:1036-1041 | words 7 to 10 become the command fields, and nothing else changes |
| BufferWriter.WriteTimingFlowControl | src/writer.rs:906-915 | words 7 to 20 become the timing flow control packet's, and nothing else changes |
| BufferWriter.WriteSinkCapabilitiesQuery | src/writer.rs:917-955 | the query's words are written and nothing else changes; if a field of its form is absent, the error names the first such field |
| BufferWriter.WriteSinkCapabilitiesResponse | src/writer.rs:957-1015 | the response's words and table are written and nothing else changes; if a field of its form is absent, the error names the first such field |
| BufferWriter.WriteStatusReport | src/writer.rs:1017-1034 | each limit that is present is written at its own place and nothing else changes, in any combination; with the limits in order these are the report's words |
| BufferWriter.WriteBody | src/writer.rs:139-151 | for a packet that fits, no emission step reports an error, and words and tail are the packet's |
| BufferWriter.WritePacket | src/writer.rs:126-154 | all or nothing: the result depends on validation and length alone, an error leaves the buffer as it was, success leaves the encoding followed by the untouched rest |
| RoundTrip.WrittenThenParsed | src/parser.rs:32-64 | a writable coherent packet, followed by any bytes, is what the prefix parser returns, with those bytes as remainder |
| RoundTrip.ParsedThenWritten | src/writer.rs:321-425 | whatever the prefix parser returns is writable and coherent, and the input is its encoding and the remainder |
| Codec.WriteThenParse | docs/adr/0001-strict-canonical-packet-writer.md:29-30 | for every writable packet and option value, exact parsing returns the packet if and only if its variant agrees with its packet class |
| Codec.ParseThenWrite | src/writer.rs:110-154 | for every accepted input, encoded length and encoding are the input's, under the same options |
| Codec.ParserRange | src/parser.rs:18-30 | a packet is in the parser's range if and only if it is writable and coherent |
| Codec.ParsingIsInjective | src/parser.rs:18-30 | inputs that parse to the same packet, under any two option values, are equal |
| Codec.BufferHoldsPacket | src/writer.rs:126-154 | the written part of the buffer parses back exactly when coherent, is independent of earlier contents, and the rest is untouched |
| Codec.BufferReproducesInput | README.md:120-126 | parsing and writing back copies the input to the front of the buffer |
| Codec.IncoherentPacketIsWritten | src/writer.rs:218-244 | a concrete incoherent packet is writable and its bytes are rejected by the parser with a size error |
| Codec.DisguiseIsWritten | src/writer.rs:301-309 | any non-data packet's bytes are also written for an incoherent signal data packet, if and only if its type-specific bits are zero |
| Codec.ConsumesPrologue | src/parser.rs:45-50 | every accepted prefix takes at least 28 bytes |
| Codec.SuffixIsRemainder | src/parser.rs:59-63 | appending bytes to an accepted input changes only the remainder |
| Codec.TruncationIsReported | src/parser.rs:36-57 | every proper prefix of an accepted packet is rejected as too short or truncated, with the exact lengths |
| Codec.SurplusIsReported | src/parser.rs:22-29 | every proper extension of an accepted packet is rejected with the exact surplus |
| Codec.ConcatenationParses | src/lib.rs:66-82 | repeated prefix parsing of concatenated encodings returns exactly the packets, with nothing left |
| Codec.ParsedConcatenation | src/lib.rs:66-82 | input consumed completely by prefix parsing is the concatenation of the encodings found |
| Codec.UniquelyDecodable | src/lib.rs:66-82 | packet lists with equal concatenated encodings are equal |
| Codec.TooShortExactly | src/raw.rs:7-15 | the exact inputs for which reading past the end is reported: under 28 bytes, or the two layouts that read before they check their size |
| FixedWords.AcceptedSkeleton | src/standard.rs:5-20 | every accepted packet has the DIFI identifier, its layout's size, fixed CIF/CAM words and clear reserved bits; change indicators and status flags state what the decoded fields say |
| Fields.AcceptedFields | src/parser.rs:66-467 | every decoded field of an accepted packet, prologue and body, is the number at its place in the input; signed fields are congruent to theirs, and the class code names the variant |
| Padding.PaddingIsDivisibility | src/parser.rs:490-527 | the byte-wise padding check accepts exactly payloads divisible, as one number, by two to the pad count; which error otherwise; the writer's copy agrees |
| Padding.DataAcceptedExactly | src/standard.rs:270-293 | when signal data is accepted, joining the padding permission with divisibility |
| Profiles.MembershipRule | src/standard.rs:498-609 | the three membership tables follow one rule over what an information class offers |
| Profiles.AdmissionRule | src/standard.rs:78-268 | the seven prologue checks admit exactly the headers whose type, type-specific bits and time base the class settles |
| Profiles.AcceptingProfilesAgree | src/parser.rs:66-114 | any two option values that accept an input return the same packet and remainder |
| Profiles.StrictIsOldClassesOf130 | src/standard.rs:449-609 | strict 1.2.1 accepts exactly the 1.3.0 packets with information class below 0x0100 |
| Profiles.LegacyAddsVersionType | src/standard.rs:121-127 | legacy mode adds exactly the type-5 version packets of 1.1 |
| Profiles.OldestIsPartOfLegacy | src/standard.rs:449-526 | 1.1 accepts exactly legacy's basic data plane packets and its type-5 version packets |
| Profiles.ModeMattersOnlyIn121 | src/standard.rs:449-474 | outside 1.2.1 the compatibility mode changes no result and no error |
| Acceptance.PrologueAcceptedExactly | src/parser.rs:66-86 | a prologue is accepted if and only if identifier, class codes, type code, type-specific bits and time codes conform to the profile, all in numerals |
| Acceptance.BodyAcceptedExactly | src/parser.rs:116-467 | each layout's parser accepts a body if and only if its size, fixed words, clear low bits, payload format, flags and padding satisfy plain conditions on its words |
| Acceptance.AcceptedExactly | src/parser.rs:18-114 | exact parsing accepts an input if and only if its size field is its length and the numbers in its words satisfy the prologue and body conditions |
| Rejection.AdmissionErrorExactly | src/standard.rs:78-268 | which error a header and class id get from the seven checks, by their codes and in check order |
| Rejection.PrologueErrorExactly | src/parser.rs:66-78 | which error the first seven words get: unknown codes, missing class id, reserved bits, identifier, then admission |
| Rejection.BodyRejectedExactly | src/parser.rs:116-467 | which error a body gets: size, padding, fixed words, fractions, format, flags or reserved bits, with the expected and actual numbers, in check order |
| Rejection.PrefixRejectedExactly | src/parser.rs:32-64 | the answer of the prefix parser to every input: accepted, or the first error of framing, prologue and body |
| Rejection.RejectedExactly | src/parser.rs:18-30 | the same for the exact parser, which reports surplus bytes last |
| Refusal.SizeIsPlanned | src/writer.rs:246-299 | the size error of every packet, or its encoding's size in words |
| Refusal.PrologueRefused | src/writer.rs:321-443 | which error the writer gives for a prologue, with the expected and actual numbers, in check order |
| Refusal.BodyRefused | src/writer.rs:445-842 | which error each layout's validation gives, with the expected and actual numbers, in check order; its size tests cannot fail after the size is planned, but for an empty capability table |
| Refusal.RefusedExactly | src/writer.rs:110-124 | the answer to every packet: the length of its encoding, or the first error |
| OutputParses.OutputParsesExactly | src/writer.rs:126-154 | for every writable packet, the output parses if and only if its words conform to its packet class, whatever its variant |
| OutputParses.DataClassParses | src/parser.rs:88-91 | any other variant under a signal data class is read back as the signal data that its bytes spell |
| OutputParses.DisguiseParses | src/parser.rs:88-114 | signal data under another class parses if and only if its payload is the body of a packet of that class, and then to that packet |
| OutputParses.OutputParses | README.md:114 | the writable packets whose output parses are exactly the coherent ones, those under a signal data class, and signal data that carries another packet's body |
| OutputParses.MisclassifiedPacketParses | src/writer.rs:218-244 | a concrete timing flow control variant is written and read back as 56 bytes of signal data |
| Samples.DecodedIsSpelledI8 | src/samples.rs:27-37 | the decoded samples are exactly those whose components are congruent modulo 256 to the payload's bytes, i before q |
| Samples.DecodedIsSpelledI16 | src/samples.rs:46-56 | the same for two bytes a component, high byte first, modulo 65536 |
| Samples.EncodedIsSpelledI8 | src/writer.rs:185-190 | the emitted bytes are the components modulo 256 |
| Samples.EncodedIsSpelledI16 | src/writer.rs:209-214 | the emitted byte pairs are the components modulo 65536 |
| Samples.DecodeInvertsEncodeI8 | src/samples.rs:27-37 | decoding the bytes of 8-bit samples returns the samples |
| Samples.DecodeInvertsEncodeI16 | src/samples.rs:46-56 | decoding the bytes of 16-bit samples returns the samples |
| Samples.EncodeInvertsDecodeI8 | src/samples.rs:60-70 | every aligned 8-bit payload is the payload of its samples |
| Samples.EncodeInvertsDecodeI16 | src/samples.rs:72-82 | every aligned 16-bit payload is the payload of its samples |
| Samples.IqI8Samples.Next | src/samples.rs:30-36 | yields the sample that the next two bytes spell and moves past them, then none for ever |
| Samples.IqI16Samples.Next | src/samples.rs:49-55 | yields the sample that the next four bytes spell and moves past them, then none for ever |
| Samples.IqI8SamplesOf | src/samples.rs:60-70 | succeeds exactly on even lengths, with the samples that the payload spells to come |
| Samples.IqI16SamplesOf | src/samples.rs:72-82 | succeeds exactly on multiples of four, with the samples that the payload spells to come |
| IqWriter.WriteIqDataI8 | src/writer.rs:170-192 | the buffer after a direct write is the buffer after writing the corresponding signal data packet, errors leaving it alone |
| IqWriter.WriteIqDataI16 | src/writer.rs:194-216 | the same for 16-bit samples |
| IqWriter.EmitI8 | src/writer.rs:185-190 | the sample loop fills the payload with the components' two's-complement bytes and changes nothing else |
| IqWriter.EmitI16 | src/writer.rs:209-214 | the sample loop fills the payload with the components' two's-complement byte pairs and changes nothing else |
| IqWriter.SpecWordsArePrepared | src/writer.rs:1064-1117 | the direct writers' checks accept exactly when the general writer accepts the packet, with the same length |
| IqWriter.IqI8RefinesWriter | src/writer.rs:1043-1054 | direct 8-bit writing succeeds exactly when general writing does, odd counts included |
| IqWriter.IqI16RefinesWriter | src/writer.rs:1056-1062 | direct 16-bit writing succeeds exactly when general writing does |
| IqWriter.IqSucceedsExactly | src/writer.rs:1043-1117 | success is an admitted spec, a sequence up to 15, and an even count up to 131056 or a count up to 65528 |
| IqWriter.IqAnswersExactly | src/writer.rs:1043-1117 | the answer to every spec and sample count: the length in bytes, or the first error with its numbers |
| IqWriter.IqOnWire | src/writer.rs:1119-1138 | the seven words of the output are the DIFI identifier, the spec and the size as numbers, and the payload follows |
| IqWriter.IqI8EndToEnd | src/writer.rs:170-192 | the output is the spec on the wire and the bytes that spell the 8-bit samples; parsed and decoded, samples and spec come back |
| IqWriter.IqI16EndToEnd | src/writer.rs:194-216 | the output is the spec on the wire and the bytes that spell the 16-bit samples; parsed and decoded, samples and spec come back |
| Sequence.SequenceTracker.ObserveFields | src/sequence.rs:47-76 | the key's stored number becomes the number modulo 16, no other key changes; an unseen key is `First`, and otherwise the two numbers settle the status, a gap stating the successor of the one and the other |
| Sequence.SequenceTracker.Observe | src/sequence.rs:37-45 | the same for the key of packet type, packet class and stream id |
| PacketStream.PacketStreamParser.ParseDatagram | src/packet_stream.rs:56-63 | a rejected datagram gets the exact parser's error and changes nothing; an accepted one is observed under its packet type, packet class and stream id |
| History.Track | src/sequence.rs:54-61 | after any run every stored number is below 16 |
| History.StateIsHistory | src/sequence.rs:20-80 | after any run a stored value is the key's last observed number, and a key is absent exactly when it was never observed |
| History.StatusIsHistory | src/sequence.rs:61-75 | each status is settled by the key's last number before it and its own, and is `First` exactly when there is none |
| History.KeysAreIndependent | src/sequence.rs:55-59 | in any interleaving, one key's statuses are those of its own subsequence run alone |
| History.KeyAdvancesAddUp | src/sequence.rs:61-75 | along one key of any interleaving, the advances that the statuses state add up modulo 16 |
| History.StreamRefinesParserAndTracker | src/packet_stream.rs:56-68 | over any run of datagrams and resets, each answer is stateless exact parsing with a status settled by the last accepted packet of the same packet type, packet class and stream since the reset, `First` exactly without one |
| History.RejectedLeavesNoTrace | src/packet_stream.rs:56-63 | in any run, removing a rejected datagram changes neither the state nor the answer to any later datagram |
| History.ResetStartsAfresh | src/packet_stream.rs:65-68 | after a reset, the state and every later answer are those of a fresh parser, whatever came before |
| Loss.SenderCounts | examples/udp_sender.rs:212-214 | the sender's counter after n packets is the start plus n modulo 16 |
| Loss.LossIsReported | src/packet_stream.rs:56-63 | between two accepted packets of one type, class and stream, amid rejected datagrams and other streams, the numbers settle the status; with d packets lost it is in order for d = 0, duplicate for d = 15 and otherwise a gap of d, all modulo 16 |
| Loss.LossIsAccounted | src/sequence.rs:61-75 | over a whole stream the reported losses never exceed the real ones, and equal them if and only if no burst exceeds 14 |
| Loss.StreamLossIsAccounted | src/packet_stream.rs:56-63 | the same for the answers of the stream parser in any run without resets, with rejected datagrams and other keys in between |

## Left out

- UDP sockets, timing, argument parsing and printing in `examples/`; only the sender's counter step is modelled.
- The pcap reader, benches and allocation tests: plumbing and I/O.
- serde derives, error display text, hash-map capacity, allocation counts and the identity of borrowed slices; a slice is the byte sequence it denotes.
- General 4 to 16 bit link-efficient packing, which the repository itself leaves out.
- `usize` overflow in the sample-count multiplications: lengths are natural numbers.
- `len` of the sample iterators, and iterator adaptors other than `next`.
- BufferWriter.WritePrologue: requires that the prologue fits its bit fields, where the source's shifts would drop or mix bits of an unvalidated one.
- BufferWriter.WriteVersionContext: requires that the version fields fit, for the same reason.
