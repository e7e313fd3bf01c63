/** Decoding of aligned IQ samples (src/samples.rs). */
module Samples {
  import opened Wrappers
  import opened Raw

  datatype ComplexI8 = ComplexI8(i: i8, q: i8)

  datatype ComplexI16 = ComplexI16(i: i16, q: i16)

  datatype SampleError = MisalignedPayload(len: nat, sampleBytes: nat)

  function I16OfBytes(high: u8, low: u8): i16 {
    I16OfU16(high * 0x100 + low)
  }

  /** All the samples of an aligned payload. */
  function DecodeI8(payload: seq<u8>): (samples: seq<ComplexI8>)
    requires |payload| % 2 == 0
    ensures |samples| == |payload| / 2
  {
    seq(|payload| / 2, k requires 0 <= k < |payload| / 2 =>
      ComplexI8(I8OfU8(payload[2 * k]), I8OfU8(payload[2 * k + 1])))
  }

  function DecodeI16(payload: seq<u8>): (samples: seq<ComplexI16>)
    requires |payload| % 4 == 0
    ensures |samples| == |payload| / 4
  {
    seq(|payload| / 4, k requires 0 <= k < |payload| / 4 =>
      ComplexI16(I16OfBytes(payload[4 * k], payload[4 * k + 1]), I16OfBytes(payload[4 * k + 2], payload[4 * k + 3])))
  }

  /** The samples whose two's-complement bytes, i before q, these are. */
  predicate SpelledI8(samples: seq<ComplexI8>, payload: seq<u8>) {
    && |payload| == 2 * |samples|
    && forall k | 0 <= k < |samples| ::
         samples[k].i % 0x100 == payload[2 * k] && samples[k].q % 0x100 == payload[2 * k + 1]
  }

  /** The same for two bytes a component, the high byte first. */
  predicate SpelledI16(samples: seq<ComplexI16>, payload: seq<u8>) {
    && |payload| == 4 * |samples|
    && forall k | 0 <= k < |samples| ::
         && samples[k].i % 0x1_0000 == payload[4 * k] as int * 0x100 + payload[4 * k + 1] as int
         && samples[k].q % 0x1_0000 == payload[4 * k + 2] as int * 0x100 + payload[4 * k + 3] as int
  }

  /** Decoding gives the samples that the bytes spell, and no others are spelled by them. */
  lemma DecodedIsSpelledI8(payload: seq<u8>, samples: seq<ComplexI8>)
    requires |payload| % 2 == 0
    ensures SpelledI8(samples, payload) <==> samples == DecodeI8(payload)
  {
    hide I8OfU8;
    forall k | 0 <= k < |payload|
      ensures I8OfU8(payload[k]) % 0x100 == payload[k]
    {
      OctetImage(payload[k]);
    }
    if SpelledI8(samples, payload) {
      forall k | 0 <= k < |samples|
        ensures samples[k] == DecodeI8(payload)[k]
      {
        OctetOf(samples[k].i);
        OctetOf(samples[k].q);
      }
    }
  }

  lemma OctetImage(v: u8)
    ensures I8OfU8(v) % 0x100 == v
  {
  }

  lemma OctetOf(v: i8)
    ensures I8OfU8(v % 0x100) == v
  {
  }

  lemma DecodedIsSpelledI16(payload: seq<u8>, samples: seq<ComplexI16>)
    requires |payload| % 4 == 0
    ensures SpelledI16(samples, payload) <==> samples == DecodeI16(payload)
  {
    hide I16OfBytes;
    forall k | 0 <= k < |payload| / 4
      ensures var s := DecodeI16(payload)[k];
              && s.i % 0x1_0000 == payload[4 * k] as int * 0x100 + payload[4 * k + 1] as int
              && s.q % 0x1_0000 == payload[4 * k + 2] as int * 0x100 + payload[4 * k + 3] as int
    {
      PairImage(payload[4 * k], payload[4 * k + 1]);
      PairImage(payload[4 * k + 2], payload[4 * k + 3]);
    }
    if SpelledI16(samples, payload) {
      forall k | 0 <= k < |samples|
        ensures samples[k] == DecodeI16(payload)[k]
      {
        PairOf(samples[k].i, payload[4 * k], payload[4 * k + 1]);
        PairOf(samples[k].q, payload[4 * k + 2], payload[4 * k + 3]);
      }
    }
  }

  lemma PairImage(high: u8, low: u8)
    ensures I16OfBytes(high, low) % 0x1_0000 == high as int * 0x100 + low as int
  {
  }

  lemma PairOf(v: i16, high: u8, low: u8)
    requires v % 0x1_0000 == high as int * 0x100 + low as int
    ensures I16OfBytes(high, low) == v
  {
  }

  /** Encoding gives the bytes that spell the samples. */
  lemma EncodedIsSpelledI8(samples: seq<ComplexI8>)
    ensures SpelledI8(samples, EncodeI8(samples))
  {
    DecodeInvertsEncodeI8(samples);
    DecodedIsSpelledI8(EncodeI8(samples), samples);
  }

  lemma EncodedIsSpelledI16(samples: seq<ComplexI16>)
    ensures SpelledI16(samples, EncodeI16(samples))
  {
    DecodeInvertsEncodeI16(samples);
    DecodedIsSpelledI16(EncodeI16(samples), samples);
  }

  class IqI8Samples {
    /** What `chunks_exact(2)` has not yet yielded. */
    var chunks: seq<u8>

    ghost predicate Valid()
      reads this
    {
      |chunks| % 2 == 0
    }

    /** The samples still to come. */
    ghost function Remaining(): seq<ComplexI8>
      requires Valid()
      reads this
    {
      DecodeI8(chunks)
    }

    constructor (payload: seq<u8>)
      requires |payload| % 2 == 0
      ensures Valid() && Remaining() == DecodeI8(payload)
    {
      chunks := payload;
    }

    method Next() returns (r: Option<ComplexI8>)
      requires Valid()
      modifies this
      ensures Valid()
      ensures old(chunks) == [] ==> r == None && chunks == []
      ensures old(chunks) != [] ==> r.Some? && SpelledI8([r.value], old(chunks)[..2]) && chunks == old(chunks)[2..]
      ensures old(Remaining()) == [] ==> r == None && Remaining() == []
      ensures old(Remaining()) != [] ==> r == Some(old(Remaining())[0]) && Remaining() == old(Remaining())[1..]
    {
      if |chunks| < 2 {
        return None;
      }
      var chunk := chunks[..2];
      chunks := chunks[2..];
      return Some(ComplexI8(I8OfU8(chunk[0]), I8OfU8(chunk[1])));
    }
  }

  class IqI16Samples {
    /** What `chunks_exact(4)` has not yet yielded. */
    var chunks: seq<u8>

    ghost predicate Valid()
      reads this
    {
      |chunks| % 4 == 0
    }

    /** The samples still to come. */
    ghost function Remaining(): seq<ComplexI16>
      requires Valid()
      reads this
    {
      DecodeI16(chunks)
    }

    constructor (payload: seq<u8>)
      requires |payload| % 4 == 0
      ensures Valid() && Remaining() == DecodeI16(payload)
    {
      chunks := payload;
    }

    method Next() returns (r: Option<ComplexI16>)
      requires Valid()
      modifies this
      ensures Valid()
      ensures old(chunks) == [] ==> r == None && chunks == []
      ensures old(chunks) != [] ==> r.Some? && SpelledI16([r.value], old(chunks)[..4]) && chunks == old(chunks)[4..]
      ensures old(Remaining()) == [] ==> r == None && Remaining() == []
      ensures old(Remaining()) != [] ==> r == Some(old(Remaining())[0]) && Remaining() == old(Remaining())[1..]
    {
      if |chunks| < 4 {
        return None;
      }
      var chunk := chunks[..4];
      chunks := chunks[4..];
      return Some(ComplexI16(I16OfBytes(chunk[0], chunk[1]), I16OfBytes(chunk[2], chunk[3])));
    }
  }

  method IqI8SamplesOf(payload: seq<u8>) returns (r: Result<IqI8Samples, SampleError>)
    ensures r.Err? ==> r.error == MisalignedPayload(|payload|, 2)
    ensures r.Ok? <==> |payload| % 2 == 0
    ensures r.Ok? ==> fresh(r.value) && r.value.Valid() && r.value.Remaining() == DecodeI8(payload)
    ensures r.Ok? ==> SpelledI8(r.value.Remaining(), payload)
  {
    if |payload| % 2 != 0 {
      return Err(MisalignedPayload(|payload|, 2));
    }
    var samples := new IqI8Samples(payload);
    DecodedIsSpelledI8(payload, DecodeI8(payload));
    return Ok(samples);
  }

  method IqI16SamplesOf(payload: seq<u8>) returns (r: Result<IqI16Samples, SampleError>)
    ensures r.Err? ==> r.error == MisalignedPayload(|payload|, 4)
    ensures r.Ok? <==> |payload| % 4 == 0
    ensures r.Ok? ==> fresh(r.value) && r.value.Valid() && r.value.Remaining() == DecodeI16(payload)
    ensures r.Ok? ==> SpelledI16(r.value.Remaining(), payload)
  {
    if |payload| % 4 != 0 {
      return Err(MisalignedPayload(|payload|, 4));
    }
    var samples := new IqI16Samples(payload);
    DecodedIsSpelledI16(payload, DecodeI16(payload));
    return Ok(samples);
  }

  // ---- the payload of a list of samples ----

  function EncodeI8(samples: seq<ComplexI8>): (payload: seq<u8>)
    ensures |payload| == 2 * |samples|
  {
    if samples == [] then [] else
    var n := |samples| - 1;
    EncodeI8(samples[..n]) + [U8OfI8(samples[n].i), U8OfI8(samples[n].q)]
  }

  function Be16(v: u16): (b: seq<u8>)
    ensures |b| == 2
  {
    [v / 0x100, v % 0x100]
  }

  function EncodeI16(samples: seq<ComplexI16>): (payload: seq<u8>)
    ensures |payload| == 4 * |samples|
  {
    if samples == [] then [] else
    var n := |samples| - 1;
    EncodeI16(samples[..n]) + Be16(U16OfI16(samples[n].i)) + Be16(U16OfI16(samples[n].q))
  }

  lemma {:induction false} DecodeInvertsEncodeI8(samples: seq<ComplexI8>)
    ensures DecodeI8(EncodeI8(samples)) == samples
  {
    if samples != [] {
      var n := |samples| - 1;
      var front := EncodeI8(samples[..n]);
      DecodeInvertsEncodeI8(samples[..n]);
      var all := EncodeI8(samples);
      assert all[..2 * n] == front;
      DecodePrefixI8(all, n);
      assert DecodeI8(all)[n] == samples[n];
      assert DecodeI8(all) == DecodeI8(all)[..n] + [DecodeI8(all)[n]];
    }
  }

  lemma DecodePrefixI8(payload: seq<u8>, n: nat)
    requires |payload| % 2 == 0 && 2 * n <= |payload|
    ensures DecodeI8(payload[..2 * n]) == DecodeI8(payload)[..n]
  {
  }

  lemma {:induction false} DecodeInvertsEncodeI16(samples: seq<ComplexI16>)
    ensures DecodeI16(EncodeI16(samples)) == samples
  {
    hide I16OfBytes, U16OfI16;
    if samples != [] {
      var n := |samples| - 1;
      var front := EncodeI16(samples[..n]);
      DecodeInvertsEncodeI16(samples[..n]);
      var all := EncodeI16(samples);
      assert all[..4 * n] == front;
      DecodePrefixI16(all, n);
      Be16Inverts(samples[n].i);
      Be16Inverts(samples[n].q);
      assert all[4 * n..] == Be16(U16OfI16(samples[n].i)) + Be16(U16OfI16(samples[n].q));
      assert DecodeI16(all)[n] == samples[n];
      assert DecodeI16(all) == DecodeI16(all)[..n] + [DecodeI16(all)[n]];
    }
  }

  lemma DecodePrefixI16(payload: seq<u8>, n: nat)
    requires |payload| % 4 == 0 && 4 * n <= |payload|
    ensures DecodeI16(payload[..4 * n]) == DecodeI16(payload)[..n]
  {
  }

  lemma Be16Inverts(v: i16)
    ensures var b := Be16(U16OfI16(v)); I16OfBytes(b[0], b[1]) == v
  {
  }

  /** Every aligned payload is the payload of its samples. */
  lemma {:induction false} EncodeInvertsDecodeI8(payload: seq<u8>)
    requires |payload| % 2 == 0
    ensures EncodeI8(DecodeI8(payload)) == payload
    decreases |payload|
  {
    if payload != [] {
      var n := |payload| / 2 - 1;
      EncodeInvertsDecodeI8(payload[..2 * n]);
      DecodePrefixI8(payload, n);
      assert payload == payload[..2 * n] + [payload[2 * n], payload[2 * n + 1]];
    }
  }

  lemma {:induction false} EncodeInvertsDecodeI16(payload: seq<u8>)
    requires |payload| % 4 == 0
    ensures EncodeI16(DecodeI16(payload)) == payload
    decreases |payload|
  {
    if payload != [] {
      var n := |payload| / 4 - 1;
      EncodeInvertsDecodeI16(payload[..4 * n]);
      DecodePrefixI16(payload, n);
      BytesOfI16(payload[4 * n], payload[4 * n + 1]);
      BytesOfI16(payload[4 * n + 2], payload[4 * n + 3]);
      assert payload == payload[..4 * n] + [payload[4 * n], payload[4 * n + 1]]
                        + [payload[4 * n + 2], payload[4 * n + 3]];
    }
  }

  lemma BytesOfI16(high: u8, low: u8)
    ensures Be16(U16OfI16(I16OfBytes(high, low))) == [high, low]
  {
    LowByte(high, low);
  }
}
