/** Padding bits, read as divisibility of one big-endian number. */
module Padding {
  import opened Wrappers
  import opened Raw
  import opened Wire
  import opened Arithmetic
  import opened Standard
  import P = Parser
  import W = Writer

  /**
   The parser's byte-wise test accepts a pad count exactly when the pad fits the
   payload and the payload, as a number, ends in that many zero bits.  The
   writer's own copy returns the same verdict and the same underlying error.
   */
  lemma PaddingIsDivisibility(payload: seq<u8>, pad: u8)
    ensures P.ValidateDataPadding(payload, pad) ==
            if pad > 8 * |payload| then Err(InvalidPadding(pad, 8 * |payload|))
            else if BigEndian(payload) % P.Pow2(pad) == 0 then Ok(()) else Err(NonZeroPaddingBits)
    ensures W.ValidateDataPadding(payload, pad) == W.AsWrite(P.ValidateDataPadding(payload, pad))
  {
    if pad <= 8 * |payload| {
      ZeroBits(payload, pad);
    }
  }

  /**
   The pad bits are there and zero and, if there are any, the profile is newer
   than 1.1 and the flow is not the real-time flow of a basic data plane.
   */
  predicate DataConforms(b: seq<u8>, pad: u8, informationCode: u16, classCode: u16, options: ParseOptions)
    requires |b| >= 28
  {
    && pad <= 8 * (|b| - 28)
    && BigEndian(b[28..]) % P.Pow2(pad) == 0
    && (pad != 0 ==> !options.standard.V1_1? && (classCode == 0 ==> informationCode % 0x100 != 0))
  }

  /** Signal data is accepted exactly when its padding conforms. */
  lemma DataAcceptedExactly(b: seq<u8>, prologue: Prologue, options: ParseOptions)
    requires |b| >= 28 && prologue.header.packetSizeWords >= 7
    requires prologue.classId.packetClass.StandardFlowSignalData? || prologue.classId.packetClass.SampleCountSignalData?
    ensures var c := prologue.classId;
            P.ParseData(b, prologue, StandardProfile(options)).Ok?
            <==> DataConforms(b, c.padBitCount, c.informationClass.Raw(), c.packetClass.Raw(), options)
  {
    hide P.ValidateDataPadding, P.Pow2;
    PaddingIsDivisibility(b[28..], prologue.classId.padBitCount);
  }

  /** The last `pad` bits are zero: whole bytes, then the low bits of the byte before them. */
  predicate LastBitsZero(payload: seq<u8>, pad: nat)
    requires pad <= 8 * |payload|
  {
    && (forall k | |payload| - pad / 8 <= k < |payload| :: payload[k] == 0)
    && (pad % 8 != 0 ==> payload[|payload| - pad / 8 - 1] % P.Pow2(pad % 8) == 0)
  }

  lemma {:induction false} ZeroBits(payload: seq<u8>, pad: nat)
    requires pad <= 8 * |payload|
    ensures LastBitsZero(payload, pad) <==> BigEndian(payload) % P.Pow2(pad) == 0
    decreases pad
  {
    if pad >= 8 {
      var n := |payload| - 1;
      var front, last := payload[..n], payload[n];
      ZeroBits(front, pad - 8);
      Pow2Byte(pad - 8);
      DropByte(BigEndian(front), last, P.Pow2(pad - 8));
      assert LastBitsZero(payload, pad) <==> last == 0 && LastBitsZero(front, pad - 8) by {
        LastBitsStep(payload, pad);
      }
    } else if pad > 0 {
      LowBits(BigEndian(payload[..|payload| - 1]), payload[|payload| - 1], pad);
    }
  }

  lemma LastBitsStep(payload: seq<u8>, pad: nat)
    requires 8 <= pad <= 8 * |payload|
    ensures LastBitsZero(payload, pad)
       <==> payload[|payload| - 1] == 0 && LastBitsZero(payload[..|payload| - 1], pad - 8)
  {
    var n := |payload| - 1;
    var front := payload[..n];
    assert (pad - 8) / 8 == pad / 8 - 1 && (pad - 8) % 8 == pad % 8;
    if LastBitsZero(front, pad - 8) && payload[n] == 0 {
      forall k | |payload| - pad / 8 <= k < |payload|
        ensures payload[k] == 0
      {
        if k < n {
          assert front[k] == 0;
        }
      }
    }
  }

  lemma Pow2Byte(k: nat)
    ensures P.Pow2(k + 8) == 0x100 * P.Pow2(k)
  {
    var m := P.Pow2(k);
    assert P.Pow2(k + 2) == 4 * m;
    assert P.Pow2(k + 4) == 16 * m;
    assert P.Pow2(k + 6) == 64 * m;
  }

  /** A number whose low byte is split off is divisible by `256 m` iff that byte is zero and the rest by `m`. */
  lemma DropByte(high: nat, low: u8, m: nat)
    requires m > 0
    ensures (high * 0x100 + low) % (0x100 * m) == 0 <==> low == 0 && high % m == 0
  {
    var v := high * 0x100 + low;
    if low == 0 && high % m == 0 {
      var q := high / m;
      assert high == m * q;
      assert v == 0x100 * m * q;
      MultipleIsDivisible(0x100 * m, q);
    }
    if v % (0x100 * m) == 0 {
      var q := v / (0x100 * m);
      assert v == 0x100 * m * q == 0x100 * (m * q);
      assert low == 0 && high == m * q;
      MultipleIsDivisible(m, q);
    }
  }

  lemma MultipleIsDivisible(m: nat, q: nat)
    requires m > 0
    ensures (m * q) % m == 0
  {
    QuotientIs(m * q, m, q, 0);
  }

  lemma LowBits(high: nat, low: u8, pad: nat)
    requires 0 < pad < 8
    ensures (high * 0x100 + low) % P.Pow2(pad) == low % P.Pow2(pad)
  {
    Pow2Small();
    match pad
    case 1 => LowBitsOf(high, low, 2, 128);
    case 2 => LowBitsOf(high, low, 4, 64);
    case 3 => LowBitsOf(high, low, 8, 32);
    case 4 => LowBitsOf(high, low, 16, 16);
    case 5 => LowBitsOf(high, low, 32, 8);
    case 6 => LowBitsOf(high, low, 64, 4);
    case 7 => LowBitsOf(high, low, 128, 2);
  }

  lemma Pow2Small()
    ensures P.Pow2(1) == 2 && P.Pow2(2) == 4 && P.Pow2(3) == 8 && P.Pow2(4) == 16
    ensures P.Pow2(5) == 32 && P.Pow2(6) == 64 && P.Pow2(7) == 128
  {
    assert P.Pow2(2) == 4;
    assert P.Pow2(4) == 16;
    assert P.Pow2(6) == 64;
  }

  lemma LowBitsOf(high: nat, low: u8, m: nat, k: nat)
    requires m * k == 0x100 && m > 0
    ensures (high * 0x100 + low) % m == low % m
  {
    var q := low / m;
    assert low == m * q + low % m;
    assert high * 0x100 == high * (m * k) == m * (high * k);
    assert m * (high * k + q) == m * (high * k) + m * q;
    QuotientIs(high * 0x100 + low, m, high * k + q, low % m);
  }
}
