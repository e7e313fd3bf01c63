/**
 Fixed-width integers and big-endian words (src/raw.rs).

 Machine integers are bounded subsets of `int`.  A right shift is a division
 by a power of two, a low mask is a remainder, and an `|` that joins disjoint
 bit fields is a sum.
 */
module Raw {

  type u8 = x: int | 0 <= x < 0x100
  type u16 = x: int | 0 <= x < 0x1_0000
  type u32 = x: int | 0 <= x < 0x1_0000_0000
  type u64 = x: int | 0 <= x < 0x1_0000_0000_0000_0000
  type i8 = x: int | -0x80 <= x < 0x80
  type i16 = x: int | -0x8000 <= x < 0x8000
  type i64 = x: int | -0x8000_0000_0000_0000 <= x < 0x8000_0000_0000_0000

  // Two's-complement casts between a signed integer and its unsigned image.

  function U8OfI8(v: i8): u8 {
    if v < 0 then v + 0x100 else v
  }

  function I8OfU8(v: u8): i8 {
    if v < 0x80 then v else v - 0x100
  }

  function U16OfI16(v: i16): u16 {
    if v < 0 then v + 0x1_0000 else v
  }

  function I16OfU16(v: u16): i16 {
    if v < 0x8000 then v else v - 0x1_0000
  }

  function U64OfI64(v: i64): u64 {
    if v < 0 then v + 0x1_0000_0000_0000_0000 else v
  }

  function I64OfU64(v: u64): i64 {
    if v < 0x8000_0000_0000_0000 then v else v - 0x1_0000_0000_0000_0000
  }

  /** The high and low 32-bit words of a 64-bit value. */
  function Hi(v: u64): u32 {
    v / 0x1_0000_0000
  }

  function Lo(v: u64): u32 {
    v % 0x1_0000_0000
  }

  function FromHiLo(high: u32, low: u32): u64 {
    high * 0x1_0000_0000 + low
  }

  lemma HiLoInverts(v: u64)
    ensures FromHiLo(Hi(v), Lo(v)) == v
  {
  }

  lemma FromHiLoInverts(high: u32, low: u32)
    ensures Hi(FromHiLo(high, low)) == high && Lo(FromHiLo(high, low)) == low
  {
    var v: int := high * 0x1_0000_0000 + low;
    assert v / 0x1_0000_0000 == high;
  }

  /** Two 16-bit halves joined into a word. */
  lemma HalvesInvert(high: u16, low: u16)
    ensures (high * 0x1_0000 + low) / 0x1_0000 == high && (high * 0x1_0000 + low) % 0x1_0000 == low
  {
  }

  function Be32(v: u32): (b: seq<u8>)
    ensures |b| == 4
  {
    [v / 0x100_0000, v / 0x1_0000 % 0x100, v / 0x100 % 0x100, v % 0x100]
  }

  /** A byte string as one big-endian number. */
  function BigEndian(s: seq<u8>): nat
    decreases |s|, 1
  {
    if s == [] then 0 else ShiftIn(s)
  }

  /** The last byte shifted into the number before it. */
  function ShiftIn(s: seq<u8>): nat
    requires s != []
    decreases |s|, 0
  {
    BigEndian(s[..|s| - 1]) * 0x100 + s[|s| - 1]
  }

  lemma BigEndianOfFour(s: seq<u8>)
    requires |s| == 4
    ensures BigEndian(s) ==
            s[0] as int * 0x100_0000 + s[1] as int * 0x1_0000 + s[2] as int * 0x100 + s[3] as int
    ensures BigEndian(s) < 0x1_0000_0000
  {
    var s1, s2, s3 := s[..1], s[..2], s[..3];
    assert s3[..2] == s2 && s2[..1] == s1 && s1[..0] == [];
    assert ShiftIn(s1) == s[0];
    assert ShiftIn(s2) == s[0] as int * 0x100 + s[1] as int;
    assert ShiftIn(s3) == s[0] as int * 0x1_0000 + s[1] as int * 0x100 + s[2] as int;
    assert BigEndian(s) == ShiftIn(s);
  }

  lemma Be32Inverts(v: u32)
    ensures BigEndian(Be32(v)) == v
  {
    BigEndianOfFour(Be32(v));
    ShiftByBytes(v);
    var q := v / 0x100;
    var p := q / 0x100;
    assert v == q * 0x100 + v % 0x100 && q == p * 0x100 + q % 0x100 && p == p / 0x100 * 0x100 + p % 0x100;
  }

  lemma LowByte(high: nat, low: u8)
    ensures (high * 0x100 + low) / 0x100 == high && (high * 0x100 + low) % 0x100 == low
  {
  }

  /** Shifting by one byte at a time. */
  lemma ShiftByBytes(v: u32)
    ensures v / 0x1_0000 == v / 0x100 / 0x100
    ensures v / 0x100_0000 == v / 0x100 / 0x100 / 0x100
  {
    ShiftByByte(v, 0x100);
    ShiftByByte(v, 0x1_0000);
  }

  lemma ShiftByByte(v: int, k: int)
    requires 0 <= v && (k == 0x100 || k == 0x1_0000)
    ensures v / (k * 0x100) == v / k / 0x100
  {
    var q := v / k;
    var p := q / 0x100;
    assert v == q * k + v % k;
    assert q == p * 0x100 + q % 0x100;
    assert v == p * (k * 0x100) + (q % 0x100 * k + v % k);
  }

  lemma BigEndianInverts(s: seq<u8>)
    requires |s| == 4
    ensures BigEndian(s) < 0x1_0000_0000 && Be32(BigEndian(s)) == s
  {
    BigEndianOfFour(s);
    var v := BigEndian(s);
    ShiftByBytes(v);
    LowByte(s[0] as int * 0x1_0000 + s[1] as int * 0x100 + s[2] as int, s[3]);
    LowByte(s[0] as int * 0x100 + s[1] as int, s[2]);
    LowByte(s[0], s[1]);
  }

  // ---- the word view of a byte string ----

  /** `u32::from_be_bytes` at a word index. */
  function WordAt(s: seq<u8>, i: nat): u32
    requires 4 * i + 4 <= |s|
  {
    BigEndianOfFour(s[4 * i..4 * i + 4]);
    BigEndian(s[4 * i..4 * i + 4])
  }

  /** A word is its four bytes, the most significant first. */
  lemma WordIsBigEndian(s: seq<u8>, i: nat)
    requires 4 * i + 4 <= |s|
    ensures WordAt(s, i) ==
            s[4 * i] as int * 0x100_0000 + s[4 * i + 1] as int * 0x1_0000 + s[4 * i + 2] as int * 0x100
            + s[4 * i + 3] as int
  {
    BigEndianOfFour(s[4 * i..4 * i + 4]);
  }

  /** The first `n` big-endian words of `s`. */
  function Words(s: seq<u8>, n: nat): (ws: seq<u32>)
    requires 4 * n <= |s|
    ensures |ws| == n
  {
    seq(n, i requires 0 <= i < n => WordAt(s, i))
  }

  /** The bytes of a word sequence. */
  function BytesOf(ws: seq<u32>): (b: seq<u8>)
    ensures |b| == 4 * |ws|
  {
    if ws == [] then [] else BytesOf(ws[..|ws| - 1]) + Be32(ws[|ws| - 1])
  }

  lemma WordsExtend(s: seq<u8>, n: nat)
    requires 4 * n + 4 <= |s|
    ensures Words(s, n + 1) == Words(s, n) + [WordAt(s, n)]
  {
  }

  lemma WordAfter(head: seq<u8>, v: u32, tail: seq<u8>, n: nat)
    requires |head| == 4 * n
    ensures WordAt(head + (Be32(v) + tail), n) == v
  {
    Be32Inverts(v);
    assert (head + (Be32(v) + tail))[4 * n..4 * n + 4] == Be32(v);
  }

  lemma BytesOfWord(s: seq<u8>, i: nat)
    requires 4 * i + 4 <= |s|
    ensures s[..4 * i + 4] == s[..4 * i] + Be32(WordAt(s, i))
  {
    BigEndianInverts(s[4 * i..4 * i + 4]);
  }

  /** Reading back the words that were laid out, whatever follows them. */
  lemma {:induction false} WordsOfBytes(ws: seq<u32>, tail: seq<u8>)
    ensures Words(BytesOf(ws) + tail, |ws|) == ws
  {
    if ws != [] {
      var n := |ws| - 1;
      var front, last := ws[..n], ws[n];
      WordsOfBytes(front, Be32(last) + tail);
      WordAfter(BytesOf(front), last, tail, n);
      assert BytesOf(ws) + tail == BytesOf(front) + (Be32(last) + tail);
      WordsExtend(BytesOf(ws) + tail, n);
      assert ws == front + [last];
    }
  }

  /** Aligned bytes are determined by their word view. */
  lemma {:induction false} BytesOfWords(s: seq<u8>, n: nat)
    requires 4 * n <= |s|
    ensures BytesOf(Words(s, n)) == s[..4 * n]
  {
    if n > 0 {
      var k := n - 1;
      BytesOfWords(s, k);
      WordsExtend(s, k);
      BytesOfWord(s, k);
      assert Words(s, n)[..k] == Words(s, k);
    }
  }

  /** A word is read the same from any prefix that holds it. */
  lemma WordOfPrefix(s: seq<u8>, len: nat, i: nat)
    requires 4 * i + 4 <= len <= |s|
    ensures WordAt(s[..len], i) == WordAt(s, i)
  {
    assert s[..len][4 * i..4 * i + 4] == s[4 * i..4 * i + 4];
  }

  /** The word view of a prefix depends on that prefix only. */
  lemma WordsOfPrefix(s: seq<u8>, t: seq<u8>, n: nat)
    requires 4 * n <= |s| && 4 * n <= |t|
    requires s[..4 * n] == t[..4 * n]
    ensures Words(s, n) == Words(t, n)
  {
    forall i | 0 <= i < n
      ensures WordAt(s, i) == WordAt(t, i)
    {
      WordOfPrefix(s, 4 * n, i);
      WordOfPrefix(t, 4 * n, i);
    }
  }

  // ---- in-place writes into a caller-owned buffer ----

  method WriteU32(output: array<u8>, wordIndex: nat, value: u32)
    requires 4 * wordIndex + 4 <= output.Length
    modifies output
    ensures Words(output[..], wordIndex + 1) == old(Words(output[..], wordIndex)) + [value]
    ensures forall k | 0 <= k < output.Length && !(4 * wordIndex <= k < 4 * wordIndex + 4) ::
              output[k] == old(output[k])
  {
    var start := 4 * wordIndex;
    var bytes := Be32(value);
    forall k | 0 <= k < 4 {
      output[start + k] := bytes[k];
    }
    Be32Inverts(value);
    assert output[..][start..start + 4] == bytes;
    WordsOfPrefix(output[..], old(output[..]), wordIndex);
    WordsExtend(output[..], wordIndex);
  }

  method WriteU64(output: array<u8>, wordIndex: nat, value: u64)
    requires 4 * wordIndex + 8 <= output.Length
    modifies output
    ensures Words(output[..], wordIndex + 2) == old(Words(output[..], wordIndex)) + [Hi(value)] + [Lo(value)]
    ensures forall k | 0 <= k < output.Length && !(4 * wordIndex <= k < 4 * wordIndex + 8) ::
              output[k] == old(output[k])
  {
    WriteU32(output, wordIndex, Hi(value));
    WriteU32(output, wordIndex + 1, Lo(value));
  }

  method WriteI64(output: array<u8>, wordIndex: nat, value: i64)
    requires 4 * wordIndex + 8 <= output.Length
    modifies output
    ensures Words(output[..], wordIndex + 2) ==
            old(Words(output[..], wordIndex)) + [Hi(U64OfI64(value))] + [Lo(U64OfI64(value))]
    ensures forall k | 0 <= k < output.Length && !(4 * wordIndex <= k < 4 * wordIndex + 8) ::
              output[k] == old(output[k])
  {
    WriteU64(output, wordIndex, U64OfI64(value));
  }

  /** `output[start..start + src.len()].copy_from_slice(src)` */
  method CopyFromSlice(output: array<u8>, start: nat, src: seq<u8>)
    requires start + |src| <= output.Length
    modifies output
    ensures output[start..start + |src|] == src
    ensures forall k | 0 <= k < output.Length && !(start <= k < start + |src|) ::
              output[k] == old(output[k])
  {
    forall k | 0 <= k < |src| {
      output[start + k] := src[k];
    }
  }
}
