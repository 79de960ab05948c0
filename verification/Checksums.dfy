/** CRC-32 and Adler-32 as the media oracle computes them (bench/generated_media_external_format.py). */
module Checksums {
  import opened Bytes

  const CRC_POLYNOMIAL: bv32 := 0xEDB88320
  const ALL_ONES: bv32 := 0xFFFFFFFF

  // ---------------------------------------------------------------------------------------
  // CRC-32
  // ---------------------------------------------------------------------------------------

  /** One shift of the register. */
  function CrcBit(x: bv32): bv32 {
    if x & 1 == 1 then (x >> 1) ^ CRC_POLYNOMIAL else x >> 1
  }

  function CrcBits(x: bv32, n: nat): bv32
    decreases n
  {
    if n == 0 then x else CrcBits(CrcBit(x), n - 1)
  }

  function Bit(b: nat): bv32 {
    if b % 2 == 1 then 1 else 0
  }

  /** `b` halved `k` times. */
  function Half(b: nat, k: nat): nat {
    if k == 0 then b else Half(b, k - 1) / 2
  }

  /** The byte as a register value, bit by bit. */
  function ByteWord(b: Byte): bv32 {
    Bit(b) | (Bit(Half(b, 1)) << 1) | (Bit(Half(b, 2)) << 2) | (Bit(Half(b, 3)) << 3)
    | (Bit(Half(b, 4)) << 4) | (Bit(Half(b, 5)) << 5) | (Bit(Half(b, 6)) << 6)
    | (Bit(Half(b, 7)) << 7)
  }

  function Xor(x: bv32, y: bv32): bv32 {
    x ^ y
  }

  function CrcByte(x: bv32, b: Byte): bv32 {
    CrcBits(Xor(x, ByteWord(b)), 8)
  }

  /** The register after a whole message. */
  function CrcFrom(x: bv32, data: Bytes): bv32 {
    if data == [] then x
    else CrcByte(CrcFrom(x, data[..|data| - 1]), data[|data| - 1])
  }

  function Crc32(data: Bytes): bv32 {
    Xor(CrcFrom(ALL_ONES, data), ALL_ONES)
  }

  /** The bitwise loop computes it. */
  method ComputeCrc32(data: Bytes) returns (r: bv32)
    ensures r == Crc32(data)
  {
    hide CrcBit, ByteWord, Xor;
    r := ALL_ONES;
    var i := 0;
    while i < |data|
      invariant 0 <= i <= |data|
      invariant r == CrcFrom(ALL_ONES, data[..i])
    {
      assert data[..i + 1][..i] == data[..i];
      r := Xor(r, ByteWord(data[i]));
      ghost var start := r;
      var k := 0;
      while k < 8
        invariant 0 <= k <= 8
        invariant CrcBits(r, 8 - k) == CrcBits(start, 8)
      {
        r := ShiftOnce(r);
        k := k + 1;
      }
      i := i + 1;
    }
    assert data[..i] == data;
    r := Xor(r, ALL_ONES);
  }

  method ShiftOnce(x: bv32) returns (r: bv32)
    ensures r == CrcBit(x)
  {
    if x & 1 == 1 {
      r := (x >> 1) ^ CRC_POLYNOMIAL;
    } else {
      r := x >> 1;
    }
  }

  /** A shift loses nothing: the top bit of the result tells which way it went. */
  lemma CrcBitInjective(x: bv32, y: bv32)
    requires CrcBit(x) == CrcBit(y)
    ensures x == y
  {
  }

  lemma {:induction false} CrcBitsInjective(x: bv32, y: bv32, n: nat)
    requires CrcBits(x, n) == CrcBits(y, n)
    ensures x == y
    decreases n
  {
    hide CrcBit;
    if n > 0 {
      CrcBitsInjective(CrcBit(x), CrcBit(y), n - 1);
      CrcBitInjective(x, y);
    }
  }

  lemma XorInjective(x: bv32, y: bv32, z: bv32)
    requires Xor(x, z) == Xor(y, z)
    ensures x == y
  {
  }

  lemma WordBits(x0: bv32, x1: bv32, x2: bv32, x3: bv32, y0: bv32, y1: bv32, y2: bv32, y3: bv32,
    u0: bv32, u1: bv32, u2: bv32, u3: bv32, v0: bv32, v1: bv32, v2: bv32, v3: bv32)
    requires x0 <= 1 && x1 <= 1 && x2 <= 1 && x3 <= 1 && y0 <= 1 && y1 <= 1 && y2 <= 1 && y3 <= 1
    requires u0 <= 1 && u1 <= 1 && u2 <= 1 && u3 <= 1 && v0 <= 1 && v1 <= 1 && v2 <= 1 && v3 <= 1
    requires x0 | (x1 << 1) | (x2 << 2) | (x3 << 3) | (y0 << 4) | (y1 << 5) | (y2 << 6) | (y3 << 7)
          == u0 | (u1 << 1) | (u2 << 2) | (u3 << 3) | (v0 << 4) | (v1 << 5) | (v2 << 6) | (v3 << 7)
    ensures x0 == u0 && x1 == u1 && x2 == u2 && x3 == u3
    ensures y0 == v0 && y1 == v1 && y2 == v2 && y3 == v3
  {
  }

  lemma BitTells(a: nat, b: nat)
    requires Bit(a) == Bit(b)
    ensures a % 2 == b % 2
  {
  }

  lemma WordTellsBits(a: Byte, b: Byte)
    requires ByteWord(a) == ByteWord(b)
    ensures Bit(a) == Bit(b) && Bit(Half(a, 1)) == Bit(Half(b, 1))
    ensures Bit(Half(a, 2)) == Bit(Half(b, 2)) && Bit(Half(a, 3)) == Bit(Half(b, 3))
    ensures Bit(Half(a, 4)) == Bit(Half(b, 4)) && Bit(Half(a, 5)) == Bit(Half(b, 5))
    ensures Bit(Half(a, 6)) == Bit(Half(b, 6)) && Bit(Half(a, 7)) == Bit(Half(b, 7))
  {
    hide Half;
    WordBits(Bit(a), Bit(Half(a, 1)), Bit(Half(a, 2)), Bit(Half(a, 3)),
             Bit(Half(a, 4)), Bit(Half(a, 5)), Bit(Half(a, 6)), Bit(Half(a, 7)),
             Bit(b), Bit(Half(b, 1)), Bit(Half(b, 2)), Bit(Half(b, 3)),
             Bit(Half(b, 4)), Bit(Half(b, 5)), Bit(Half(b, 6)), Bit(Half(b, 7)));
  }

  lemma ByteWordInjective(a: Byte, b: Byte)
    requires ByteWord(a) == ByteWord(b)
    ensures a == b
  {
    hide Bit, Half, ByteWord;
    WordTellsBits(a, b);
    HalfZero(a);
    HalfZero(b);
    HalfBack(a, b, 7);
    HalfBack(a, b, 6);
    HalfBack(a, b, 5);
    HalfBack(a, b, 4);
    HalfBack(a, b, 3);
    HalfBack(a, b, 2);
    HalfBack(a, b, 1);
    HalfBack(a, b, 0);
  }

  /** A byte halved eight times is gone, and halved no times is itself. */
  lemma HalfZero(b: Byte)
    ensures Half(b, 8) == 0 && Half(b, 0) == b
  {
    HalfBound(b, 1, 128);
    HalfBound(b, 2, 64);
    HalfBound(b, 3, 32);
    HalfBound(b, 4, 16);
    HalfBound(b, 5, 8);
    HalfBound(b, 6, 4);
    HalfBound(b, 7, 2);
    HalfBound(b, 8, 1);
  }

  lemma HalfBound(b: Byte, k: nat, bound: nat)
    requires k > 0 && Half(b, k - 1) < 2 * bound
    ensures Half(b, k) < bound
  {
  }

  /** A number is known from its half and its lowest bit. */
  lemma HalfBack(a: nat, b: nat, k: nat)
    requires Half(a, k + 1) == Half(b, k + 1) && Bit(Half(a, k)) == Bit(Half(b, k))
    ensures Half(a, k) == Half(b, k)
  {
    BitTells(Half(a, k), Half(b, k));
  }

  lemma XorCommutes(x: bv32, y: bv32)
    ensures Xor(x, y) == Xor(y, x)
  {
  }

  /** Equal bytes keep different registers different. */
  lemma {:induction false} CrcFromInjective(x: bv32, y: bv32, data: Bytes)
    requires CrcFrom(x, data) == CrcFrom(y, data)
    ensures x == y
  {
    hide CrcBits, ByteWord, Xor;
    if data != [] {
      var n := |data| - 1;
      var a, b := CrcFrom(x, data[..n]), CrcFrom(y, data[..n]);
      CrcBitsInjective(Xor(a, ByteWord(data[n])), Xor(b, ByteWord(data[n])), 8);
      XorInjective(a, b, ByteWord(data[n]));
      CrcFromInjective(x, y, data[..n]);
    }
  }

  lemma {:induction false} CrcFromSplit(x: bv32, a: Bytes, b: Bytes)
    ensures CrcFrom(x, a + b) == CrcFrom(CrcFrom(x, a), b)
  {
    hide CrcByte;
    if b == [] {
      assert a + b == a;
    } else {
      var n := |b| - 1;
      assert (a + b)[..|a + b| - 1] == a + b[..n];
      CrcFromSplit(x, a, b[..n]);
    }
  }

  /**
   * A CRC-32 detects every single corrupted byte: equally long messages that differ in exactly
   * one byte have different checksums.
   */
  lemma OneByteChangesCrc(data: Bytes, i: nat, b: Byte)
    requires i < |data| && data[i] != b
    ensures Crc32(data) != Crc32(data[i := b])
  {
    hide CrcByte, CrcFrom, Xor;
    var other := data[i := b];
    var head, tail := data[..i], data[i + 1..];
    assert data == (head + [data[i]]) + tail && other == (head + [b]) + tail;
    var s := ALL_ONES;
    CrcFromSplit(s, head + [data[i]], tail);
    CrcFromSplit(s, head + [b], tail);
    CrcFromSplit(s, head, [data[i]]);
    CrcFromSplit(s, head, [b]);
    var x := CrcFrom(s, head);
    if Crc32(data) == Crc32(other) {
      XorInjective(CrcFrom(s, data), CrcFrom(s, other), ALL_ONES);
      CrcFromInjective(CrcFrom(x, [data[i]]), CrcFrom(x, [b]), tail);
      OneByteInjective(x, data[i], b);
    }
  }

  lemma OneByteInjective(x: bv32, a: Byte, b: Byte)
    requires CrcFrom(x, [a]) == CrcFrom(x, [b])
    ensures a == b
  {
    hide CrcBits, ByteWord, Xor;
    assert [a][..0] == [] && [b][..0] == [];
    CrcBitsInjective(Xor(x, ByteWord(a)), Xor(x, ByteWord(b)), 8);
    XorCommutes(x, ByteWord(a));
    XorCommutes(x, ByteWord(b));
    XorInjective(ByteWord(a), ByteWord(b), x);
    ByteWordInjective(a, b);
  }

  // ---------------------------------------------------------------------------------------
  // Adler-32
  // ---------------------------------------------------------------------------------------

  const ADLER_MODULUS := 65521

  /** The plain sum of the bytes. */
  function ByteSum(data: Bytes): nat {
    if data == [] then 0 else data[0] + ByteSum(data[1..])
  }

  /** Every byte weighted by how many bytes there are from it to the end. */
  function WeightedSum(data: Bytes): nat {
    if data == [] then 0 else |data| * data[0] + WeightedSum(data[1..])
  }

  /** The closed form of both running sums. */
  function AdlerFirst(data: Bytes): nat {
    (1 + ByteSum(data)) % ADLER_MODULUS
  }

  function AdlerSecond(data: Bytes): nat {
    (|data| + WeightedSum(data)) % ADLER_MODULUS
  }

  function Adler32(data: Bytes): nat {
    AdlerSecond(data) * 65536 + AdlerFirst(data)
  }

  lemma {:induction false} SumsAppend(data: Bytes, b: Byte)
    ensures ByteSum(data + [b]) == ByteSum(data) + b
    ensures WeightedSum(data + [b]) == WeightedSum(data) + ByteSum(data) + b
  {
    if data != [] {
      assert (data + [b])[1..] == data[1..] + [b];
      SumsAppend(data[1..], b);
      assert (|data| + 1) * data[0] == |data| * data[0] + data[0];
    }
  }

  /** The two-sum loop computes the closed form, for every length. */
  method ComputeAdler32(data: Bytes) returns (r: nat)
    ensures r == Adler32(data)
  {
    var first, second := 1, 0;
    var i := 0;
    while i < |data|
      invariant 0 <= i <= |data|
      invariant first == AdlerFirst(data[..i]) && second == AdlerSecond(data[..i])
    {
      AdlerStep(data[..i], data[i]);
      assert data[..i + 1] == data[..i] + [data[i]];
      first := (first + data[i]) % ADLER_MODULUS;
      second := (second + first) % ADLER_MODULUS;
      i := i + 1;
    }
    assert data[..i] == data;
    r := second * 65536 + first;
  }

  lemma AdlerStep(data: Bytes, b: Byte)
    ensures AdlerFirst(data + [b]) == (AdlerFirst(data) + b) % ADLER_MODULUS
    ensures AdlerSecond(data + [b])
            == (AdlerSecond(data) + AdlerFirst(data + [b])) % ADLER_MODULUS
  {
    SumsAppend(data, b);
    ModAdd(1 + ByteSum(data), b);
    ModAdd2(|data| + WeightedSum(data), 1 + ByteSum(data) + b);
    assert |data + [b]| + WeightedSum(data + [b])
           == (|data| + WeightedSum(data)) + (1 + ByteSum(data) + b);
  }

  lemma ModAdd(x: nat, y: nat)
    ensures (x + y) % ADLER_MODULUS == (x % ADLER_MODULUS + y) % ADLER_MODULUS
  {
    var q := x / ADLER_MODULUS;
    assert x == q * ADLER_MODULUS + x % ADLER_MODULUS;
    ModShift(x % ADLER_MODULUS + y, q);
  }

  lemma ModShift(x: nat, q: nat)
    ensures (x + q * ADLER_MODULUS) % ADLER_MODULUS == x % ADLER_MODULUS
  {
  }

  lemma ModAdd2(x: nat, y: nat)
    ensures (x + y) % ADLER_MODULUS
            == (x % ADLER_MODULUS + y % ADLER_MODULUS) % ADLER_MODULUS
  {
    ModAdd(x, y);
    ModAdd(y, x % ADLER_MODULUS);
  }

  lemma AdlerFits(data: Bytes)
    ensures Adler32(data) < 0x1_0000_0000
  {
  }
}
