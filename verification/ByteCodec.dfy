/** Little-endian integers and CRC32C, as every on-disk format of the store uses them. */
module ByteCodec {
  import opened Basics

  // ---------------------------------------------------------------- little-endian integers

  /** The number of values that `width` bytes can hold. */
  function Range(width: nat): (r: nat)
    ensures r > 0
  {
    if width == 0 then 1 else 256 * Range(width - 1)
  }

  function Le(n: nat, width: nat): (b: Bytes)
    ensures |b| == width
    decreases width, n
  {
    if width == 0 then [] else [n % 256] + Le(n / 256, width - 1)
  }

  function FromLe(b: Bytes): nat {
    if b == [] then 0 else b[0] + 256 * FromLe(b[1..])
  }

  lemma {:induction false} LeRoundTrip(n: nat, width: nat)
    requires n < Range(width)
    ensures FromLe(Le(n, width)) == n
    decreases width
  {
    if width > 0 {
      LeRoundTrip(n / 256, width - 1);
      assert Le(n, width)[1..] == Le(n / 256, width - 1);
    }
  }

  lemma {:induction false} FromLeRoundTrip(b: Bytes)
    ensures FromLe(b) < Range(|b|) && Le(FromLe(b), |b|) == b
  {
    if b != [] {
      FromLeRoundTrip(b[1..]);
      assert FromLe(b) / 256 == FromLe(b[1..]);
    }
  }

  lemma {:induction false} Ranges()
    ensures Range(1) == 256 && Range(2) == U16_MAX + 1 && Range(4) == U32_MAX + 1 && Range(8) == U64_MAX + 1
  {
    assert Range(3) == 256 * 256 * 256 && Range(4) == 256 * Range(3);
    assert Range(5) == 256 * Range(4) && Range(6) == 256 * Range(5) && Range(7) == 256 * Range(6);
  }

  function ReadLe(b: Bytes, offset: nat, width: nat): nat
    requires offset + width <= |b|
  {
    FromLe(b[offset..offset + width])
  }

  // ---------------------------------------------------------------- CRC32C

  /** A 32-bit register. */
  type Word = x: nat | x <= U32_MAX

  /** The reflected Castagnoli polynomial. */
  const POLYNOMIAL: Word := 0x82F6_3B78

  function Power(bits: nat): nat {
    if bits == 0 then 1 else 2 * Power(bits - 1)
  }

  /** Bitwise exclusive or of the low `bits` bits. */
  function Xor(a: nat, b: nat, bits: nat): (r: nat)
    ensures r < Power(bits)
    decreases bits, a, b
  {
    if bits == 0 then 0 else (a + b) % 2 + 2 * Xor(a / 2, b / 2, bits - 1)
  }

  lemma {:induction false} WordPower()
    ensures Power(32) == U32_MAX + 1
  {
    assert Power(8) == 256 by { assert Power(4) == 16; }
    assert Power(16) == 65_536 by { assert Power(12) == 16 * Power(8); assert Power(16) == 16 * Power(12); }
    assert Power(24) == 256 * Power(16) by { assert Power(20) == 16 * Power(16); assert Power(24) == 16 * Power(20); }
    assert Power(28) == 16 * Power(24);
    assert Power(32) == 16 * Power(28);
  }

  function XorWord(a: Word, b: Word): Word {
    WordPower();
    Xor(a, b, 32)
  }

  function Shift(state: Word, rounds: nat): Word
    decreases rounds, state
  {
    if rounds == 0 then state
    else
      var next := Shift(state, rounds - 1);
      if next % 2 == 1 then XorWord(next / 2, POLYNOMIAL) else next / 2
  }

  /** The register after one more byte. */
  function CrcByte(state: Word, b: byte): Word {
    Shift(XorWord(state, b), 8)
  }

  function Fold(state: Word, data: Bytes): Word {
    if data == [] then state else CrcByte(Fold(state, data[..|data| - 1]), data[|data| - 1])
  }

  function Negate(x: Word): Word {
    U32_MAX - x
  }

  function CrcAppend(crc: Word, data: Bytes): Word {
    Negate(Fold(Negate(crc), data))
  }

  function Crc(data: Bytes): Word {
    CrcAppend(0, data)
  }

  /** The stored form of a checksum. */
  function CrcBytes(crc: Word): (b: Bytes)
    ensures |b| == 4
  {
    Le(crc, 4)
  }

  lemma {:induction false} FoldConcat(state: Word, a: Bytes, b: Bytes)
    ensures Fold(state, a + b) == Fold(Fold(state, a), b)
    decreases |b|
  {
    if b == [] {
      assert a + b == a;
    } else {
      assert (a + b)[..|a + b| - 1] == a + b[..|b| - 1];
      FoldConcat(state, a, b[..|b| - 1]);
    }
  }

  /** Checksums compose: appending to a checksum is checksumming the concatenation. */
  lemma {:induction false} CrcConcat(crc: Word, a: Bytes, b: Bytes)
    ensures CrcAppend(CrcAppend(crc, a), b) == CrcAppend(crc, a + b)
  {
    FoldConcat(Negate(crc), a, b);
  }

  lemma {:induction false} CrcBytesRoundTrip(crc: Word)
    ensures FromLe(CrcBytes(crc)) == crc
  {
    Ranges();
    LeRoundTrip(crc, 4);
  }
}
