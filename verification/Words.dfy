/** 32-bit words as bit strings, with the operations of section 3.2 of FIPS 180-4. */
module Words {
  import opened Bits

  const TWO32: int := 0x1_0000_0000

  type Uint32 = x: int | 0 <= x < 0x1_0000_0000

  /** A 32-bit string */
  type Word = b: seq<bool> | |b| == 32 witness Zeros(32)

  function Bits32(x: int): Word {
    BitsOf(x, 32)
  }

  lemma Pow2Of32()
    ensures Pow2(32) == TWO32
  {
    assert Pow2(8) == 0x100;
    Pow2Add(8, 8);
    Pow2Add(16, 16);
  }

  lemma Bits32Mod(x: int, y: int)
    requires x % TWO32 == y % TWO32
    ensures Bits32(x) == Bits32(y)
  {
    Pow2Of32();
    BitsOfCongruent(x, y, 32);
  }

  lemma ToNatBits32(x: int)
    ensures ToNat(Bits32(x)) == x % TWO32
  {
    Pow2Of32();
    ToNatBitsOf(x, 32);
  }

  function BitwiseAnd(a: Word, b: Word): Word {
    seq(32, i requires 0 <= i < 32 => a[i] && b[i])
  }

  function BitwiseOr(a: Word, b: Word): Word {
    seq(32, i requires 0 <= i < 32 => a[i] || b[i])
  }

  function BitwiseXor(a: Word, b: Word): Word {
    seq(32, i requires 0 <= i < 32 => a[i] != b[i])
  }

  function BitwiseNot(a: Word): Word {
    seq(32, i requires 0 <= i < 32 => !a[i])
  }

  /** ROTR: circular rotation to the right */
  function RotateRight(x: Word, n: nat): Word
    requires n <= 32
  {
    x[32 - n..] + x[..32 - n]
  }

  /** SHR: shift to the right, filling with zeros */
  function ShiftRight(x: Word, n: nat): Word
    requires n <= 32
  {
    Zeros(n) + x[..32 - n]
  }

  /** Addition modulo 2^32 */
  function Add(x: Word, y: Word): Word {
    Bits32(ToNat(x) + ToNat(y))
  }

  /** Adding any two integers and keeping 32 bits is word addition. */
  lemma AddBits32(x: int, y: int)
    ensures Add(Bits32(x), Bits32(y)) == Bits32(x + y)
  {
    hide Bits32, ToNat;
    ToNatBits32(x);
    ToNatBits32(y);
    Bits32Mod(x % TWO32 + y % TWO32, x + y);
  }
}
