/**
 * The JavaScript numbers the SDK computes with.  A Number is an integer that a
 * double holds exactly, so Dafny checks that no sum ever rounds; the bitwise
 * operators first reduce their operands to 32 bits and, except for `>>>`,
 * return a signed 32-bit result.
 */
module JsNumber {
  import opened Bits
  import opened Words

  const TWO31: int := 0x8000_0000

  type Number = x: int | -0x1F_FFFF_FFFF_FFFF <= x <= 0x1F_FFFF_FFFF_FFFF
  type Int32 = x: int | -0x8000_0000 <= x < 0x8000_0000

  function ToUint32(x: Number): Uint32 {
    x % TWO32
  }

  function ToInt32(x: Number): (r: Int32)
    ensures Bits32(r) == Bits32(x)
  {
    Wrap(x)
  }

  /** The signed number with the same low 32 bits. */
  function Wrap(x: int): (r: Int32)
    ensures Bits32(r) == Bits32(x)
  {
    hide Bits32;
    var u := x % TWO32;
    SameLowBits(x);
    if u < TWO31 then u else u - TWO32
  }

  lemma SameLowBits(x: int)
    ensures Bits32(x % TWO32) == Bits32(x) && Bits32(x % TWO32 - TWO32) == Bits32(x)
  {
    hide Bits32;
    assert (x % TWO32 - TWO32) % TWO32 == x % TWO32;
    Bits32Mod(x % TWO32, x);
    Bits32Mod(x % TWO32 - TWO32, x);
  }

  function FromBits(b: Word): (r: Int32)
    ensures Bits32(r) == b
  {
    BitsOfToNat(b);
    Wrap(ToNat(b))
  }

  function And(x: Number, y: Number): (r: Int32)
    ensures Bits32(r) == BitwiseAnd(Bits32(x), Bits32(y))
  {
    FromBits(BitwiseAnd(Bits32(x), Bits32(y)))
  }

  function Or(x: Number, y: Number): (r: Int32)
    ensures Bits32(r) == BitwiseOr(Bits32(x), Bits32(y))
  {
    FromBits(BitwiseOr(Bits32(x), Bits32(y)))
  }

  function Xor(x: Number, y: Number): (r: Int32)
    ensures Bits32(r) == BitwiseXor(Bits32(x), Bits32(y))
  {
    FromBits(BitwiseXor(Bits32(x), Bits32(y)))
  }

  function Not(x: Number): (r: Int32)
    ensures Bits32(r) == BitwiseNot(Bits32(x))
  {
    FromBits(BitwiseNot(Bits32(x)))
  }

  /** `x << n` */
  function Shl(x: Number, n: nat): (r: Int32)
    requires n < 32
    ensures Bits32(r) == Bits32(x)[n..] + Zeros(n)
  {
    ShlBits(x, n);
    Wrap(ToInt32(x) * Pow2(n))
  }

  lemma ShlBits(x: Number, n: nat)
    requires n < 32
    ensures Bits32(ToInt32(x) * Pow2(n)) == Bits32(x)[n..] + Zeros(n)
  {
    hide BitsOf, Pow2, Zeros, ToInt32;
    var y := ToInt32(x);
    assert Bits32(y) == Bits32(x);
    BitsOfShifted(y, 32, n);
    BitsOfSuffix(y, 32, 32 - n);
  }

  /** `x >> n`, which keeps the sign */
  function Sar(x: Number, n: nat): (r: Int32)
    requires n < 32
    ensures r == ToInt32(x) / Pow2(n)
  {
    SarBound(ToInt32(x), Pow2(n));
    ToInt32(x) / Pow2(n)
  }

  lemma SarBound(x: Int32, p: nat)
    requires p >= 1
    ensures -TWO31 <= x / p < TWO31
  {
    var d := x / p;
    assert x == d * p + x % p;
    MulMonotone(TWO31, d, p);
    MulMonotone(d, -TWO31 - 1, p);
    MulMonotone(1, p, TWO31);
  }

  /** `x >>> n` */
  function UShr(x: Number, n: nat): (r: Uint32)
    requires n < 32
    ensures Bits32(r) == Zeros(n) + Bits32(x)[..32 - n]
    ensures n == 0 ==> r == x % TWO32
  {
    UShrBits(x, n);
    ToUint32(x) / Pow2(n)
  }

  lemma UShrBits(x: Number, n: nat)
    requires n < 32
    ensures 0 <= ToUint32(x) / Pow2(n) < TWO32
    ensures Bits32(ToUint32(x) / Pow2(n)) == Zeros(n) + Bits32(x)[..32 - n]
  {
    hide Bits32, Pow2;
    var u := ToUint32(x);
    PowersOf32(n);
    DivBound(u, Pow2(32 - n), Pow2(n));
    Bits32Mod(u, x);
    DroppedBits(u, n);
  }

  lemma PowersOf32(n: nat)
    requires n <= 32
    ensures Pow2(32 - n) * Pow2(n) == TWO32
  {
    Pow2Of32();
    Pow2Add(32 - n, n);
  }

  lemma DroppedBits(u: nat, n: nat)
    requires n < 32 && u / Pow2(n) < Pow2(32 - n)
    ensures Bits32(u / Pow2(n)) == Zeros(n) + Bits32(u)[..32 - n]
  {
    hide BitsOf, Pow2;
    BitsOfSmall(u / Pow2(n), 32, 32 - n);
    BitsOfPrefix(u, 32, n);
  }

  lemma DivBound(x: nat, p: nat, q: nat)
    requires q >= 1 && x < p * q
    ensures x / q < p && x / q <= x
  {
    var d := x / q;
    assert x == d * q + x % q;
    MulMonotone(p, d, q);
    MulMonotone(1, q, d);
  }
}
