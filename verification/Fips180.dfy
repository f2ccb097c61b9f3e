/** SHA-256 as FIPS 180-4 defines it, on bit strings. */
module Fips180 {
  import opened Bits
  import opened Words

  /** Section 4.2.2: K^{256} */
  const ROUND_CONSTANTS: seq<Uint32> :=
    [0x428a2f98, 0x71374491, 0xb5c0fbcf, 0xe9b5dba5, 0x3956c25b, 0x59f111f1, 0x923f82a4, 0xab1c5ed5]
    + [0xd807aa98, 0x12835b01, 0x243185be, 0x550c7dc3, 0x72be5d74, 0x80deb1fe, 0x9bdc06a7, 0xc19bf174]
    + [0xe49b69c1, 0xefbe4786, 0x0fc19dc6, 0x240ca1cc, 0x2de92c6f, 0x4a7484aa, 0x5cb0a9dc, 0x76f988da]
    + [0x983e5152, 0xa831c66d, 0xb00327c8, 0xbf597fc7, 0xc6e00bf3, 0xd5a79147, 0x06ca6351, 0x14292967]
    + [0x27b70a85, 0x2e1b2138, 0x4d2c6dfc, 0x53380d13, 0x650a7354, 0x766a0abb, 0x81c2c92e, 0x92722c85]
    + [0xa2bfe8a1, 0xa81a664b, 0xc24b8b70, 0xc76c51a3, 0xd192e819, 0xd6990624, 0xf40e3585, 0x106aa070]
    + [0x19a4c116, 0x1e376c08, 0x2748774c, 0x34b0bcb5, 0x391c0cb3, 0x4ed8aa4a, 0x5b9cca4f, 0x682e6ff3]
    + [0x748f82ee, 0x78a5636f, 0x84c87814, 0x8cc70208, 0x90befffa, 0xa4506ceb, 0xbef9a3f7, 0xc67178f2]

  /** Section 5.3.3: H^{(0)} */
  const INITIAL_HASH: seq<Uint32> := [
    0x6a09e667, 0xbb67ae85, 0x3c6ef372, 0xa54ff53a, 0x510e527f, 0x9b05688c, 0x1f83d9ab, 0x5be0cd19]

  /** The working variables a to h, which are also the eight words of a hash value. */
  datatype Registers = Registers(a: Word, b: Word, c: Word, d: Word, e: Word, f: Word, g: Word, h: Word)

  function Ch(x: Word, y: Word, z: Word): Word {
    BitwiseXor(BitwiseAnd(x, y), BitwiseAnd(BitwiseNot(x), z))
  }

  function Maj(x: Word, y: Word, z: Word): Word {
    BitwiseXor(BitwiseXor(BitwiseAnd(x, y), BitwiseAnd(x, z)), BitwiseAnd(y, z))
  }

  function BigSigma0(x: Word): Word {
    BitwiseXor(BitwiseXor(RotateRight(x, 2), RotateRight(x, 13)), RotateRight(x, 22))
  }

  function BigSigma1(x: Word): Word {
    BitwiseXor(BitwiseXor(RotateRight(x, 6), RotateRight(x, 11)), RotateRight(x, 25))
  }

  function SmallSigma0(x: Word): Word {
    BitwiseXor(BitwiseXor(RotateRight(x, 7), RotateRight(x, 18)), ShiftRight(x, 3))
  }

  function SmallSigma1(x: Word): Word {
    BitwiseXor(BitwiseXor(RotateRight(x, 17), RotateRight(x, 19)), ShiftRight(x, 10))
  }

  /** Section 5.1.1: with one bit and k zero bits after l message bits, 64 bits complete a block. */
  predicate FillsBlock(l: nat, k: nat) {
    (l + 1 + k) % 512 == 448
  }

  /** The smallest number of zero bits that does so. */
  function ZeroBits(l: nat): (k: nat)
    ensures FillsBlock(l, k) && forall j: nat :: FillsBlock(l, j) ==> k <= j
  {
    (447 - l) % 512
  }

  function Pad(m: seq<bool>): (r: seq<bool>)
    ensures |r| % 512 == 0
  {
    m + [true] + Zeros(ZeroBits(|m|)) + BitsOf(|m|, 64)
  }

  /** Section 6.2.2, step 1: the message schedule of a 512-bit block. */
  function Schedule(block: seq<bool>, t: nat): Word
    requires |block| == 512
  {
    if t < 16 then block[32 * t..32 * t + 32]
    else Add(Add(Add(SmallSigma1(Schedule(block, t - 2)), Schedule(block, t - 7)),
                 SmallSigma0(Schedule(block, t - 15))),
             Schedule(block, t - 16))
  }

  /** Section 6.2.2, step 3: one round. */
  function Round(r: Registers, k: Word, w: Word): Registers {
    var t1 := Add(Add(Add(Add(r.h, BigSigma1(r.e)), Ch(r.e, r.f, r.g)), k), w);
    var t2 := Add(BigSigma0(r.a), Maj(r.a, r.b, r.c));
    Registers(Add(t1, t2), r.a, r.b, r.c, Add(r.d, t1), r.e, r.f, r.g)
  }

  /** The registers after t rounds with round constants k. */
  function Rounds(k: seq<Uint32>, r: Registers, block: seq<bool>, t: nat): Registers
    requires |block| == 512 && t <= |k|
  {
    if t == 0 then r
    else Round(Rounds(k, r, block, t - 1), Bits32(k[t - 1]), Schedule(block, t - 1))
  }

  /** Section 6.2.2, step 4 */
  function AddRegisters(x: Registers, y: Registers): Registers {
    Registers(Add(x.a, y.a), Add(x.b, y.b), Add(x.c, y.c), Add(x.d, y.d),
              Add(x.e, y.e), Add(x.f, y.f), Add(x.g, y.g), Add(x.h, y.h))
  }

  function Compress(k: seq<Uint32>, h: Registers, block: seq<bool>): Registers
    requires |block| == 512
  {
    AddRegisters(h, Rounds(k, h, block, |k|))
  }

  /** The hash value after the first n blocks of a padded message, from initial value h. */
  function HashBlocks(k: seq<Uint32>, h: Registers, m: seq<bool>, n: nat): Registers
    requires 512 * n <= |m|
  {
    if n == 0 then h
    else Compress(k, HashBlocks(k, h, m, n - 1), m[512 * (n - 1)..512 * n])
  }

  function InitialRegisters(): Registers {
    Registers(Bits32(INITIAL_HASH[0]), Bits32(INITIAL_HASH[1]), Bits32(INITIAL_HASH[2]), Bits32(INITIAL_HASH[3]),
              Bits32(INITIAL_HASH[4]), Bits32(INITIAL_HASH[5]), Bits32(INITIAL_HASH[6]), Bits32(INITIAL_HASH[7]))
  }

  function Digest(r: Registers): (d: seq<bool>)
    ensures |d| == 256
  {
    r.a + r.b + r.c + r.d + r.e + r.f + r.g + r.h
  }

  function Sha256(m: seq<bool>): (d: seq<bool>)
    ensures |d| == 256
  {
    var padded := Pad(m);
    Digest(HashBlocks(ROUND_CONSTANTS, InitialRegisters(), padded, |padded| / 512))
  }

  /** Bit by bit, Ch chooses between y and z, and Maj is the majority. */
  lemma ChoiceAndMajority(x: Word, y: Word, z: Word, i: nat)
    requires i < 32
    ensures Ch(x, y, z)[i] == if x[i] then y[i] else z[i]
    ensures Maj(x, y, z)[i] <==> (if x[i] then 1 else 0) + (if y[i] then 1 else 0) + (if z[i] then 1 else 0) >= 2
  {
  }

  /** The bit n places to the left, around the word. */
  function Around(x: Word, i: nat, n: nat): bool
    requires i < 32 && n <= 32
  {
    x[(i - n) % 32]
  }

  lemma RotatedBit(x: Word, n: nat, i: nat)
    requires n <= 32 && i < 32
    ensures RotateRight(x, n)[i] == Around(x, i, n)
    ensures ShiftRight(x, n)[i] == (i >= n && Around(x, i, n))
  {
    assert i < n ==> (i - n) % 32 == (32 + i - n) % 32;
  }

  /** Each bit of the six functions of section 4.1.2 depends on three bits of the word, or two where one is shifted out. */
  lemma SigmaBits(x: Word, i: nat)
    requires i < 32
    ensures BigSigma0(x)[i] == ((Around(x, i, 2) != Around(x, i, 13)) != Around(x, i, 22))
    ensures BigSigma1(x)[i] == ((Around(x, i, 6) != Around(x, i, 11)) != Around(x, i, 25))
    ensures SmallSigma0(x)[i] == ((Around(x, i, 7) != Around(x, i, 18)) != (i >= 3 && Around(x, i, 3)))
    ensures SmallSigma1(x)[i] == ((Around(x, i, 17) != Around(x, i, 19)) != (i >= 10 && Around(x, i, 10)))
  {
    RotatedBit(x, 2, i);
    RotatedBit(x, 13, i);
    RotatedBit(x, 22, i);
    RotatedBit(x, 6, i);
    RotatedBit(x, 11, i);
    RotatedBit(x, 25, i);
    RotatedBit(x, 7, i);
    RotatedBit(x, 18, i);
    RotatedBit(x, 3, i);
    RotatedBit(x, 17, i);
    RotatedBit(x, 19, i);
    RotatedBit(x, 10, i);
    hide RotateRight, ShiftRight, Around;
  }
}
