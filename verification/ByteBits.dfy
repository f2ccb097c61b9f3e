/** Bytes as 8-bit groups of a bit string. */
module ByteBits {
  import opened Bits
  import opened Words

  type Byte = x: int | 0 <= x < 256

  function BitsOfBytes(s: seq<Byte>): (b: seq<bool>)
    ensures |b| == 8 * |s|
  {
    if s == [] then [] else BitsOf(s[0], 8) + BitsOfBytes(s[1..])
  }

  lemma {:induction false} BitsOfBytesAppend(s: seq<Byte>, t: seq<Byte>)
    ensures BitsOfBytes(s + t) == BitsOfBytes(s) + BitsOfBytes(t)
  {
    if s == [] {
      assert s + t == t;
    } else {
      BitsOfBytesAppend(s[1..], t);
      assert (s + t)[1..] == s[1..] + t;
    }
  }

  lemma BitsOfBytesSplit(s: seq<Byte>, i: nat)
    requires i <= |s|
    ensures BitsOfBytes(s[..i]) == BitsOfBytes(s)[..8 * i] && BitsOfBytes(s[i..]) == BitsOfBytes(s)[8 * i..]
  {
    hide BitsOfBytes;
    assert s[..i] + s[i..] == s;
    BitsOfBytesAppend(s[..i], s[i..]);
    Halves(BitsOfBytes(s[..i]), BitsOfBytes(s[i..]), 8 * i);
  }

  lemma Halves(a: seq<bool>, b: seq<bool>, n: nat)
    requires |a| == n
    ensures (a + b)[..n] == a && (a + b)[n..] == b
  {
  }

  lemma BitsOfBytesSlice(s: seq<Byte>, i: nat, j: nat)
    requires i <= j <= |s|
    ensures BitsOfBytes(s[i..j]) == BitsOfBytes(s)[8 * i..8 * j]
  {
    hide BitsOfBytes;
    BitsOfBytesSplit(s, j);
    BitsOfBytesSplit(s[..j], i);
    assert s[..j][i..] == s[i..j];
    SliceOfPrefix(BitsOfBytes(s), 8 * i, 8 * j);
  }

  lemma SliceOfPrefix(b: seq<bool>, m: nat, n: nat)
    requires m <= n <= |b|
    ensures b[..n][m..] == b[m..n]
  {
  }

  lemma {:induction false} BitsOfZeroBytes(s: seq<Byte>)
    requires forall i :: 0 <= i < |s| ==> s[i] == 0
    ensures BitsOfBytes(s) == Zeros(8 * |s|)
  {
    if s != [] {
      BitsOfZeroBytes(s[1..]);
      BitsOfZero(8);
    }
  }

  /** The four bytes of a 32-bit number, most significant first. */
  function BigEndian(x: nat): (s: seq<Byte>)
    ensures |s| == 4
  {
    [x / 0x100_0000 % 256, x / 0x1_0000 % 256, x / 0x100 % 256, x % 256]
  }

  lemma ByteSlice(x: nat, n: nat, k: nat)
    requires n >= 8 + k
    ensures BitsOf(x, n)[n - 8 - k..n - k] == BitsOf(x / Pow2(k) % 256, 8)
  {
    hide *;
    var y := x / Pow2(k);
    BitsOfPrefix(x, n, k);
    BitsOfSuffix(y, n - k, 8);
    assert BitsOf(x, n)[n - 8 - k..n - k] == BitsOf(x, n)[..n - k][n - 8 - k..];
    LowByte(y);
  }

  lemma LowByte(y: int)
    ensures BitsOf(y % 256, 8) == BitsOf(y, 8)
  {
    assert Pow2(8) == 256;
    BitsOfCongruent(y, y % 256, 8);
  }

  lemma BigEndianBits(x: nat)
    ensures BitsOfBytes(BigEndian(x)) == Bits32(x)
  {
    var s := BigEndian(x);
    FourBytes(s[0], s[1], s[2], s[3]);
    BigEndianSlices(x);
  }

  lemma FourBytes(a: Byte, b: Byte, c: Byte, d: Byte)
    ensures BitsOfBytes([a, b, c, d]) == BitsOf(a, 8) + BitsOf(b, 8) + BitsOf(c, 8) + BitsOf(d, 8)
  {
    BitsOfBytesAppend([a], [b, c, d]);
    BitsOfBytesAppend([b], [c, d]);
    BitsOfBytesAppend([c], [d]);
  }

  lemma BigEndianSlices(x: nat)
    ensures Bits32(x) == BitsOf(BigEndian(x)[0], 8) + BitsOf(BigEndian(x)[1], 8)
                       + BitsOf(BigEndian(x)[2], 8) + BitsOf(BigEndian(x)[3], 8)
  {
    hide BitsOf, Pow2;
    ByteSlice(x, 32, 24);
    ByteSlice(x, 32, 16);
    ByteSlice(x, 32, 8);
    ByteSlice(x, 32, 0);
    BytePowers();
    FourSlices(Bits32(x));
  }

  lemma BytePowers()
    ensures Pow2(24) == 0x100_0000 && Pow2(16) == 0x1_0000 && Pow2(8) == 0x100 && Pow2(0) == 1
  {
    assert Pow2(8) == 0x100;
    Pow2Add(8, 8);
    Pow2Add(16, 8);
  }

  lemma FourSlices(b: Word)
    ensures b == b[0..8] + b[8..16] + b[16..24] + b[24..32]
  {
  }

  /** The bytes of a bit string whose length is a multiple of 8. */
  function BytesOfBits(b: seq<bool>): (s: seq<Byte>)
    requires |b| % 8 == 0
    ensures 8 * |s| == |b|
  {
    if b == [] then [] else [ByteOfBits(b[..8])] + BytesOfBits(b[8..])
  }

  function ByteOfBits(b: seq<bool>): Byte
    requires |b| == 8
  {
    assert Pow2(8) == 256;
    ToNat(b)
  }

  lemma {:induction false} BytesOfBitsOfBytes(s: seq<Byte>)
    ensures BytesOfBits(BitsOfBytes(s)) == s
  {
    hide BitsOf, ToNat;
    if s != [] {
      var b := BitsOfBytes(s);
      BytesOfBitsOfBytes(s[1..]);
      assert b[..8] == BitsOf(s[0], 8) && b[8..] == BitsOfBytes(s[1..]);
      ToNatBitsOf(s[0], 8);
      assert Pow2(8) == 256;
    }
  }

  lemma {:induction false} BitsOfBytesOfBits(b: seq<bool>)
    requires |b| % 8 == 0
    ensures BitsOfBytes(BytesOfBits(b)) == b
  {
    hide BitsOf, ToNat;
    if b != [] {
      BitsOfBytesOfBits(b[8..]);
      BitsOfToNat(b[..8]);
      assert b == b[..8] + b[8..];
    }
  }
}
