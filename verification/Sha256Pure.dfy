/** The SDK's SHA-256 (sdks/ave-sdk/src/sha256-pure.ts), which works on typed arrays in place. */
module Sha256Pure {
  import opened Bits
  import opened Words
  import opened JsNumber
  import opened ByteBits
  import opened Fips180

  /** A JavaScript call either throws or returns. */
  datatype Completion<T> = Throws | Returns(value: T)

  function Rotr(value: Uint32, shift: nat): (r: Int32)
    requires 0 < shift < 32
    ensures Bits32(r) == RotateRight(Bits32(value), shift)
  {
    hide Bits32, Or, UShr, Shl;
    RotateAsOr(Bits32(value), shift);
    Or(UShr(value, shift), Shl(value, 32 - shift))
  }

  lemma RotateAsOr(b: Word, n: nat)
    requires 0 < n < 32
    ensures BitwiseOr(Zeros(n) + b[..32 - n], b[32 - n..] + Zeros(32 - n)) == RotateRight(b, n)
  {
  }

  /** The eight entries of the state array as FIPS registers. */
  function Loaded(state: seq<Uint32>): Registers
    requires |state| == 8
  {
    Registers(Bits32(state[0]), Bits32(state[1]), Bits32(state[2]), Bits32(state[3]),
              Bits32(state[4]), Bits32(state[5]), Bits32(state[6]), Bits32(state[7]))
  }

  /** What assigning x to an element of a Uint32Array stores, also written `x >>> 0`. */
  function Store(x: Number): (r: Uint32)
    ensures Bits32(r) == Bits32(x)
  {
    Bits32Mod(x, ToUint32(x));
    ToUint32(x)
  }

  /** Sums taken over plain numbers and stored once are sums of words modulo 2^32. */
  lemma Sum2(x: Number, y: Number)
    ensures Bits32(x + y) == Add(Bits32(x), Bits32(y))
  {
    AddBits32(x, y);
  }

  lemma Sum5(v: int, w: int, x: int, y: int, z: int)
    ensures Bits32(v + w + x + y + z) == Add(Add(Add(Add(Bits32(v), Bits32(w)), Bits32(x)), Bits32(y)), Bits32(z))
  {
    AddBits32(v, w);
    AddBits32(v + w, x);
    AddBits32(v + w + x, y);
    AddBits32(v + w + x + y, z);
  }

  lemma Sum4(w: int, x: int, y: int, z: int)
    ensures Bits32(w + x + y + z) == Add(Add(Add(Bits32(z), Bits32(y)), Bits32(x)), Bits32(w))
  {
    AddBits32(z, y);
    AddBits32(z + y, x);
    AddBits32(z + y + x, w);
  }

  /** Four bytes assembled with shifts and ors are the word they spell. */
  function Word4(a: Byte, b: Byte, c: Byte, d: Byte): (r: Int32)
    ensures Bits32(r) == BitsOfBytes([a, b, c, d])
  {
    Word4Bits(a, b, c, d);
    Or(Or(Or(Shl(a, 24), Shl(b, 16)), Shl(c, 8)), d)
  }

  lemma Word4Bits(a: Byte, b: Byte, c: Byte, d: Byte)
    ensures Bits32(Or(Or(Or(Shl(a, 24), Shl(b, 16)), Shl(c, 8)), d)) == BitsOfBytes([a, b, c, d])
  {
    hide BitsOf, BitsOfBytes, Or, Shl;
    FourBytes(a, b, c, d);
    ByteInWord(a);
    ByteInWord(b);
    ByteInWord(c);
    ByteInWord(d);
  }

  lemma ByteInWord(x: Byte)
    ensures Bits32(x) == Zeros(24) + BitsOf(x, 8)
  {
    assert Pow2(8) == 256;
    BitsOfSmall(x, 32, 8);
  }

  function ScheduleWord(w16: Uint32, w15: Uint32, w7: Uint32, w2: Uint32): (r: Uint32)
    ensures Bits32(r) == Add(Add(Add(SmallSigma1(Bits32(w2)), Bits32(w7)), SmallSigma0(Bits32(w15))), Bits32(w16))
  {
    hide Bits32, Add, BitwiseXor, Xor, Rotr, UShr, Store;
    var s0 := Xor(Xor(Rotr(w15, 7), Rotr(w15, 18)), UShr(w15, 3));
    var s1 := Xor(Xor(Rotr(w2, 17), Rotr(w2, 19)), UShr(w2, 10));
    Sum4(w16, s0, w7, s1);
    Store(w16 + s0 + w7 + s1)
  }

  /** `temp1` of a round */
  function Temp1(e: Uint32, f: Uint32, g: Uint32, h: Uint32, k: Uint32, w: Uint32): (r: Uint32)
    ensures Bits32(r) == Add(Add(Add(Add(Bits32(h), BigSigma1(Bits32(e))), Ch(Bits32(e), Bits32(f), Bits32(g))),
                                 Bits32(k)), Bits32(w))
  {
    hide Bits32, Add, BitwiseXor, BitwiseAnd, BitwiseNot, Xor, And, Not, Rotr, Store;
    var s1 := Xor(Xor(Rotr(e, 6), Rotr(e, 11)), Rotr(e, 25));
    var ch := Xor(And(e, f), And(Not(e), g));
    Sum5(h, s1, ch, k, w);
    Store(h + s1 + ch + k + w)
  }

  /** `temp2` of a round */
  function Temp2(a: Uint32, b: Uint32, c: Uint32): (r: Uint32)
    ensures Bits32(r) == Add(BigSigma0(Bits32(a)), Maj(Bits32(a), Bits32(b), Bits32(c)))
  {
    hide Bits32, Add, BitwiseXor, BitwiseAnd, Xor, And, Rotr, Store;
    var s0 := Xor(Xor(Rotr(a, 2), Rotr(a, 13)), Rotr(a, 22));
    var maj := Xor(Xor(And(a, b), And(a, c)), And(b, c));
    Sum2(s0, maj);
    Store(s0 + maj)
  }

  function StoredSum(x: Uint32, y: Uint32): (r: Uint32)
    ensures Bits32(r) == Add(Bits32(x), Bits32(y))
  {
    hide Bits32, Add, Store;
    Sum2(x, y);
    Store(x + y)
  }

  /** The first part of sha256Block: the message schedule. */
  method PrepareWords(block: seq<Byte>) returns (words: array<Uint32>)
    requires |block| == 64
    ensures fresh(words) && words.Length == 64
    ensures forall t :: 0 <= t < 64 ==> Bits32(words[t]) == Schedule(BitsOfBytes(block), t)
  {
    hide Bits32, Add, Store, ScheduleWord, Schedule, Word4, BitsOfBytes;
    ghost var m := BitsOfBytes(block);
    words := new Uint32[64](i => 0);
    for index := 0 to 16
      invariant forall t :: 0 <= t < index ==> Bits32(words[t]) == Schedule(m, t)
    {
      var offset := index * 4;
      words[index] := Store(Word4(block[offset], block[offset + 1], block[offset + 2], block[offset + 3]));
      FirstWords(block, index);
    }
    for index := 16 to 64
      invariant forall t :: 0 <= t < index ==> Bits32(words[t]) == Schedule(m, t)
    {
      words[index] := ScheduleWord(words[index - 16], words[index - 15], words[index - 7], words[index - 2]);
      LaterWord(m, index);
    }
  }

  method Sha256Block(k: seq<Uint32>, state: array<Uint32>, block: seq<Byte>)
    requires |k| == 64 && state.Length == 8 && |block| == 64
    modifies state
    ensures Loaded(state[..]) == Compress(k, Loaded(old(state[..])), BitsOfBytes(block))
  {
    hide Bits32, Add, Store, StoredSum, Temp1, Temp2, Schedule, Round, Rounds, BitsOfBytes;
    ghost var m := BitsOfBytes(block);
    var words := PrepareWords(block);

    ghost var start := Loaded(state[..]);
    var a, b, c, d := state[0], state[1], state[2], state[3];
    var e, f, g, h := state[4], state[5], state[6], state[7];
    FirstRound(k, start, m);
    for index := 0 to 64
      invariant Loaded([a, b, c, d, e, f, g, h]) == Rounds(k, start, m, index)
      invariant forall t :: 0 <= t < 64 ==> Bits32(words[t]) == Schedule(m, t)
      invariant state[..] == old(state[..])
    {
      NextRound(k, start, m, index);
      RoundOnNumbers(a, b, c, d, e, f, g, h, k[index], words[index]);
      var temp1 := Temp1(e, f, g, h, k[index], words[index]);
      var temp2 := Temp2(a, b, c);
      h := g;
      g := f;
      f := e;
      e := StoredSum(d, temp1);
      d := c;
      c := b;
      b := a;
      a := StoredSum(temp1, temp2);
    }

    state[0] := StoredSum(state[0], a);
    state[1] := StoredSum(state[1], b);
    state[2] := StoredSum(state[2], c);
    state[3] := StoredSum(state[3], d);
    state[4] := StoredSum(state[4], e);
    state[5] := StoredSum(state[5], f);
    state[6] := StoredSum(state[6], g);
    state[7] := StoredSum(state[7], h);
  }

  lemma RoundOnNumbers(a: Uint32, b: Uint32, c: Uint32, d: Uint32, e: Uint32, f: Uint32, g: Uint32, h: Uint32,
                       k: Uint32, w: Uint32)
    ensures Loaded([StoredSum(Temp1(e, f, g, h, k, w), Temp2(a, b, c)), a, b, c,
                    StoredSum(d, Temp1(e, f, g, h, k, w)), e, f, g])
         == Round(Loaded([a, b, c, d, e, f, g, h]), Bits32(k), Bits32(w))
  {
    hide Bits32, Add, StoredSum, Temp1, Temp2;
  }

  lemma FirstRound(k: seq<Uint32>, start: Registers, m: seq<bool>)
    requires |m| == 512
    ensures Rounds(k, start, m, 0) == start
  {
  }

  lemma NextRound(k: seq<Uint32>, start: Registers, m: seq<bool>, t: nat)
    requires |m| == 512 && t < |k|
    ensures Rounds(k, start, m, t + 1)
         == Round(Rounds(k, start, m, t), Bits32(k[t]), Schedule(m, t))
  {
    hide Round, Schedule, Bits32;
  }

  lemma FirstWords(block: seq<Byte>, t: nat)
    requires |block| == 64 && t < 16
    ensures BitsOfBytes([block[4 * t], block[4 * t + 1], block[4 * t + 2], block[4 * t + 3]])
         == Schedule(BitsOfBytes(block), t)
  {
    hide BitsOfBytes;
    BitsOfBytesSlice(block, 4 * t, 4 * t + 4);
    assert [block[4 * t], block[4 * t + 1], block[4 * t + 2], block[4 * t + 3]] == block[4 * t..4 * t + 4];
  }

  lemma LaterWord(m: seq<bool>, t: nat)
    requires |m| == 512 && t >= 16
    ensures Schedule(m, t) == Add(Add(Add(SmallSigma1(Schedule(m, t - 2)), Schedule(m, t - 7)),
                                      SmallSigma0(Schedule(m, t - 15))), Schedule(m, t - 16))
  {
    hide Add;
  }

  /** DataView.setUint32 in big-endian order */
  method SetUint32(view: array<Byte>, offset: nat, value: Uint32)
    requires offset + 4 <= view.Length
    modifies view
    ensures view[..] == old(view[..offset]) + BigEndian(value) + old(view[offset + 4..])
  {
    var bytes := BigEndian(value);
    view[offset] := bytes[0];
    view[offset + 1] := bytes[1];
    view[offset + 2] := bytes[2];
    view[offset + 3] := bytes[3];
  }

  const MAX_LENGTH: nat := 0x1F_FFFF_FFFF_FFFF - 72

  /** `((n + 9 + 63) >> 6) << 6` on 32-bit integers */
  function PaddedLength(n: nat): Int32
    requires n <= MAX_LENGTH
  {
    Shl(Sar(n + 9 + 63, 6), 6)
  }

  /** The padded length has room for the message, the marker and the length exactly while n + 72 is an int32;
      it is then the least multiple of 64 that does. */
  lemma PaddedLengthFits(n: nat)
    requires n <= MAX_LENGTH
    ensures PaddedLength(n) >= n + 9 <==> n < TWO31 - 72
    ensures 0 <= PaddedLength(n) && n <= PaddedLength(n) ==> n < TWO31 - 72
    ensures n < TWO31 - 72 ==>
              PaddedLength(n) % 64 == 0 && n + 9 <= PaddedLength(n) < n + 9 + 64
  {
    hide PaddedLength, Bits32;
    PaddedLengthIs(n);
    Floor64(ToInt32(n + 72));
  }

  lemma PaddedLengthIs(n: nat)
    requires n <= MAX_LENGTH
    ensures PaddedLength(n) == ToInt32(n + 72) / 64 * 64
  {
    hide Bits32, Wrap;
    var x := ToInt32(n + 72);
    assert Pow2(6) == 64;
    WrapOfInt32(x / 64);
    WrapOfInt32(x / 64 * 64);
  }

  lemma WrapOfInt32(x: Int32)
    ensures Wrap(x) == x && ToInt32(x) == x
  {
    hide Bits32;
  }

  lemma Floor64(x: int)
    ensures 64 * (x / 64) <= x < 64 * (x / 64) + 64 && (x / 64 * 64) % 64 == 0
  {
  }

  /** The message followed by a one bit, zero bits and its bit length, or the RangeError of a size that wrapped. */
  method PadMessage(input: array<Byte>) returns (r: Completion<array<Byte>>)
    requires input.Length <= MAX_LENGTH
    ensures r.Throws? <==> input.Length >= TWO31 - 72
    ensures r.Returns? ==> BitsOfBytes(r.value[..]) == Pad(BitsOfBytes(input[..]))
  {
    hide BitsOfBytes, BigEndian, BitsOf, Pad, PaddedLength;
    var n := input.Length;
    var bitLength := n * 8;
    var paddedLength := PaddedLength(n);
    PaddedLengthFits(n);
    if paddedLength < 0 || paddedLength < n {
      return Throws;
    }
    var padded := new Byte[paddedLength](i => 0);
    forall i | 0 <= i < n {
      padded[i] := input[i];
    }
    padded[n] := 0x80;
    ghost var zeros := padded[n + 1..paddedLength - 8];
    assert padded[..paddedLength - 8] == input[..] + [0x80] + zeros;
    WriteLength(padded, bitLength / 0x1_0000_0000, bitLength % 0x1_0000_0000);
    LengthBits(n);
    PaddedBits(input[..], zeros, padded[paddedLength - 8..]);
    assert padded[..] == padded[..paddedLength - 8] + padded[paddedLength - 8..];
    return Returns(padded);
  }

  /** The two setUint32 calls that store the 64-bit length, low half first. */
  method WriteLength(padded: array<Byte>, high: Uint32, low: Uint32)
    requires padded.Length >= 8
    modifies padded
    ensures padded[..padded.Length - 8] == old(padded[..padded.Length - 8])
    ensures padded[padded.Length - 8..] == BigEndian(high) + BigEndian(low)
  {
    var n := padded.Length;
    SetUint32(padded, n - 4, low);
    ghost var first := padded[..];
    assert first[n - 4..] == BigEndian(low) && first[..n - 8] == old(padded[..n - 8]);
    SetUint32(padded, n - 8, high);
    assert padded[..] == first[..n - 8] + (BigEndian(high) + first[n - 4..]);
  }

  method Sha256(input: array<Byte>) returns (r: Completion<seq<Byte>>)
    requires input.Length <= MAX_LENGTH
    ensures r.Throws? <==> input.Length >= TWO31 - 72
    ensures r.Returns? ==> |r.value| == 32 && BitsOfBytes(r.value) == Fips180.Sha256(BitsOfBytes(input[..]))
  {
    hide BitsOfBytes, Pad, HashBlocks, InitialRegisters, Digest, Loaded;
    var padding := PadMessage(input);
    if padding.Throws? {
      return Throws;
    }
    var state := new Uint32[8](i requires 0 <= i < 8 => INITIAL_HASH[i]);
    assert state[..] == INITIAL_HASH;
    LoadedInitial();
    HashPadded(ROUND_CONSTANTS, state, padding.value);
    var output := WriteDigest(state);
    return Returns(output[..]);
  }

  /** The loop over the 64-byte blocks. */
  method HashPadded(k: seq<Uint32>, state: array<Uint32>, padded: array<Byte>)
    requires |k| == 64 && state.Length == 8 && padded.Length % 64 == 0
    modifies state
    ensures Loaded(state[..])
         == HashBlocks(k, Loaded(old(state[..])), BitsOfBytes(padded[..]), |BitsOfBytes(padded[..])| / 512)
  {
    hide BitsOfBytes, HashBlocks, Compress, Loaded;
    ghost var start := Loaded(state[..]);
    ghost var m := BitsOfBytes(padded[..]);
    NoBlock(k, start, m);
    var offset := 0;
    ghost var n := 0;
    while offset < padded.Length
      invariant offset == 64 * n <= padded.Length
      invariant BitsOfBytes(padded[..]) == m
      invariant Loaded(state[..]) == HashBlocks(k, start, m, n)
    {
      NextBlock(k, start, padded[..], m, n);
      Sha256Block(k, state, padded[offset..offset + 64]);
      offset := offset + 64;
      n := n + 1;
    }
  }

  /** The loop that writes the eight state words. */
  method WriteDigest(state: array<Uint32>) returns (output: array<Byte>)
    requires state.Length == 8
    ensures output.Length == 32 && BitsOfBytes(output[..]) == Digest(Loaded(state[..]))
  {
    hide BitsOfBytes, BigEndian, Digest, Loaded, Bits32;
    output := new Byte[32](i => 0);
    assert BitsOfBytes(output[..0]) == WordBits(state[..0]);
    for index := 0 to 8
      invariant BitsOfBytes(output[..4 * index]) == WordBits(state[..index])
    {
      ghost var written := output[..4 * index];
      SetUint32(output, index * 4, state[index]);
      assert output[..4 * (index + 1)] == written + BigEndian(state[index]);
      BitsOfBytesAppend(written, BigEndian(state[index]));
      BigEndianBits(state[index]);
      NextWord(state[..], index);
      assert state[..][..index] == state[..index] && state[..][..index + 1] == state[..index + 1];
    }
    assert output[..32] == output[..] && state[..8] == state[..];
    EightWords(state[..]);
  }

  function WordBits(s: seq<Uint32>): seq<bool> {
    if s == [] then [] else WordBits(s[..|s| - 1]) + Bits32(s[|s| - 1])
  }

  lemma NextWord(s: seq<Uint32>, n: nat)
    requires n < |s|
    ensures WordBits(s[..n + 1]) == WordBits(s[..n]) + Bits32(s[n])
  {
    assert s[..n + 1][..n] == s[..n];
  }

  lemma EightWords(s: seq<Uint32>)
    requires |s| == 8
    ensures WordBits(s) == Digest(Loaded(s))
  {
    hide Bits32, WordBits;
    NoWords(s);
    NextWord(s, 0);
    NextWord(s, 1);
    NextWord(s, 2);
    NextWord(s, 3);
    NextWord(s, 4);
    NextWord(s, 5);
    NextWord(s, 6);
    NextWord(s, 7);
    assert s[..8] == s;
    assert [] + Bits32(s[0]) == Bits32(s[0]);
  }

  lemma NoWords(s: seq<Uint32>)
    ensures WordBits(s[..0]) == []
  {
  }

  lemma PaddedBits(input: seq<Byte>, zeros: seq<Byte>, length: seq<Byte>)
    requires forall i :: 0 <= i < |zeros| ==> zeros[i] == 0
    requires (|input| + 9 + |zeros|) % 64 == 0 && |zeros| < 64
    requires BitsOfBytes(length) == BitsOf(8 * |input|, 64)
    ensures BitsOfBytes(input + [0x80] + zeros + length) == Pad(BitsOfBytes(input))
  {
    hide BitsOfBytes, BitsOf, Pad, Zeros;
    BitsOfBytesAppend(input + [0x80] + zeros, length);
    BitsOfBytesAppend(input + [0x80], zeros);
    BitsOfBytesAppend(input, [0x80]);
    MarkerByte();
    BitsOfZeroBytes(zeros);
    PadAs(BitsOfBytes(input), |zeros|);
    Regroup(BitsOfBytes(input), [true], Zeros(7), Zeros(8 * |zeros|), BitsOf(8 * |input|, 64));
  }

  lemma Regroup<T>(a: seq<T>, b: seq<T>, c: seq<T>, d: seq<T>, e: seq<T>)
    ensures a + (b + c) + d + e == a + b + (c + d) + e
  {
  }

  lemma PadAs(m: seq<bool>, z: nat)
    requires |m| % 8 == 0 && (|m| + 72 + 8 * z) % 512 == 0 && z < 64
    ensures Pad(m) == m + [true] + (Zeros(7) + Zeros(8 * z)) + BitsOf(|m|, 64)
  {
    hide BitsOf, ZeroBits, Zeros;
    ZeroBitsAs(|m|, 7 + 8 * z);
    ZerosAppend(7, 8 * z);
  }

  lemma ZeroBitsAs(l: nat, k: nat)
    requires (l + 65 + k) % 512 == 0 && k < 519
    requires l % 8 == 0 && k % 8 == 7
    ensures ZeroBits(l) == k
  {
  }

  lemma MarkerByte()
    ensures BitsOfBytes([0x80]) == [true] + Zeros(7)
  {
    assert BitsOfBytes([0x80]) == BitsOf(0x80, 8) + BitsOfBytes([]);
    assert BitsOf(1 * Pow2(7), 8) == BitsOf(1, 1) + Zeros(7) by { BitsOfShifted(1, 8, 7); }
    assert Pow2(7) == 0x80;
  }

  lemma LengthBits(n: nat)
    requires n < TWO31
    ensures BitsOfBytes(BigEndian(8 * n / TWO32) + BigEndian(8 * n % TWO32)) == BitsOf(8 * n, 64)
  {
    hide BitsOfBytes, BitsOf, BigEndian;
    var l := 8 * n;
    BitsOfBytesAppend(BigEndian(l / TWO32), BigEndian(l % TWO32));
    BigEndianBits(l / TWO32);
    BigEndianBits(l % TWO32);
    Bits32Mod(l % TWO32, l);
    BitsOfSuffix(l, 64, 32);
    Pow2Of32();
    BitsOfPrefix(l, 64, 32);
    assert BitsOf(l, 64) == BitsOf(l, 64)[..32] + BitsOf(l, 64)[32..];
  }

  lemma LoadedInitial()
    ensures Loaded(INITIAL_HASH) == InitialRegisters()
  {
    hide Bits32;
  }

  lemma NoBlock(k: seq<Uint32>, h: Registers, m: seq<bool>)
    ensures HashBlocks(k, h, m, 0) == h
  {
  }

  lemma NextBlock(k: seq<Uint32>, h: Registers, padded: seq<Byte>, m: seq<bool>, n: nat)
    requires m == BitsOfBytes(padded) && 64 * (n + 1) <= |padded| && |m| == 8 * |padded|
    ensures HashBlocks(k, h, m, n + 1) == Compress(k, HashBlocks(k, h, m, n), BitsOfBytes(padded[64 * n..64 * n + 64]))
  {
    hide BitsOfBytes, Compress;
    BitsOfBytesSlice(padded, 64 * n, 64 * n + 64);
  }
}
