/** The SDK's base64url encoder (sdks/ave-sdk/src/index.ts) and decoder (sdks/ave-sdk/src/jwt.ts). */
module Base64Url {
  import opened Bits
  import opened Words
  import opened JsNumber
  import opened ByteBits
  import opened Options
  import opened Rfc4648

  lemma AlphabetRows()
    ensures |ALPHABET| == 64
    ensures forall x: Sextet :: ALPHABET[x] == StandardChar(x)
  {
    var upper, lower := "ABCDEFGHIJKLMNOPQRSTUVWXYZ", "abcdefghijklmnopqrstuvwxyz";
    assert forall i :: 0 <= i < 26 ==> upper[i] == 'A' + i as char;
    assert forall i :: 0 <= i < 26 ==> lower[i] == 'a' + i as char;
    assert forall i :: 0 <= i < 10 ==> "0123456789"[i] == '0' + i as char;
  }

  /** `bytes[i] ?? 0` */
  function ByteOrZero(bytes: seq<Byte>, i: nat): Byte {
    if i < |bytes| then bytes[i] else 0
  }

  function Chunk(byte1: Byte, byte2: Byte, byte3: Byte): (r: Int32)
    ensures Bits32(r)[8..] == BitsOfBytes([byte1, byte2, byte3])
  {
    ChunkBits(byte1, byte2, byte3);
    Or(Or(Shl(byte1, 16), Shl(byte2, 8)), byte3)
  }

  lemma ChunkBits(a: Byte, b: Byte, c: Byte)
    ensures Bits32(Or(Or(Shl(a, 16), Shl(b, 8)), c))[8..] == BitsOfBytes([a, b, c])
  {
    hide BitsOf, BitsOfBytes, Or, Shl, Bits32;
    BitsOfBytesAppend([a], [b] + [c]);
    BitsOfBytesAppend([b], [c]);
    assert [a, b, c] == [a] + ([b] + [c]);
    SingleByte(a);
    SingleByte(b);
    SingleByte(c);
  }

  lemma SingleByte(x: Byte)
    ensures Bits32(x) == Zeros(24) + BitsOf(x, 8)
    ensures BitsOfBytes([x]) == BitsOf(x, 8)
  {
    assert Pow2(8) == 256;
    BitsOfSmall(x, 32, 8);
    assert BitsOf(x, 8) + BitsOfBytes([]) == BitsOf(x, 8);
  }

  /** `(chunk >> shift) & 63` reads six consecutive bits. */
  function SixBits(chunk: Int32, shift: nat): (r: Int32)
    requires shift <= 26
    ensures 0 <= r < 64 && r == ToNat(Bits32(chunk)[26 - shift..32 - shift])
  {
    SixBitsValue(chunk, shift);
    And(Sar(chunk, shift), 63)
  }

  lemma SixBitsValue(chunk: Int32, shift: nat)
    requires shift <= 26
    ensures And(Sar(chunk, shift), 63) == ToNat(Bits32(chunk)[26 - shift..32 - shift]) < 64
  {
    hide BitsOf, ToNat, Bits32, And, Sar, Pow2;
    var x := chunk / Pow2(shift);
    assert Sar(chunk, shift) == x by { IntIsItself(chunk); }
    assert Bits32(x)[26..] == Bits32(chunk)[26 - shift..32 - shift] by { MovedBits(chunk, shift); }
    MaskBits();
    assert Bits32(And(x, 63)) == Zeros(26) + Bits32(x)[26..];
    LowValue(And(x, 63), Bits32(x)[26..]);
  }

  lemma IntIsItself(x: Int32)
    ensures ToInt32(x) == x
  {
  }

  lemma MovedBits(x: Int32, shift: nat)
    requires shift <= 26
    ensures Bits32(x / Pow2(shift))[26..] == Bits32(x)[26 - shift..32 - shift]
  {
    hide BitsOf, Pow2;
    var y := x / Pow2(shift);
    BitsOfPrefix(x, 32, shift);
    BitsOfSuffix(y, 32, 6);
    BitsOfSuffix(y, 32 - shift, 6);
    assert Bits32(x)[..32 - shift][26 - shift..] == Bits32(x)[26 - shift..32 - shift];
  }

  lemma MaskBits()
    ensures Bits32(63) == Zeros(26) + seq(6, i => true)
  {
    assert Pow2(6) == 64;
    BitsOfSmall(63, 32, 6);
    assert forall i :: 0 <= i < 6 ==> BitsOf(63, 6)[i];
  }

  lemma LowValue(x: Int32, low: seq<bool>)
    requires |low| == 6 && Bits32(x) == Zeros(26) + low
    ensures x == ToNat(low) < 64
  {
    hide ToNat, BitsOf;
    var v := ToNat(low);
    assert v < 64 by { assert Pow2(6) == 64; }
    BitsOfToNat(low);
    assert Pow2(6) == 64;
    BitsOfSmall(v, 32, 6);
    ToNatBits32(v);
    ToNatBits32(x);
  }

  /** The sextet values of a 24-bit chunk are the four indexes the loop computes. */
  lemma ChunkSextets(a: Byte, b: Byte, c: Byte)
    ensures var chunk := Chunk(a, b, c);
            Sextets(BitsOfBytes([a, b, c]))
            == [SixBits(chunk, 18), SixBits(chunk, 12), SixBits(chunk, 6), SixBits(chunk, 0)]
  {
    hide BitsOf, BitsOfBytes, ToNat, Bits32, SixBits, Chunk, Sextets;
    var w := Bits32(Chunk(a, b, c));
    FourSextets(w[8..]);
    assert w[8..][0..6] == w[8..14] && w[8..][6..12] == w[14..20];
    assert w[8..][12..18] == w[20..26] && w[8..][18..24] == w[26..32];
  }

  lemma FourSextets(b: seq<bool>)
    requires |b| == 24
    ensures Sextets(b) == [ToNat(b[0..6]), ToNat(b[6..12]), ToNat(b[12..18]), ToNat(b[18..24])]
  {
    hide ToNat;
    var c, d, e := b[6..], b[12..], b[18..];
    assert c[6..] == d && d[6..] == e && e[6..] == [];
    assert Sextets(e) == [ToNat(e[..6])] && Sextets(d) == [ToNat(d[..6])] + Sextets(e);
    assert Sextets(c) == [ToNat(c[..6])] + Sextets(d);
    assert c[..6] == b[6..12] && d[..6] == b[12..18] && e[..6] == b[18..24];
  }

  lemma GroupOfThree(a: Byte, b: Byte, c: Byte)
    ensures SextetsOfBytes([a, b, c]) == Sextets(BitsOfBytes([a, b, c]))
  {
    hide BitsOf, BitsOfBytes, Sextets;
    assert BitsOfBytes([a, b, c]) + Zeros(0) == BitsOfBytes([a, b, c]);
  }

  lemma GroupOfTwo(a: Byte, b: Byte)
    ensures SextetsOfBytes([a, b]) == Sextets(BitsOfBytes([a, b, 0]))[..3]
  {
    hide BitsOf, BitsOfBytes, Sextets;
    BitsOfBytesAppend([a, b], [0]);
    BitsOfZeroBytes([0]);
    assert [a, b, 0] == [a, b] + [0];
    SextetsAppend(BitsOfBytes([a, b]) + Zeros(2), Zeros(6));
    assert BitsOfBytes([a, b, 0]) == BitsOfBytes([a, b]) + Zeros(2) + Zeros(6);
  }

  lemma GroupOfOne(a: Byte)
    ensures SextetsOfBytes([a]) == Sextets(BitsOfBytes([a, 0, 0]))[..2]
  {
    hide BitsOf, BitsOfBytes, Sextets;
    BitsOfBytesAppend([a], [0, 0]);
    BitsOfZeroBytes([0, 0]);
    assert [a, 0, 0] == [a] + [0, 0];
    SextetsAppend(BitsOfBytes([a]) + Zeros(4), Zeros(12));
    assert BitsOfBytes([a, 0, 0]) == BitsOfBytes([a]) + Zeros(4) + Zeros(12);
  }

  /** The four characters the loop appends for the group of bytes that starts at i. */
  function Group(bytes: seq<Byte>, i: nat): (r: string)
    requires i < |bytes|
    ensures r == StandardEncode(bytes[i..if i + 3 < |bytes| then i + 3 else |bytes|])
  {
    var byte1 := ByteOrZero(bytes, i);
    var byte2 := ByteOrZero(bytes, i + 1);
    var byte3 := ByteOrZero(bytes, i + 2);
    var chunk := Chunk(byte1, byte2, byte3);
    AlphabetRows();
    GroupIsStandard(bytes, i);
    [ALPHABET[SixBits(chunk, 18)],
     ALPHABET[SixBits(chunk, 12)],
     if i + 1 < |bytes| then ALPHABET[SixBits(chunk, 6)] else '=',
     if i + 2 < |bytes| then ALPHABET[SixBits(chunk, 0)] else '=']
  }

  lemma GroupIsStandard(bytes: seq<Byte>, i: nat)
    requires i < |bytes|
    ensures var chunk := Chunk(bytes[i], ByteOrZero(bytes, i + 1), ByteOrZero(bytes, i + 2));
            [StandardChar(SixBits(chunk, 18)),
             StandardChar(SixBits(chunk, 12)),
             if i + 1 < |bytes| then StandardChar(SixBits(chunk, 6)) else '=',
             if i + 2 < |bytes| then StandardChar(SixBits(chunk, 0)) else '=']
            == StandardEncode(bytes[i..if i + 3 < |bytes| then i + 3 else |bytes|])
  {
    hide BitsOf, BitsOfBytes, ToNat, Bits32, SixBits, Chunk, Sextets, SextetsOfBytes, StandardChar;
    var t := [bytes[i], ByteOrZero(bytes, i + 1), ByteOrZero(bytes, i + 2)];
    ChunkSextets(t[0], t[1], t[2]);
    if i + 2 < |bytes| {
      GroupOfThree(t[0], t[1], t[2]);
      assert bytes[i..i + 3] == t;
    } else if i + 1 < |bytes| {
      GroupOfTwo(t[0], t[1]);
      assert bytes[i..|bytes|] == [t[0], t[1]];
    } else {
      GroupOfOne(t[0]);
      assert bytes[i..|bytes|] == [t[0]];
    }
  }

  function ReplaceAll(s: string, from: char, to: char): (r: string)
    ensures |r| == |s|
  {
    seq(|s|, i requires 0 <= i < |s| => if s[i] == from then to else s[i])
  }

  /** `.replace(/=+$/, "")` */
  function StripTrailing(s: string, c: char): string {
    if s != [] && s[|s| - 1] == c then StripTrailing(s[..|s| - 1], c) else s
  }

  method Base64UrlEncode(bytes: array<Byte>) returns (r: string)
    ensures r == UrlEncode(bytes[..])
  {
    hide StandardEncode, Group, UrlEncode, ReplaceAll, StripTrailing;
    var output := "";
    var i := 0;
    assert StandardEncode(bytes[..0]) == "" by { EncodeNothing(); }
    while i < bytes.Length
      invariant i % 3 == 0
      invariant output == StandardEncode(bytes[..if i < bytes.Length then i else bytes.Length])
    {
      output := output + Group(bytes[..], i);
      AppendGroup(bytes[..], i);
      i := i + 3;
    }
    assert bytes[..bytes.Length] == bytes[..];
    UrlFromStandard(bytes[..]);
    return StripTrailing(ReplaceAll(ReplaceAll(output, '+', '-'), '/', '_'), '=');
  }

  lemma EncodeNothing()
    ensures StandardEncode([]) == ""
  {
  }

  lemma AppendGroup(bytes: seq<Byte>, i: nat)
    requires i < |bytes| && i % 3 == 0
    ensures var j := if i + 3 < |bytes| then i + 3 else |bytes|;
            StandardEncode(bytes[..i]) + StandardEncode(bytes[i..j]) == StandardEncode(bytes[..j])
  {
    hide StandardEncode;
    var j := if i + 3 < |bytes| then i + 3 else |bytes|;
    StandardEncodeAppend(bytes[..i], bytes[i..j]);
    assert bytes[..i] + bytes[i..j] == bytes[..j];
  }

  lemma StandardEncodeAppend(a: seq<Byte>, b: seq<Byte>)
    requires |a| % 3 == 0
    ensures StandardEncode(a) + StandardEncode(b) == StandardEncode(a + b)
  {
    hide StandardEncode, SextetsOfBytes, StandardChars, Repeat, FillBits;
    var s, t := SextetsOfBytes(a), SextetsOfBytes(b);
    var n := (-|t|) % 4;
    FillOfAppend(|a|, |b|);
    SamePadding(|a|, |s|, |t|);
    SextetsOfBytesAppend(a, b);
    StandardCharsAppend(s, t);
    NoPadding(StandardChars(s));
    Encodes(a, 0);
    Encodes(b, n);
    Encodes(a + b, n);
    assert StandardChars(s) + (StandardChars(t) + Repeat('=', n)) == StandardChars(s) + StandardChars(t) + Repeat('=', n);
  }

  lemma Encodes(b: seq<Byte>, n: nat)
    requires n == (-|SextetsOfBytes(b)|) % 4
    ensures StandardEncode(b) == StandardChars(SextetsOfBytes(b)) + Repeat('=', n)
  {
  }

  lemma NoPadding(s: string)
    ensures s + Repeat('=', 0) == s
  {
  }

  lemma SamePadding(bytes: int, s: int, t: int)
    requires bytes % 3 == 0 && 6 * s == 8 * bytes
    ensures (-s) % 4 == 0 && (-(s + t)) % 4 == (-t) % 4
  {
    var q := bytes / 3;
    assert bytes == 3 * q && s == 4 * q;
    Remainder4(-s, -q, 0);
    Remainder4(-(s + t), (-t) / 4 - q, (-t) % 4);
  }

  lemma Remainder4(a: int, k: int, r: int)
    requires 0 <= r < 4 && a == 4 * k + r
    ensures a % 4 == r
  {
  }

  lemma StandardCharsAppend(s: seq<Sextet>, t: seq<Sextet>)
    ensures StandardChars(s + t) == StandardChars(s) + StandardChars(t)
  {
    hide StandardChar;
  }

  lemma SextetsOfBytesAppend(a: seq<Byte>, b: seq<Byte>)
    requires |a| % 3 == 0
    ensures SextetsOfBytes(a + b) == SextetsOfBytes(a) + SextetsOfBytes(b)
  {
    hide BitsOfBytes, Sextets, FillBits, Zeros;
    BitsOfBytesAppend(a, b);
    FillOfAppend(|a|, |b|);
    SextetsAppend(BitsOfBytes(a), BitsOfBytes(b) + Zeros(FillBits(|b|)));
    assert BitsOfBytes(a) + Zeros(0) == BitsOfBytes(a);
    assert BitsOfBytes(a + b) + Zeros(FillBits(|b|)) == BitsOfBytes(a) + (BitsOfBytes(b) + Zeros(FillBits(|b|)));
  }

  lemma FillOfAppend(a: nat, b: nat)
    requires a % 3 == 0
    ensures FillBits(a) == 0 && FillBits(a + b) == FillBits(b) && (8 * a) % 6 == 0
    ensures (8 * b + FillBits(b)) % 6 == 0
  {
    var q := a / 3;
    assert a == 3 * q;
    Remainder6(-8 * a, -4 * q, 0);
    Remainder6(8 * a, 4 * q, 0);
    Remainder6(-8 * (a + b), -8 * b / 6 - 4 * q, -8 * b % 6);
  }

  lemma Remainder6(a: int, k: int, r: int)
    requires 0 <= r < 6 && a == 6 * k + r
    ensures a % 6 == r
  {
  }

  lemma UrlFromStandard(b: seq<Byte>)
    ensures StripTrailing(ReplaceAll(ReplaceAll(StandardEncode(b), '+', '-'), '/', '_'), '=') == UrlEncode(b)
  {
    hide SextetsOfBytes;
    var s := SextetsOfBytes(b);
    var n := (-|s|) % 4;
    assert ReplaceAll(ReplaceAll(StandardEncode(b), '+', '-'), '/', '_') == UrlChars(s) + Repeat('=', n);
    StripRepeat(UrlChars(s), n);
  }

  lemma {:induction false} StripRepeat(s: string, n: nat)
    requires s == [] || s[|s| - 1] != '='
    ensures StripTrailing(s + Repeat('=', n), '=') == s
  {
    var t := s + Repeat('=', n);
    if n > 0 {
      StripRepeat(s, n - 1);
      assert t[|t| - 1] == '=';
      assert t[..|t| - 1] == s + Repeat('=', n - 1);
    } else {
      assert t == s;
    }
  }

  /** `base64UrlDecode`; None stands for the exception `atob` throws. */
  function Base64UrlDecode(input: string): Option<seq<Byte>> {
    var normalized := ReplaceAll(ReplaceAll(input, '-', '+'), '_', '/');
    var padded := normalized + Repeat('=', (4 - |normalized| % 4) % 4);
    Atob(padded)
  }

  /** Decoding a string over the section 5 alphabet reads its sextets back. */
  lemma DecodeUrlChars(s: seq<Sextet>)
    ensures Base64UrlDecode(UrlChars(s))
         == if |s| % 4 == 1 then None else Some(WholeBytes(BitsOfSextets(s)))
  {
    hide BitsOfSextets, WholeBytes, Atob, StandardChars, UrlChars, ReplaceAll, Repeat;
    StandardFromUrl(s);
    PaddingCount(|s|);
    DecodePadded(s, (4 - |s| % 4) % 4);
  }

  lemma PaddingCount(m: nat)
    ensures var n := (4 - m % 4) % 4;
            0 <= n <= 3 && (m + n) % 4 == 0 && (n == 3 <==> m % 4 == 1)
  {
  }

  lemma DecodePadded(s: seq<Sextet>, n: nat)
    requires n <= 3 && (|s| + n) % 4 == 0
    ensures Atob(StandardChars(s) + Repeat('=', n))
         == if n == 3 then None else Some(WholeBytes(BitsOfSextets(s)))
  {
    hide *;
    var data := StandardChars(s) + if n == 3 then "=" else "";
    Dropped(s, n);
    AtobDrops(StandardChars(s) + Repeat('=', n));
    if n == 3 {
      Unknown(StandardChars(s));
    } else {
      IndexesOfStandardChars(s);
      assert data == StandardChars(s);
    }
  }

  lemma AtobDrops(s: string)
    requires |s| % 4 == 0
    ensures var data := DropPadding(s);
            Atob(s) == if |data| % 4 == 1 || StandardIndexes(data).None? then None
                       else Some(WholeBytes(BitsOfSextets(StandardIndexes(data).value)))
  {
  }

  lemma Unknown(s: string)
    ensures StandardIndexes(s + "=").None?
  {
    hide StandardIndexes;
    UnknownCharFails(s + "=", |s|);
  }

  lemma StandardFromUrl(s: seq<Sextet>)
    ensures ReplaceAll(ReplaceAll(UrlChars(s), '-', '+'), '_', '/') == StandardChars(s)
  {
  }

  lemma NoPaddingChar(x: Sextet)
    ensures StandardChar(x) != '='
  {
  }

  /** A text whose last character but one is not the padding character loses at most one character. */
  lemma EndsInTwo(s: string, last: string)
    requires |last| == 2
    ensures (s + last)[|s + last| - 2..] == last && (s + last)[..|s + last| - 2] == s
  {
  }

  lemma EndsInOne(s: string, c: char)
    ensures (s + [c])[|s + [c]| - 1] == c && (s + [c])[..|s + [c]| - 1] == s
  {
  }

  lemma DroppedNone(s: seq<Sextet>)
    ensures DropPadding(StandardChars(s)) == StandardChars(s)
  {
    hide StandardChar;
    var chars := StandardChars(s);
    if |s| > 0 {
      NoPaddingChar(s[|s| - 1]);
      assert |s| > 1 ==> chars[|chars| - 2..][1] == chars[|s| - 1];
    }
  }

  lemma DroppedOne(s: seq<Sextet>)
    ensures DropPadding(StandardChars(s) + "=") == StandardChars(s)
  {
    hide StandardChar;
    var chars := StandardChars(s);
    EndsInOne(chars, '=');
    if |s| > 0 {
      NoPaddingChar(s[|s| - 1]);
      assert (chars + "=")[|s| - 1..][0] == chars[|s| - 1];
    }
  }

  lemma DroppedTwo(chars: string)
    ensures DropPadding(chars + "==") == chars
  {
    EndsInTwo(chars, "==");
  }

  lemma Dropped(s: seq<Sextet>, n: nat)
    requires n <= 3
    ensures DropPadding(StandardChars(s) + Repeat('=', n)) == StandardChars(s) + if n == 3 then "=" else ""
  {
    hide StandardChars, DropPadding;
    var chars := StandardChars(s);
    if n == 0 {
      assert chars + Repeat('=', 0) == chars == chars + "";
      DroppedNone(s);
    } else if n == 1 {
      assert Repeat('=', 1) == "=" && chars + "" == chars;
      DroppedOne(s);
    } else if n == 2 {
      assert Repeat('=', 2) == "==" && chars + "" == chars;
      DroppedTwo(chars);
    } else {
      assert chars + Repeat('=', 3) == (chars + "=") + "==";
      DroppedTwo(chars + "=");
    }
  }

  lemma {:induction false} UnknownCharFails(s: string, i: nat)
    requires i < |s| && StandardIndex(s[i]).None?
    ensures StandardIndexes(s).None?
  {
    if i > 0 {
      UnknownCharFails(s[1..], i - 1);
    }
  }

  /** The decoder undoes the encoder on every byte sequence. */
  lemma DecodeEncode(b: seq<Byte>)
    ensures Base64UrlDecode(UrlEncode(b)) == Some(b)
  {
    hide Sextets, BitsOfSextets, BitsOfBytes, BytesOfBits, WholeBytes, Base64UrlDecode, UrlChars, FillBits, Zeros;
    var s := SextetsOfBytes(b);
    DecodeUrlChars(s);
    SextetCount(|b|, |s|);
    BitsOfSextetsOfBits(BitsOfBytes(b) + Zeros(FillBits(|b|)));
    FillIsDropped(b, FillBits(|b|));
  }

  lemma SextetCount(n: nat, m: nat)
    requires 6 * m == 8 * n + FillBits(n)
    ensures m % 4 != 1
  {
    var q, r := m / 4, m % 4;
    assert 0 <= 24 * q + 6 * r - 8 * n < 6;
  }

  lemma FillIsDropped(b: seq<Byte>, z: nat)
    requires z < 6
    ensures WholeBytes(BitsOfBytes(b) + Zeros(z)) == b
  {
    hide BitsOfBytes, BytesOfBits;
    var bits := BitsOfBytes(b) + Zeros(z);
    WholeLength(|b|, z);
    assert bits[..8 * |b|] == BitsOfBytes(b);
    BytesOfBitsOfBytes(b);
  }

  lemma WholeLength(n: nat, z: nat)
    requires z < 8
    ensures (8 * n + z) / 8 * 8 == 8 * n
  {
  }

  /** Length ceil(4n/3), never one past a multiple of four, and only characters of the section 5 alphabet. */
  lemma UrlEncodeShape(b: seq<Byte>)
    ensures |UrlEncode(b)| == (4 * |b| + 2) / 3 && |UrlEncode(b)| % 4 != 1
    ensures forall i :: 0 <= i < |UrlEncode(b)| ==> IsUrlChar(UrlEncode(b)[i])
  {
    hide SextetsOfBytes, FillBits;
    var s := SextetsOfBytes(b);
    SextetCount(|b|, |s|);
    CeilingOfThirds(|b|, |s|);
    forall i | 0 <= i < |s|
      ensures IsUrlChar(UrlEncode(b)[i])
    {
      UrlCharIsUrl(s[i]);
    }
  }

  lemma CeilingOfThirds(n: nat, m: nat)
    requires 0 <= 6 * m - 8 * n < 6
    ensures m == (4 * n + 2) / 3
  {
    assert 3 * m <= 4 * n + 2 < 3 * m + 3;
  }

  lemma UrlCharIsUrl(x: Sextet)
    ensures IsUrlChar(UrlChar(x))
  {
  }

  lemma UrlEncodeInjective(a: seq<Byte>, b: seq<Byte>)
    requires UrlEncode(a) == UrlEncode(b)
    ensures a == b
  {
    hide UrlEncode, Base64UrlDecode;
    DecodeEncode(a);
    DecodeEncode(b);
  }

  /** The bits of the last sextet that the decoder drops. */
  predicate LeftoverIsZero(s: seq<Sextet>) {
    forall i :: 6 * |s| / 8 * 8 <= i < 6 * |s| ==> !BitsOfSextets(s)[i]
  }

  /** Re-encoding a decoded string gives it back exactly when the bits the decoder dropped are zero. */
  lemma EncodeDecode(s: seq<Sextet>)
    requires |s| % 4 != 1
    ensures Base64UrlDecode(UrlChars(s)).Some?
    ensures UrlEncode(Base64UrlDecode(UrlChars(s)).value) == UrlChars(s) <==> LeftoverIsZero(s)
  {
    hide Base64UrlDecode, BitsOfSextets, BytesOfBits, BitsOfBytes, UrlEncode, UrlChars;
    DecodeUrlChars(s);
    var b := WholeBytes(BitsOfSextets(s));
    BitsOfBytesOfBits(BitsOfSextets(s)[..6 * |s| / 8 * 8]);
    LeftoverIsFill(|s|, |b|);
    Reencode(s, b);
  }

  /** The bits of the encoding: those of the bytes and the fill. */
  function RefilledBits(b: seq<Byte>): (r: seq<bool>)
    ensures |r| == 8 * |b| + FillBits(|b|) && |r| % 6 == 0
  {
    BitsOfBytes(b) + Zeros(FillBits(|b|))
  }

  lemma EncodesRefilled(b: seq<Byte>)
    ensures RefilledBits(b) == BitsOfBytes(b) + Zeros(FillBits(|b|))
    ensures UrlEncode(b) == UrlChars(Sextets(RefilledBits(b)))
  {
  }

  lemma Reencode(s: seq<Sextet>, b: seq<Byte>)
    requires 6 * |s| == 8 * |b| + FillBits(|b|)
    requires BitsOfBytes(b) == BitsOfSextets(s)[..8 * |b|]
    ensures UrlEncode(b) == UrlChars(s) <==> forall i :: 8 * |b| <= i < 6 * |s| ==> !BitsOfSextets(s)[i]
  {
    hide BitsOfSextets, Sextets, UrlChars, BitsOfBytes, FillBits, Zeros, UrlEncode, RefilledBits;
    var bits := BitsOfSextets(s);
    var refilled := RefilledBits(b);
    EncodesRefilled(b);
    ZeroTail(bits, 8 * |b|, FillBits(|b|));
    if bits == refilled {
      SextetsOfBitsOfSextets(s);
    } else if UrlEncode(b) == UrlChars(s) {
      UrlCharsInjective(Sextets(refilled), s);
      BitsOfSextetsOfBits(refilled);
    }
  }

  lemma ZeroTail(bits: seq<bool>, m: nat, f: nat)
    requires |bits| == m + f
    ensures bits == bits[..m] + Zeros(f) <==> forall i :: m <= i < |bits| ==> !bits[i]
  {
    var t := bits[..m] + Zeros(f);
    forall i | m <= i < |bits|
      ensures t[i] == Zeros(f)[i - m]
    {
    }
  }

  lemma LeftoverIsFill(m: nat, n: nat)
    requires m % 4 != 1 && 8 * n == 6 * m / 8 * 8
    ensures FillBits(n) == 6 * m - 8 * n
  {
    var q, r := m / 4, m % 4;
    assert 6 * m == 24 * q + 6 * r && n == 6 * m / 8;
    var c := if r == 0 then 0 else r - 1;
    assert n == 3 * q + c;
    var whole: int := m;
    Remainder6(-8 * n, -whole, 6 * m - 8 * n);
  }

  lemma UrlCharsInjective(s: seq<Sextet>, t: seq<Sextet>)
    requires UrlChars(s) == UrlChars(t)
    ensures s == t
  {
    hide UrlChar;
    assert |s| == |t|;
    forall i | 0 <= i < |s|
      ensures s[i] == t[i]
    {
      assert UrlChars(s)[i] == UrlChars(t)[i];
      UrlCharInjective(s[i], t[i]);
    }
  }

  lemma UrlCharInjective(x: Sextet, y: Sextet)
    requires UrlChar(x) == UrlChar(y)
    ensures x == y
  {
  }
}
