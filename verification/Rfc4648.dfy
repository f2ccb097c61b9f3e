/** The base 64 encodings of RFC 4648, read as regroupings of one bit string. */
module Rfc4648 {
  import opened Options
  import opened Bits
  import opened ByteBits

  type Sextet = x: int | 0 <= x < 64

  /** Table 1 of section 4 */
  const ALPHABET: string :=
    "ABCDEFGHIJKLMNOPQRSTUVWXYZ" + "abcdefghijklmnopqrstuvwxyz" + "0123456789" + "+/"

  function StandardChar(x: Sextet): char {
    if x < 26 then 'A' + x as char
    else if x < 52 then 'a' + (x - 26) as char
    else if x < 62 then '0' + (x - 52) as char
    else if x == 62 then '+' else '/'
  }

  /** Table 2 of section 5 */
  function UrlChar(x: Sextet): char {
    if x == 62 then '-' else if x == 63 then '_' else StandardChar(x)
  }

  function StandardIndex(c: char): (r: Option<Sextet>)
    ensures r.Some? ==> StandardChar(r.value) == c
    ensures r.None? ==> forall x: Sextet :: StandardChar(x) != c
  {
    if 'A' <= c <= 'Z' then Some((c - 'A') as int)
    else if 'a' <= c <= 'z' then Some((c - 'a') as int + 26)
    else if '0' <= c <= '9' then Some((c - '0') as int + 52)
    else if c == '+' then Some(62)
    else if c == '/' then Some(63)
    else None
  }

  lemma IndexOfStandardChar(x: Sextet)
    ensures StandardIndex(StandardChar(x)) == Some(x)
  {
  }

  predicate IsUrlChar(c: char) {
    'A' <= c <= 'Z' || 'a' <= c <= 'z' || '0' <= c <= '9' || c == '-' || c == '_'
  }

  /** How many zero bits complete the last 6-bit group of n bytes. */
  function FillBits(n: nat): (z: nat)
    ensures z < 6 && (8 * n + z) % 6 == 0
  {
    (-8 * n) % 6
  }

  function SextetOfBits(b: seq<bool>): Sextet
    requires |b| == 6
  {
    assert Pow2(6) == 64;
    ToNat(b)
  }

  function Sextets(b: seq<bool>): (s: seq<Sextet>)
    requires |b| % 6 == 0
    ensures 6 * |s| == |b|
  {
    if b == [] then [] else [SextetOfBits(b[..6])] + Sextets(b[6..])
  }

  function BitsOfSextets(s: seq<Sextet>): (b: seq<bool>)
    ensures |b| == 6 * |s|
  {
    if s == [] then [] else BitsOf(s[0], 6) + BitsOfSextets(s[1..])
  }

  function SextetsOfBytes(b: seq<Byte>): (s: seq<Sextet>)
    ensures 6 * |s| == 8 * |b| + FillBits(|b|)
  {
    Sextets(BitsOfBytes(b) + Zeros(FillBits(|b|)))
  }

  function StandardChars(s: seq<Sextet>): (r: string)
    ensures |r| == |s|
  {
    seq(|s|, i requires 0 <= i < |s| => StandardChar(s[i]))
  }

  function UrlChars(s: seq<Sextet>): (r: string)
    ensures |r| == |s|
  {
    seq(|s|, i requires 0 <= i < |s| => UrlChar(s[i]))
  }

  /** Section 5 without padding, as section 3.2 allows. */
  function UrlEncode(b: seq<Byte>): string {
    UrlChars(SextetsOfBytes(b))
  }

  /** Section 4, with padding to a multiple of four characters. */
  function StandardEncode(b: seq<Byte>): string {
    var chars := StandardChars(SextetsOfBytes(b));
    chars + Repeat('=', (-|chars|) % 4)
  }

  function Repeat(c: char, n: nat): (r: string)
    ensures |r| == n
  {
    seq(n, i => c)
  }

  lemma {:induction false} BitsOfSextetsOfBits(b: seq<bool>)
    requires |b| % 6 == 0
    ensures BitsOfSextets(Sextets(b)) == b
  {
    hide BitsOf, ToNat;
    if b != [] {
      BitsOfSextetsOfBits(b[6..]);
      BitsOfToNat(b[..6]);
      assert b == b[..6] + b[6..];
    }
  }

  lemma {:induction false} SextetsOfBitsOfSextets(s: seq<Sextet>)
    ensures Sextets(BitsOfSextets(s)) == s
  {
    hide BitsOf, ToNat;
    if s != [] {
      var b := BitsOfSextets(s);
      SextetsOfBitsOfSextets(s[1..]);
      assert b[..6] == BitsOf(s[0], 6) && b[6..] == BitsOfSextets(s[1..]);
      ToNatBitsOf(s[0], 6);
      assert Pow2(6) == 64;
    }
  }

  lemma {:induction false} SextetsAppend(a: seq<bool>, b: seq<bool>)
    requires |a| % 6 == 0 && |b| % 6 == 0
    ensures Sextets(a + b) == Sextets(a) + Sextets(b)
  {
    hide SextetOfBits;
    if a == [] {
      assert a + b == b;
    } else {
      var rest := a[6..];
      assert (a + b)[..6] == a[..6] && (a + b)[6..] == rest + b;
      SextetsAppend(rest, b);
      assert Sextets(a + b) == [SextetOfBits(a[..6])] + Sextets(rest + b);
    }
  }

  /** The sextet values of a string, if every character is in the alphabet of section 4. */
  function StandardIndexes(s: string): (r: Option<seq<Sextet>>)
    ensures r.Some? ==> |r.value| == |s| && StandardChars(r.value) == s
    ensures r.None? ==> exists i :: 0 <= i < |s| && StandardIndex(s[i]).None?
  {
    if s == [] then Some([])
    else
      var first, rest := StandardIndex(s[0]), StandardIndexes(s[1..]);
      if first.None? || rest.None? then None else Some([first.value] + rest.value)
  }

  lemma {:induction false} IndexesOfStandardChars(s: seq<Sextet>)
    ensures StandardIndexes(StandardChars(s)) == Some(s)
  {
    if s != [] {
      IndexesOfStandardChars(s[1..]);
      assert StandardChars(s)[1..] == StandardChars(s[1..]);
      assert s == [s[0]] + s[1..];
      IndexOfStandardChar(s[0]);
    }
  }

  /** `atob`: the decoder of section 4, which drops up to two padding characters and the unused low bits. */
  function Atob(s: string): Option<seq<Byte>> {
    var data := if |s| % 4 == 0 then DropPadding(s) else s;
    var indexes := StandardIndexes(data);
    if |data| % 4 == 1 || indexes.None? then None
    else Some(WholeBytes(BitsOfSextets(indexes.value)))
  }

  function DropPadding(s: string): string {
    if |s| >= 2 && s[|s| - 2..] == "==" then s[..|s| - 2]
    else if |s| >= 1 && s[|s| - 1] == '=' then s[..|s| - 1]
    else s
  }

  function WholeBytes(b: seq<bool>): seq<Byte> {
    BytesOfBits(b[..|b| / 8 * 8])
  }
}
