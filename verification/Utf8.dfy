/** UTF-8 (RFC 3629), as TextEncoder and Buffer write it. */
module Utf8 {
  import opened Options
  import opened ByteBits

  function EncodeChar(c: char): seq<Byte> {
    var n := c as int;
    if n < 0x80 then [n]
    else if n < 0x800 then [0xC0 + n / 64, 0x80 + n % 64]
    else if n < 0x10000 then [0xE0 + n / 4096, 0x80 + n / 64 % 64, 0x80 + n % 64]
    else [0xF0 + n / 262144, 0x80 + n / 4096 % 64, 0x80 + n / 64 % 64, 0x80 + n % 64]
  }

  function Encode(s: string): seq<Byte> {
    if s == "" then [] else EncodeChar(s[0]) + Encode(s[1..])
  }

  predicate Continues(b: seq<Byte>, n: nat) {
    |b| > n && forall i :: 1 <= i <= n ==> 0x80 <= b[i] < 0xC0
  }

  predicate IsScalar(n: int) {
    0 <= n < 0xD800 || 0xE000 <= n < 0x110000
  }

  /** The code point the bytes start with, and how many bytes it takes; the shortest form is the only one. */
  function FirstCodePoint(b: seq<Byte>): Option<(int, nat)> {
    if b == [] then None
    else
      var lead: int := b[0];
      if lead < 0x80 then Some((lead, 1))
      else if 0xC0 <= lead < 0xE0 && Continues(b, 1) then Some(((lead - 0xC0) * 64 + Low(b[1]), 2))
      else if 0xE0 <= lead < 0xF0 && Continues(b, 2) then Some(((lead - 0xE0) * 4096 + Low(b[1]) * 64 + Low(b[2]), 3))
      else if 0xF0 <= lead < 0xF8 && Continues(b, 3) then
        Some(((lead - 0xF0) * 262144 + Low(b[1]) * 4096 + Low(b[2]) * 64 + Low(b[3]), 4))
      else None
  }

  function Low(b: int): int {
    b - 0x80
  }

  function FirstChar(b: seq<Byte>): (r: Option<(char, nat)>)
    ensures r.Some? ==> 1 <= r.value.1 <= |b|
  {
    var first := FirstCodePoint(b);
    if first.Some? && IsScalar(first.value.0) && |EncodeChar(first.value.0 as char)| == first.value.1
    then Some((first.value.0 as char, first.value.1))
    else None
  }

  function Decode(b: seq<Byte>): Option<string> {
    if b == [] then Some("")
    else
      var first := FirstChar(b);
      if first.None? then None
      else
        var rest := Decode(b[first.value.1..]);
        if rest.None? then None else Some([first.value.0] + rest.value)
  }

  lemma FirstOfEncoded(c: char, rest: seq<Byte>)
    ensures FirstChar(EncodeChar(c) + rest).Some? && FirstChar(EncodeChar(c) + rest).value == (c, |EncodeChar(c)|)
  {
    var n := c as int;
    var b := EncodeChar(c) + rest;
    assert FirstCodePoint(b).Some? && FirstCodePoint(b).value == (n, |EncodeChar(c)|) by {
      if n >= 0x80 {
        assert n == n / 64 * 64 + n % 64;
        assert n / 64 == n / 4096 * 64 + n / 64 % 64;
        assert n / 4096 == n / 262144 * 64 + n / 4096 % 64;
        assert forall i :: 1 <= i < |EncodeChar(c)| ==> b[i] == EncodeChar(c)[i];
      }
    }
  }

  lemma {:induction false} DecodeOfEncode(s: string)
    ensures Decode(Encode(s)) == Some(s)
  {
    hide FirstChar, EncodeChar;
    if s != "" {
      var rest := Encode(s[1..]);
      FirstOfEncoded(s[0], rest);
      assert (EncodeChar(s[0]) + rest)[|EncodeChar(s[0])|..] == rest;
      DecodeOfEncode(s[1..]);
      assert [s[0]] + s[1..] == s;
    }
  }
}
