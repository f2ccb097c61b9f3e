/**
 * Proof key for code exchange (RFC 7636): the SDK makes a verifier and its S256
 * challenge (sdks/ave-sdk/src/index.ts), the token endpoint checks one against the
 * other (ave-server/src/routes/oauth/authorization-code.ts and shared.ts).
 */
module Pkce {
  import opened ByteBits
  import opened Options
  import opened Rfc4648
  import Base64Url
  import Fips180
  import Sha256Pure
  import Utf16
  import Utf8

  datatype Verdict = VerifierRequired | VerifierMalformed | VerifierMismatch | Accepted

  /** `crypto.subtle.digest("SHA-256", data)` */
  function Sha256Bytes(data: seq<Byte>): (d: seq<Byte>)
    ensures |d| == 32
  {
    BytesOfBits(Fips180.Sha256(BitsOfBytes(data)))
  }

  /** `[A-Za-z0-9._~-]` */
  predicate IsUnreserved(c: char) {
    'A' <= c <= 'Z' || 'a' <= c <= 'z' || '0' <= c <= '9' || c == '.' || c == '_' || c == '~' || c == '-'
  }

  predicate IsValidPkceCodeVerifier(value: string) {
    43 <= |value| <= 128 && forall i :: 0 <= i < |value| ==> IsUnreserved(value[i])
  }

  function PadTo(b: seq<Byte>, n: nat): (r: seq<Byte>)
    requires |b| <= n
    ensures |r| == n
  {
    b + seq(n - |b|, i => 0)
  }

  /** Both buffers are zero-padded to the longer length, so the comparison also needs the lengths. */
  predicate TimingSafeEqualString(a: string, b: string) {
    var aBuffer, bBuffer := Utf8.Encode(a), Utf8.Encode(b);
    var maxLength := if |aBuffer| >= |bBuffer| then |aBuffer| else |bBuffer|;
    PadTo(aBuffer, maxLength) == PadTo(bBuffer, maxLength) && |aBuffer| == |bBuffer|
  }

  function ComputedChallenge(codeChallengeMethod: string, codeVerifier: string): string {
    if codeChallengeMethod == "S256" then UrlEncode(Sha256Bytes(Utf8.Encode(codeVerifier))) else codeVerifier
  }

  /** The PKCE guards of handleAuthorizationCode, in their order. */
  function CheckVerifier(codeChallengeMethod: string, codeChallenge: string, codeVerifier: string): Verdict {
    if codeVerifier == "" then VerifierRequired
    else if !IsValidPkceCodeVerifier(codeVerifier) then VerifierMalformed
    else if !TimingSafeEqualString(ComputedChallenge(codeChallengeMethod, codeVerifier), codeChallenge)
      then VerifierMismatch
    else Accepted
  }

  /** The SDK's verifier from 32 random bytes. */
  method GenerateCodeVerifier(random: array<Byte>) returns (verifier: string)
    requires random.Length == 32
    ensures |verifier| == 43 && IsValidPkceCodeVerifier(verifier)
    ensures verifier == UrlEncode(random[..])
  {
    verifier := Base64Url.Base64UrlEncode(random);
    Base64Url.UrlEncodeShape(random[..]);
  }

  /** The SDK's S256 challenge, with the digest computed by the pure fallback. */
  method GenerateCodeChallenge(verifier: string) returns (r: Sha256Pure.Completion<string>)
    requires |Utf8.Encode(verifier)| <= Sha256Pure.MAX_LENGTH
    ensures r.Throws? <==> |Utf8.Encode(verifier)| >= 0x8000_0000 - 72
    ensures r.Returns? ==> r.value == ComputedChallenge("S256", verifier)
  {
    hide BitsOfBytes, BytesOfBits, Fips180.Sha256, Utf8.Encode, UrlEncode;
    var bytes := Utf8.Encode(verifier);
    var data := new Byte[|bytes|](i requires 0 <= i < |bytes| => bytes[i]);
    assert data[..] == bytes;
    var digest := Sha256Pure.Sha256(data);
    if digest.Throws? {
      return Sha256Pure.Throws;
    }
    BytesOfBitsOfBytes(digest.value);
    var buffer := new Byte[32](i requires 0 <= i < 32 => digest.value[i]);
    assert buffer[..] == digest.value;
    var challenge := Base64Url.Base64UrlEncode(buffer);
    return Sha256Pure.Returns(challenge);
  }

  /** Comparing padded buffers and lengths decides equality of texts. */
  lemma TimingSafeEqualIsEquality(a: string, b: string)
    ensures TimingSafeEqualString(a, b) <==> a == b
  {
    hide Utf8.Encode, Utf8.Decode;
    if TimingSafeEqualString(a, b) {
      var x, y := Utf8.Encode(a), Utf8.Encode(b);
      assert PadTo(x, |x|) == x && PadTo(y, |y|) == y;
      Utf8.DecodeOfEncode(a);
      Utf8.DecodeOfEncode(b);
    }
  }

  /** On JavaScript strings it decides equality up to surrogates that stand alone: equality itself where there are none. */
  lemma TimingSafeEqualExactly(a: seq<Utf16.CodeUnit>, b: seq<Utf16.CodeUnit>)
    ensures TimingSafeEqualString(Utf16.TextOf(a), Utf16.TextOf(b)) <==> Utf16.Repaired(a) == Utf16.Repaired(b)
    ensures Utf16.IsWellFormed(a) && Utf16.IsWellFormed(b) ==>
            (TimingSafeEqualString(Utf16.TextOf(a), Utf16.TextOf(b)) <==> a == b)
  {
    hide TimingSafeEqualString, Utf16.Repaired, Utf16.TextOf, Utf16.IsWellFormed;
    TimingSafeEqualIsEquality(Utf16.TextOf(a), Utf16.TextOf(b));
    Utf16.SameTextExactly(a, b);
    Utf16.RepairedIsItselfExactly(a);
    Utf16.RepairedIsItselfExactly(b);
  }

  /** A surrogate that stands alone is taken for the replacement character. */
  lemma LoneSurrogateCollides()
    ensures [0xD800 as Utf16.CodeUnit] != [Utf16.REPLACEMENT]
    ensures TimingSafeEqualString(Utf16.TextOf([0xD800]), Utf16.TextOf([Utf16.REPLACEMENT]))
  {
    TimingSafeEqualIsEquality(Utf16.TextOf([0xD800]), Utf16.TextOf([Utf16.REPLACEMENT]));
    assert Utf16.TextOf([]) == "" && [0xD800 as Utf16.CodeUnit][1..] == [] && [Utf16.REPLACEMENT][1..] == [];
    hide TimingSafeEqualString;
  }

  /** The endpoint accepts exactly the well-formed verifiers whose challenge is the stored one. */
  lemma AcceptedExactly(codeChallengeMethod: string, codeChallenge: string, codeVerifier: string)
    ensures CheckVerifier(codeChallengeMethod, codeChallenge, codeVerifier) == Accepted
       <==> IsValidPkceCodeVerifier(codeVerifier)
            && codeChallenge == ComputedChallenge(codeChallengeMethod, codeVerifier)
  {
    hide ComputedChallenge, TimingSafeEqualString;
    if IsValidPkceCodeVerifier(codeVerifier) {
      TimingSafeEqualIsEquality(ComputedChallenge(codeChallengeMethod, codeVerifier), codeChallenge);
    }
  }

  /** In the terms of RFC 7636: 43 to 128 unreserved characters (section 4.1) whose S256 transformation, or the verifier
      itself for any other method, is the challenge (section 4.6). */
  lemma AcceptedByTheStandard(codeChallengeMethod: string, codeChallenge: string, codeVerifier: string)
    ensures CheckVerifier(codeChallengeMethod, codeChallenge, codeVerifier) == Accepted
       <==> && 43 <= |codeVerifier| <= 128
            && (forall i :: 0 <= i < |codeVerifier| ==>
                  var c := codeVerifier[i];
                  'A' <= c <= 'Z' || 'a' <= c <= 'z' || '0' <= c <= '9' || c == '-' || c == '.' || c == '_' || c == '~')
            && codeChallenge == if codeChallengeMethod == "S256" then UrlEncode(Sha256Bytes(Utf8.Encode(codeVerifier)))
                                else codeVerifier
  {
    hide UrlEncode, Sha256Bytes, Utf8.Encode, CheckVerifier;
    AcceptedExactly(codeChallengeMethod, codeChallenge, codeVerifier);
  }

  /** Completeness: whatever the 32 random bytes, the SDK's pair passes the endpoint's S256 check. */
  lemma SdkPairIsAccepted(random: seq<Byte>)
    requires |random| == 32
    ensures var verifier := UrlEncode(random);
            CheckVerifier("S256", ComputedChallenge("S256", verifier), verifier) == Accepted
  {
    hide UrlEncode, ComputedChallenge, CheckVerifier;
    Base64Url.UrlEncodeShape(random);
    AcceptedExactly("S256", ComputedChallenge("S256", UrlEncode(random)), UrlEncode(random));
  }

  /** Binding: two verifiers accepted for one S256 challenge have the same SHA-256 digest. */
  lemma AcceptedVerifiersCollide(codeChallenge: string, v: string, w: string)
    requires CheckVerifier("S256", codeChallenge, v) == Accepted
    requires CheckVerifier("S256", codeChallenge, w) == Accepted
    ensures Sha256Bytes(Utf8.Encode(v)) == Sha256Bytes(Utf8.Encode(w))
  {
    hide UrlEncode, Sha256Bytes, Utf8.Encode, CheckVerifier;
    AcceptedExactly("S256", codeChallenge, v);
    AcceptedExactly("S256", codeChallenge, w);
    Base64Url.UrlEncodeInjective(Sha256Bytes(Utf8.Encode(v)), Sha256Bytes(Utf8.Encode(w)));
  }
}
