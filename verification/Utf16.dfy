/** JavaScript strings: sequences of UTF-16 code units, in which a surrogate may stand alone. */
module Utf16 {

  type CodeUnit = n: int | 0 <= n < 0x1_0000

  const REPLACEMENT: CodeUnit := 0xFFFD

  predicate IsLead(u: CodeUnit) {
    0xD800 <= u < 0xDC00
  }

  predicate IsTrail(u: CodeUnit) {
    0xDC00 <= u < 0xE000
  }

  predicate StartsWithPair(s: seq<CodeUnit>) {
    |s| >= 2 && IsLead(s[0]) && IsTrail(s[1])
  }

  function PairValue(lead: CodeUnit, trail: CodeUnit): int {
    (lead - 0xD800) * 0x400 + (trail - 0xDC00) + 0x1_0000
  }

  /** The text Buffer.from and TextEncoder take a string for: a surrogate without its partner becomes U+FFFD. */
  function TextOf(s: seq<CodeUnit>): string
    decreases |s|
  {
    if s == [] then ""
    else if StartsWithPair(s) then [PairValue(s[0], s[1]) as char] + TextOf(s[2..])
    else [(if IsLead(s[0]) || IsTrail(s[0]) then REPLACEMENT else s[0]) as char] + TextOf(s[1..])
  }

  /** The string with every surrogate that stands alone replaced (`toWellFormed`). */
  function Repaired(s: seq<CodeUnit>): seq<CodeUnit>
    decreases |s|
  {
    if s == [] then []
    else if StartsWithPair(s) then [s[0], s[1]] + Repaired(s[2..])
    else [if IsLead(s[0]) || IsTrail(s[0]) then REPLACEMENT else s[0]] + Repaired(s[1..])
  }

  /** No surrogate stands alone (`isWellFormed`). */
  predicate IsWellFormed(s: seq<CodeUnit>)
    decreases |s|
  {
    s == []
    || (StartsWithPair(s) && IsWellFormed(s[2..]))
    || (!IsLead(s[0]) && !IsTrail(s[0]) && IsWellFormed(s[1..]))
  }

  function UnitsOfChar(c: char): seq<CodeUnit> {
    var n := c as int;
    if n < 0x1_0000 then [n] else [0xD800 + (n - 0x1_0000) / 0x400, 0xDC00 + (n - 0x1_0000) % 0x400]
  }

  function UnitsOf(t: string): seq<CodeUnit> {
    if t == "" then [] else UnitsOfChar(t[0]) + UnitsOf(t[1..])
  }

  lemma UnitsOfPair(lead: CodeUnit, trail: CodeUnit)
    requires IsLead(lead) && IsTrail(trail)
    ensures UnitsOfChar(PairValue(lead, trail) as char) == [lead, trail]
  {
    var n := PairValue(lead, trail) - 0x1_0000;
    assert n == (lead - 0xD800) * 0x400 + (trail - 0xDC00);
    assert n / 0x400 == lead - 0xD800 && n % 0x400 == trail - 0xDC00;
  }

  /** Writing the text back gives the repaired string. */
  lemma {:induction false} UnitsOfText(s: seq<CodeUnit>)
    ensures UnitsOf(TextOf(s)) == Repaired(s)
    decreases |s|
  {
    if s != [] {
      if StartsWithPair(s) {
        UnitsOfPair(s[0], s[1]);
        UnitsOfText(s[2..]);
        assert TextOf(s)[1..] == TextOf(s[2..]);
      } else {
        UnitsOfText(s[1..]);
        assert TextOf(s)[1..] == TextOf(s[1..]);
      }
    }
  }

  lemma {:induction false} TextOfRepaired(s: seq<CodeUnit>)
    ensures TextOf(Repaired(s)) == TextOf(s)
    decreases |s|
  {
    if s != [] {
      if StartsWithPair(s) {
        TextOfRepaired(s[2..]);
        assert Repaired(s)[2..] == Repaired(s[2..]);
      } else {
        TextOfRepaired(s[1..]);
        assert Repaired(s)[1..] == Repaired(s[1..]);
      }
    }
  }

  /** Repairing changes nothing exactly when no surrogate stands alone. */
  lemma {:induction false} RepairedIsItselfExactly(s: seq<CodeUnit>)
    ensures Repaired(s) == s <==> IsWellFormed(s)
    decreases |s|
  {
    if s != [] {
      if StartsWithPair(s) {
        RepairedIsItselfExactly(s[2..]);
        assert s == [s[0], s[1]] + s[2..] && Repaired(s)[2..] == Repaired(s[2..]);
      } else {
        RepairedIsItselfExactly(s[1..]);
        assert s == [s[0]] + s[1..] && Repaired(s)[1..] == Repaired(s[1..]);
        assert Repaired(s)[0] == if IsLead(s[0]) || IsTrail(s[0]) then REPLACEMENT else s[0];
      }
    }
  }

  /** Two strings are one text exactly when they are equal once repaired. */
  lemma SameTextExactly(a: seq<CodeUnit>, b: seq<CodeUnit>)
    ensures TextOf(a) == TextOf(b) <==> Repaired(a) == Repaired(b)
  {
    UnitsOfText(a);
    UnitsOfText(b);
    TextOfRepaired(a);
    TextOfRepaired(b);
  }
}
