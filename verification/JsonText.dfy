/** JSON texts of strings and whole numbers (ECMA-404), as JSON.stringify writes them and JSON.parse reads them. */
module JsonText {
  import opened Options

  const HEX: string := "0123456789abcdef"

  /** Quotes, backslashes and control characters are escaped. */
  function EscapeChar(c: char): string {
    if c == '"' then "\\\""
    else if c == '\\' then "\\\\"
    else if c as int == 8 then "\\b"
    else if c as int == 12 then "\\f"
    else if c == '\n' then "\\n"
    else if c == '\r' then "\\r"
    else if c == '\t' then "\\t"
    else if c as int < 32 then "\\u00" + [HEX[c as int / 16], HEX[c as int % 16]]
    else [c]
  }

  function Escape(s: string): string {
    if s == "" then "" else EscapeChar(s[0]) + Escape(s[1..])
  }

  function QuoteText(s: string): string {
    "\"" + Escape(s) + "\""
  }

  function HexValue(c: char): (r: Option<int>)
    ensures r.Some? ==> 0 <= r.value < 16
  {
    if '0' <= c <= '9' then Some(c as int - '0' as int)
    else if 'a' <= c <= 'f' then Some(c as int - 'a' as int + 10)
    else if 'A' <= c <= 'F' then Some(c as int - 'A' as int + 10)
    else None
  }

  /** The character of a \u escape; escapes of surrogates stand for no character of a stored text. */
  function HexChar(t: string): Option<char> {
    if |t| < 4 || HexValue(t[0]).None? || HexValue(t[1]).None? || HexValue(t[2]).None? || HexValue(t[3]).None? then None
    else
      var n := HexValue(t[0]).value * 4096 + HexValue(t[1]).value * 256 + HexValue(t[2]).value * 16 + HexValue(t[3]).value;
      if 0xD800 <= n < 0xE000 then None else Some(n as char)
  }

  /** A character of a string text, and how long it is there; None at the closing quote or at an error. */
  function ReadChar(t: string): (r: Option<(char, nat)>)
    ensures r.Some? ==> 1 <= r.value.1 <= |t|
  {
    if t == "" || t[0] as int < 32 || t[0] == '"' then None
    else if t[0] != '\\' then Some((t[0], 1))
    else if |t| < 2 then None
    else if t[1] == 'u' then if HexChar(t[2..]).None? then None else Some((HexChar(t[2..]).value, 6))
    else
      match t[1]
      case '"' => Some(('"', 2))
      case '\\' => Some(('\\', 2))
      case '/' => Some(('/', 2))
      case 'b' => Some((8 as char, 2))
      case 'f' => Some((12 as char, 2))
      case 'n' => Some(('\n', 2))
      case 'r' => Some(('\r', 2))
      case 't' => Some(('\t', 2))
      case _ => None
  }

  /** The string whose body the text starts with, and what follows its closing quote. */
  function ReadBody(t: string): Option<(string, string)>
    decreases |t|
  {
    if t != "" && t[0] == '"' then Some(("", t[1..]))
    else
      var first := ReadChar(t);
      if first.None? then None
      else
        var rest := ReadBody(t[first.value.1..]);
        if rest.None? then None else Some(([first.value.0] + rest.value.0, rest.value.1))
  }

  lemma ReadEscaped(c: char, rest: string)
    ensures ReadChar(EscapeChar(c) + rest).Some? && ReadChar(EscapeChar(c) + rest).value == (c, |EscapeChar(c)|)
    ensures (EscapeChar(c) + rest)[0] != '"'
  {
    if c as int < 32 && EscapeChar(c)[1] == 'u' {
      ReadControl(c, rest);
    }
  }

  lemma ReadControl(c: char, rest: string)
    requires c as int < 32 && EscapeChar(c) == "\\u00" + [HEX[c as int / 16], HEX[c as int % 16]]
    ensures ReadChar(EscapeChar(c) + rest).Some? && ReadChar(EscapeChar(c) + rest).value == (c, 6)
  {
    var t := EscapeChar(c) + rest;
    assert t[0] == '\\' && t[1] == 'u';
    var h := t[2..];
    assert h[0] == '0' && h[1] == '0' && h[2] == HEX[c as int / 16] && h[3] == HEX[c as int % 16];
    HexDigit(c as int / 16);
    HexDigit(c as int % 16);
    assert HexChar(h) == Some(c);
  }

  lemma HexDigit(n: int)
    requires 0 <= n < 16
    ensures HexValue(HEX[n]) == Some(n)
  {
  }

  lemma {:induction false} ReadEscapedBody(s: string, rest: string)
    ensures ReadBody(Escape(s) + "\"" + rest) == Some((s, rest))
  {
    hide ReadChar, EscapeChar;
    if s == "" {
      assert Escape(s) + "\"" + rest == "\"" + rest;
      assert ("\"" + rest)[1..] == rest;
    } else {
      var tail := Escape(s[1..]) + "\"" + rest;
      ReadEscaped(s[0], tail);
      assert Escape(s) + "\"" + rest == EscapeChar(s[0]) + tail;
      assert (EscapeChar(s[0]) + tail)[|EscapeChar(s[0])|..] == tail;
      ReadEscapedBody(s[1..], rest);
      assert [s[0]] + s[1..] == s;
    }
  }

  /** A quoted string, and what follows it. */
  function ReadString(t: string): Option<(string, string)> {
    if t == "" || t[0] != '"' then None else ReadBody(t[1..])
  }

  lemma ReadOfQuoted(s: string, rest: string)
    ensures ReadString(QuoteText(s) + rest) == Some((s, rest))
  {
    ReadEscapedBody(s, rest);
    assert (QuoteText(s) + rest)[1..] == Escape(s) + "\"" + rest;
  }

  function Digit(n: int): char
    requires 0 <= n < 10
  {
    (n + '0' as int) as char
  }

  predicate IsDigit(c: char) {
    '0' <= c <= '9'
  }

  function DecimalText(n: nat): string {
    if n < 10 then [Digit(n)] else DecimalText(n / 10) + [Digit(n % 10)]
  }

  function IntText(n: int): string {
    if n < 0 then "-" + DecimalText(-n) else DecimalText(n)
  }

  /** The digits the text starts with. */
  function DigitRun(t: string): (n: nat)
    ensures n <= |t|
  {
    if t == "" || !IsDigit(t[0]) then 0 else 1 + DigitRun(t[1..])
  }

  function ValueOf(digits: string): nat
    requires forall i :: 0 <= i < |digits| ==> IsDigit(digits[i])
  {
    if digits == "" then 0
    else
      assert IsDigit(digits[|digits| - 1]);
      ValueOf(digits[..|digits| - 1]) * 10 + (digits[|digits| - 1] as int - '0' as int)
  }

  lemma {:induction false} RunIsDigits(t: string)
    ensures forall i :: 0 <= i < DigitRun(t) ==> IsDigit(t[i])
  {
    if t != "" && IsDigit(t[0]) {
      RunIsDigits(t[1..]);
    }
  }

  /** A whole number without a leading zero, and what follows it. */
  function ReadNat(t: string): Option<(nat, string)> {
    var n := DigitRun(t);
    RunIsDigits(t);
    if n == 0 || (n > 1 && t[0] == '0') then None else Some((ValueOf(t[..n]), t[n..]))
  }

  function ReadInt(t: string): Option<(int, string)> {
    if t != "" && t[0] == '-' then
      var r := ReadNat(t[1..]);
      if r.None? then None
      else
        var n: int := r.value.0;
        Some((-n, r.value.1))
    else
      var r := ReadNat(t);
      if r.None? then None
      else
        var n: int := r.value.0;
        Some((n, r.value.1))
  }

  lemma {:induction false} DecimalIsRead(n: nat)
    ensures var t := DecimalText(n);
            && (forall i :: 0 <= i < |t| ==> IsDigit(t[i])) && ValueOf(t) == n
            && |t| >= 1 && (t[0] == '0' <==> n == 0) && (n < 10 <==> |t| == 1)
  {
    if n >= 10 {
      DecimalIsRead(n / 10);
      assert DecimalText(n)[..|DecimalText(n)| - 1] == DecimalText(n / 10);
    } else {
      assert [Digit(n)][..0] == "";
    }
  }

  lemma {:induction false} RunOfDigits(digits: string, rest: string)
    requires forall i :: 0 <= i < |digits| ==> IsDigit(digits[i])
    requires rest == "" || !IsDigit(rest[0])
    ensures DigitRun(digits + rest) == |digits|
  {
    if digits == "" {
      assert digits + rest == rest;
    } else {
      assert (digits + rest)[1..] == digits[1..] + rest;
      RunOfDigits(digits[1..], rest);
    }
  }

  lemma ReadOfInt(n: int, rest: string)
    requires rest == "" || !IsDigit(rest[0])
    ensures ReadInt(IntText(n) + rest) == Some((n, rest))
  {
    hide DecimalText, ReadNat;
    var m := if n < 0 then -n else n;
    var t := DecimalText(m);
    ReadOfNat(m, rest);
    DecimalIsRead(m);
    if n < 0 {
      assert (IntText(n) + rest)[1..] == t + rest;
    } else {
      assert IsDigit((t + rest)[0]);
    }
  }

  lemma ReadOfNat(n: nat, rest: string)
    requires rest == "" || !IsDigit(rest[0])
    ensures ReadNat(DecimalText(n) + rest) == Some((n, rest))
  {
    hide DecimalText, DigitRun, ValueOf;
    var t := DecimalText(n);
    DecimalIsRead(n);
    RunOfDigits(t, rest);
    assert (t + rest)[..|t|] == t && (t + rest)[|t|..] == rest;
    assert (t + rest)[0] == t[0];
  }
}
