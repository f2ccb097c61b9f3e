/** Scope strings (ave-server/src/lib/oauth-scopes.ts), for tokens without percent escapes. */
module OauthScopes {

  /** What `trim` and `\s` take for white space. */
  predicate IsSpace(c: char) {
    var n := c as int;
    || n == 32 || 9 <= n <= 13 || n == 0xA0 || n == 0x1680 || 0x2000 <= n <= 0x200A || n == 0x2028 || n == 0x2029
    || n == 0x202F || n == 0x205F || n == 0x3000 || n == 0xFEFF
  }

  function TrimStart(s: string): string {
    if s != "" && IsSpace(s[0]) then TrimStart(s[1..]) else s
  }

  function TrimEnd(s: string): string {
    if s != "" && IsSpace(s[|s| - 1]) then TrimEnd(s[..|s| - 1]) else s
  }

  /** normalizeScopeToken; without a percent escape only the trim remains. */
  function NormalizeScopeToken(scope: string): string {
    TrimEnd(TrimStart(scope))
  }

  /** The maximal runs of characters that are neither `+` nor white space; word is the run read so far. */
  function Words(s: string, word: string): seq<string>
    decreases |s|
  {
    if s == "" then if word == "" then [] else [word]
    else if s[0] == '+' || IsSpace(s[0]) then (if word == "" then [] else [word]) + Words(s[1..], "")
    else Words(s[1..], word + [s[0]])
  }

  /** parseOAuthScopes: `+` becomes a space, the string is split at white space, empty tokens are dropped. */
  function ParseOAuthScopes(scope: string): seq<string> {
    Words(scope, "")
  }

  /** `tokens.join(" ")` */
  function Join(tokens: seq<string>): string {
    if tokens == [] then ""
    else if |tokens| == 1 then tokens[0]
    else tokens[0] + " " + Join(tokens[1..])
  }

  predicate CleanToken(t: string) {
    t != "" && forall i :: 0 <= i < |t| ==> t[i] != '+' && t[i] != '%' && !IsSpace(t[i])
  }

  predicate CleanTokens(tokens: seq<string>) {
    forall i :: 0 <= i < |tokens| ==> CleanToken(tokens[i])
  }

  /** Reading a clean token moves it into the word. */
  lemma {:induction false} WordsOfToken(t: string, rest: string, word: string)
    requires forall i :: 0 <= i < |t| ==> t[i] != '+' && !IsSpace(t[i])
    ensures Words(t + rest, word) == Words(rest, word + t)
    decreases |t|
  {
    if t == "" {
      assert t + rest == rest && word + t == word;
    } else {
      WordsOfToken(t[1..], rest, word + [t[0]]);
      assert (t + rest)[1..] == t[1..] + rest;
      assert word + [t[0]] + t[1..] == word + t;
    }
  }

  /** Parsing undoes joining on clean tokens. */
  lemma {:induction false} ParseOfJoin(tokens: seq<string>)
    requires CleanTokens(tokens)
    ensures ParseOAuthScopes(Join(tokens)) == tokens
  {
    if |tokens| == 1 {
      WordsOfToken(tokens[0], "", "");
      assert tokens[0] + "" == tokens[0] && "" + tokens[0] == tokens[0];
    } else if |tokens| > 1 {
      var rest := Join(tokens[1..]);
      assert CleanToken(tokens[0]);
      WordsOfToken(tokens[0], " " + rest, "");
      assert tokens[0] + " " + rest == tokens[0] + (" " + rest) && "" + tokens[0] == tokens[0];
      assert (" " + rest)[1..] == rest;
      ParseOfJoin(tokens[1..]);
      assert tokens == [tokens[0]] + tokens[1..];
    }
  }

  /** Every parsed token is clean of separators, and parsing is stable under joining again. */
  lemma {:induction false} WordsAreTokens(s: string, word: string)
    requires forall i :: 0 <= i < |word| ==> word[i] != '+' && !IsSpace(word[i])
    ensures forall k :: 0 <= k < |Words(s, word)| ==>
              Words(s, word)[k] != ""
              && forall i :: 0 <= i < |Words(s, word)[k]| ==>
                   Words(s, word)[k][i] != '+' && !IsSpace(Words(s, word)[k][i])
    decreases |s|
  {
    if s != "" {
      if s[0] == '+' || IsSpace(s[0]) {
        WordsAreTokens(s[1..], "");
      } else {
        WordsAreTokens(s[1..], word + [s[0]]);
      }
    }
  }

  predicate IsSeparator(c: char) {
    c == '+' || IsSpace(c)
  }

  /** A separator splits a text: the tokens before it, then those behind it. */
  lemma {:induction false} WordsSplit(a: string, c: char, b: string, word: string)
    requires IsSeparator(c)
    ensures Words(a + [c] + b, word) == Words(a, word) + Words(b, "")
    decreases |a|
  {
    if a == "" {
      assert "" + [c] + b == [c] + b && ([c] + b)[1..] == b;
    } else {
      assert (a + [c] + b)[0] == a[0] && (a + [c] + b)[1..] == a[1..] + [c] + b;
      if IsSeparator(a[0]) {
        WordsSplit(a[1..], c, b, "");
      } else {
        WordsSplit(a[1..], c, b, word + [a[0]]);
      }
    }
  }

  /** Parsing cuts a text exactly at plus signs and white space, and a text without any is its own token. */
  lemma ParseCutsAtSeparators(a: string, c: char, b: string)
    requires IsSeparator(c)
    ensures ParseOAuthScopes(a + [c] + b) == ParseOAuthScopes(a) + ParseOAuthScopes(b)
    ensures a != "" && (forall i :: 0 <= i < |a| ==> !IsSeparator(a[i])) ==> ParseOAuthScopes(a) == [a]
  {
    WordsSplit(a, c, b, "");
    if a != "" && forall i :: 0 <= i < |a| ==> !IsSeparator(a[i]) {
      WordsOfToken(a, "", "");
      assert a + "" == a && "" + a == a;
    }
  }

  predicate AllSpace(s: string) {
    forall i :: 0 <= i < |s| ==> IsSpace(s[i])
  }

  lemma {:induction false} TrimmedStart(s: string) returns (lead: string)
    ensures s == lead + TrimStart(s) && AllSpace(lead)
    ensures TrimStart(s) != "" ==> !IsSpace(TrimStart(s)[0])
  {
    if s != "" && IsSpace(s[0]) {
      var rest := TrimmedStart(s[1..]);
      lead := [s[0]] + rest;
    } else {
      lead := "";
    }
  }

  lemma {:induction false} TrimmedEnd(s: string) returns (tail: string)
    ensures s == TrimEnd(s) + tail && AllSpace(tail)
    ensures TrimEnd(s) != "" ==> !IsSpace(TrimEnd(s)[|TrimEnd(s)| - 1])
  {
    if s != "" && IsSpace(s[|s| - 1]) {
      var rest := TrimmedEnd(s[..|s| - 1]);
      tail := rest + [s[|s| - 1]];
    } else {
      tail := "";
    }
  }

  /** Normalizing a scope takes the white space at both ends away, and nothing else. */
  lemma NormalizingTrims(scope: string) returns (lead: string, tail: string)
    ensures scope == lead + NormalizeScopeToken(scope) + tail && AllSpace(lead) && AllSpace(tail)
    ensures var t := NormalizeScopeToken(scope); t != "" ==> !IsSpace(t[0]) && !IsSpace(t[|t| - 1])
  {
    lead := TrimmedStart(scope);
    tail := TrimmedEnd(TrimStart(scope));
  }
}
