/**
 * What a failed refresh tells the session: the error refreshAccessToken throws
 * (sdks/ave-sdk/src/oauth-token.ts) and the test that decides whether the session signs out on it
 * (sdks/ave-sdk/src/session.ts).
 */
module RefreshErrors {
  import opened Options
  import JsonText

  /** The error and error_description members, written out as text; an absent one is empty. */
  datatype ErrorFields = ErrorFields(error: string, description: string)

  /** The body of a response that is not ok; fields is None if it is not the JSON text of an object. */
  datatype ErrorBody = ErrorBody(raw: string, fields: Option<ErrorFields>)

  /** A response that is not ok, or anything else that makes the request throw. */
  datatype Failure = HttpError(status: nat, statusText: string, body: ErrorBody) | OtherError(message: string)

  /** The description if there is one, otherwise the error code, otherwise the start of the body. */
  function Detail(body: ErrorBody): string {
    if body.fields.Some? && body.fields.value.description != "" then body.fields.value.description
    else if body.fields.Some? && body.fields.value.error != "" then body.fields.value.error
    else if |body.raw| > 500 then body.raw[..500]
    else body.raw
  }

  function Message(failure: Failure): string {
    match failure
    case OtherError(message) => message
    case HttpError(status, statusText, body) =>
      "Failed to refresh token (" + JsonText.DecimalText(status) + " " + statusText + ")"
        + if Detail(body) == "" then "" else ": " + Detail(body)
  }

  /** The i flag of a regular expression, on the letters the pattern has. */
  function Fold(c: char): char {
    if 'A' <= c <= 'Z' then (c as int + 32) as char else c
  }

  /** What `.` does not match. */
  predicate IsLineBreak(c: char) {
    c == '\n' || c == '\r' || c as int == 0x2028 || c as int == 0x2029
  }

  predicate Occurs(s: string, i: nat, word: string) {
    i + |word| <= |s| && forall k :: 0 <= k < |word| ==> Fold(s[i + k]) == word[k]
  }

  predicate Contains(s: string, word: string) {
    exists i :: 0 <= i < |s| && Occurs(s, i, word)
  }

  predicate OnOneLine(s: string, i: int, j: int)
    requires 0 <= i && j <= |s|
  {
    forall k :: i <= k < j ==> !IsLineBreak(s[k])
  }

  predicate RefreshFollows(s: string, i: nat) {
    exists j :: i <= j < |s| && Occurs(s, j, "refresh") && OnOneLine(s, i, j)
  }

  predicate InvalidAt(s: string, i: nat) {
    Occurs(s, i, "invalid") && RefreshFollows(s, i + 7)
  }

  predicate InvalidRefresh(s: string) {
    exists i :: 0 <= i < |s| && InvalidAt(s, i)
  }

  /** /invalid_grant|invalid.*refresh|unauthorized/i */
  predicate Matches(s: string) {
    Contains(s, "invalid_grant") || InvalidRefresh(s) || Contains(s, "unauthorized")
  }

  /** shouldSignOutAfterRefreshError */
  predicate ShouldSignOut(failure: Failure) {
    (failure.HttpError? && failure.status == 401) || Matches(Message(failure))
  }

  /** An "invalid" that a "refresh" behind the text can complete, and a text that completes one. */
  predicate OpensAt(s: string, i: nat) {
    Occurs(s, i, "invalid") && OnOneLine(s, i + 7, |s|)
  }

  predicate Opens(s: string) {
    exists i :: 0 <= i < |s| && OpensAt(s, i)
  }

  predicate Closes(s: string) {
    RefreshFollows(s, 0)
  }

  predicate Separates(c: char) {
    c == ' ' || c == ')' || c == ':'
  }

  predicate FreeOf(word: string, c: char) {
    forall k :: 0 <= k < |word| ==> word[k] != c
  }

  /** A word cannot lie across a separator it does not have. */
  lemma OccursBeside(a: string, c: char, b: string, i: nat, word: string)
    requires Separates(c) && FreeOf(word, c)
    ensures Occurs(a + [c] + b, i, word) ==> i + |word| <= |a| || i > |a|
    ensures i + |word| <= |a| ==> (Occurs(a + [c] + b, i, word) <==> Occurs(a, i, word))
    ensures i > |a| ==> (Occurs(a + [c] + b, i, word) <==> Occurs(b, i - |a| - 1, word))
  {
    var s := a + [c] + b;
    assert s[|a|] == c && Fold(c) == c;
    if i <= |a| < i + |word| {
      assert Fold(c) != word[|a| - i];
      assert i + |word| <= |s| ==> Fold(s[i + (|a| - i)]) != word[|a| - i];
    }
    assert forall m :: |a| < m < |s| ==> s[m] == b[m - |a| - 1];
  }

  lemma ContainsBeside(a: string, c: char, b: string, word: string)
    requires Separates(c) && FreeOf(word, c) && word != ""
    ensures Contains(a + [c] + b, word) <==> Contains(a, word) || Contains(b, word)
  {
    var s := a + [c] + b;
    forall i: nat ensures Occurs(s, i, word) ==> Occurs(a, i, word) || (i > |a| && Occurs(b, i - |a| - 1, word)) {
      OccursBeside(a, c, b, i, word);
    }
    forall i: nat ensures Occurs(a, i, word) ==> Occurs(s, i, word) {
      OccursBeside(a, c, b, i, word);
    }
    forall i: nat ensures Occurs(b, i, word) ==> Occurs(s, |a| + 1 + i, word) {
      OccursBeside(a, c, b, |a| + 1 + i, word);
    }
    hide Occurs;
  }

  lemma LineBeside(a: string, c: char, b: string, i: nat, j: nat)
    requires Separates(c) && i <= j <= |a| + 1 + |b|
    ensures j <= |a| ==> (OnOneLine(a + [c] + b, i, j) <==> OnOneLine(a, i, j))
    ensures i <= |a| < j ==> (OnOneLine(a + [c] + b, i, j) <==> OnOneLine(a, i, |a|) && OnOneLine(b, 0, j - |a| - 1))
    ensures i > |a| ==> (OnOneLine(a + [c] + b, i, j) <==> OnOneLine(b, i - |a| - 1, j - |a| - 1))
  {
    var s := a + [c] + b;
    assert forall k :: 0 <= k < |a| ==> a[k] == s[k];
    assert forall k :: |a| < k < |s| ==> s[k] == b[k - |a| - 1];
    assert s[|a|] == c;
    forall k | 0 <= k < |b| ensures b[k] == s[|a| + 1 + k] {
    }
  }

  lemma FollowsBeside(a: string, c: char, b: string, i: nat)
    requires Separates(c)
    ensures i <= |a| ==> (RefreshFollows(a + [c] + b, i)
              <==> RefreshFollows(a, i) || (OnOneLine(a, i, |a|) && Closes(b)))
    ensures i > |a| ==> (RefreshFollows(a + [c] + b, i) <==> RefreshFollows(b, i - |a| - 1))
  {
    var s := a + [c] + b;
    assert FreeOf("refresh", c);
    forall j: nat {
      OccursBeside(a, c, b, j, "refresh");
    }
    forall j: nat | i <= j < |s| {
      LineBeside(a, c, b, i, j);
    }
    hide Occurs, OnOneLine;
    if i > |a| {
      if j :| i - |a| - 1 <= j < |b| && Occurs(b, j, "refresh") && OnOneLine(b, i - |a| - 1, j) {
        assert Occurs(s, |a| + 1 + j, "refresh");
      }
    } else {
      if j :| i <= j < |a| && Occurs(a, j, "refresh") && OnOneLine(a, i, j) {
        assert Occurs(s, j, "refresh") && OnOneLine(s, i, j);
      }
      if j :| 0 <= j < |b| && Occurs(b, j, "refresh") && OnOneLine(b, 0, j) {
        assert Occurs(s, |a| + 1 + j, "refresh");
      }
    }
  }

  lemma InvalidBeside(a: string, c: char, b: string)
    requires Separates(c)
    ensures InvalidRefresh(a + [c] + b) <==> InvalidRefresh(a) || InvalidRefresh(b) || (Opens(a) && Closes(b))
  {
    var s := a + [c] + b;
    forall i: nat
      ensures InvalidAt(s, i) ==> InvalidAt(a, i) || (OpensAt(a, i) && Closes(b)) || (i > |a| && InvalidAt(b, i - |a| - 1))
      ensures InvalidAt(a, i) || (OpensAt(a, i) && Closes(b)) ==> InvalidAt(s, i)
    {
      OccursBeside(a, c, b, i, "invalid");
      FollowsBeside(a, c, b, i + 7);
    }
    forall i: nat ensures InvalidAt(b, i) ==> InvalidAt(s, |a| + 1 + i) {
      OccursBeside(a, c, b, |a| + 1 + i, "invalid");
      FollowsBeside(a, c, b, |a| + 1 + i + 7);
    }
    assert forall i: nat :: InvalidAt(a, i) ==> i < |a|;
    hide InvalidAt, OpensAt, Closes;
  }

  /** Where a text is cut at a separator, only the three dots of the pattern reach across. */
  lemma MatchesBeside(a: string, c: char, b: string)
    requires Separates(c)
    ensures Matches(a + [c] + b) <==> Matches(a) || Matches(b) || (Opens(a) && Closes(b))
  {
    InvalidBeside(a, c, b);
    ContainsBeside(a, c, b, "invalid_grant");
    ContainsBeside(a, c, b, "unauthorized");
  }

  predicate Lacks(s: string, c: char) {
    forall k :: 0 <= k < |s| ==> Fold(s[k]) != c
  }

  lemma LacksWord(s: string, word: string, at: nat)
    requires at < |word| && Lacks(s, word[at])
    ensures !Contains(s, word)
  {
    forall i: nat ensures !Occurs(s, i, word) {
      assert i + |word| <= |s| ==> Fold(s[i + at]) != word[at];
    }
  }

  lemma LacksInvalid(s: string, at: nat)
    requires at < 7 && Lacks(s, "invalid"[at])
    ensures !Opens(s) && !InvalidRefresh(s) && !Contains(s, "invalid_grant")
  {
    LacksWord(s, "invalid", at);
    LacksWord(s, "invalid_grant", at);
  }

  lemma {:induction false} DecimalIsDigits(n: nat)
    ensures forall k :: 0 <= k < |JsonText.DecimalText(n)| ==> JsonText.IsDigit(JsonText.DecimalText(n)[k])
  {
    if n >= 10 {
      DecimalIsDigits(n / 10);
    }
  }

  /** The words every message starts with match nothing and open nothing. */
  lemma LeadIsQuiet(status: nat)
    ensures var lead := "Failed to refresh token (" + JsonText.DecimalText(status);
            !Matches(lead) && !Opens(lead)
  {
    var lead := "Failed to refresh token (" + JsonText.DecimalText(status);
    DecimalIsDigits(status);
    assert Lacks(lead, 'v') && Lacks(lead, 'z');
    LacksInvalid(lead, 2);
    LacksWord(lead, "unauthorized", 9);
  }

  /**
   * A failed response signs the tab out exactly when its status is 401, or its status text or the detail
   * of its body matches, or the two complete each other.
   */
  lemma SignsOutExactly(status: nat, statusText: string, body: ErrorBody)
    ensures ShouldSignOut(HttpError(status, statusText, body)) <==>
            status == 401 || Matches(statusText) || Matches(Detail(body)) || (Opens(statusText) && Closes(Detail(body)))
  {
    var lead := "Failed to refresh token (" + JsonText.DecimalText(status);
    var detail := Detail(body);
    var tail := if detail == "" then "" else ": " + detail;
    hide Detail, Matches, Opens, Closes;
    LeadIsQuiet(status);
    MatchesBeside(lead, ' ', statusText + [')'] + tail);
    assert lead + [' '] + (statusText + [')'] + tail) == Message(HttpError(status, statusText, body));
    MatchesBeside(statusText, ')', tail);
    TailIsDetail(detail, tail);
  }

  lemma TailIsDetail(detail: string, tail: string)
    requires tail == if detail == "" then "" else ": " + detail
    ensures Matches(tail) <==> Matches(detail)
    ensures Closes(tail) <==> Closes(detail)
  {
    if detail != "" {
      assert tail == "" + [':'] + ("" + [' '] + detail);
      MatchesBeside("", ':', "" + [' '] + detail);
      MatchesBeside("", ' ', detail);
      FollowsBeside("", ':', "" + [' '] + detail, 0);
      FollowsBeside("", ' ', detail, 0);
    }
  }

  /** The refusals of handleRefreshToken. */
  datatype Refusal =
    | TokenNotFound
    | ClientNotFound
    | WrongSecret
    | WrongOrigin
    | TokenRevoked
    | TokenExpired
    | MembershipEnded
    | SsoRequired
    | AlreadyUsed

  function Status(refusal: Refusal): nat {
    if refusal.MembershipEnded? || refusal.SsoRequired? then 403 else 400
  }

  function ReasonPhrase(refusal: Refusal): string {
    if Status(refusal) == 403 then "Forbidden" else "Bad Request"
  }

  function ErrorCode(refusal: Refusal): string {
    match refusal
    case TokenNotFound => "invalid_grant"
    case ClientNotFound => "invalid_client"
    case WrongSecret => "invalid_client"
    case WrongOrigin => "invalid_client"
    case TokenRevoked => "invalid_grant"
    case TokenExpired => "invalid_grant"
    case MembershipEnded => "access_denied"
    case SsoRequired => "enterprise_sso_required"
    case AlreadyUsed => "invalid_grant"
  }

  function Description(refusal: Refusal): string {
    match refusal
    case TokenNotFound => "Refresh token not found"
    case ClientNotFound => "Client not found"
    case WrongSecret => "Invalid client secret"
    case WrongOrigin => "Request origin is not " + "allowed for this client"
    case TokenRevoked => "Refresh token revoked"
    case TokenExpired => "Refresh token expired"
    case MembershipEnded => "Organization membership " + "is no longer active"
    case SsoRequired => "This organization now " + "requires enterprise SSO " + "before refreshing " + "organization context."
    case AlreadyUsed => "Refresh token was already used"
  }

  /** HTTP/2 carries no status text. */
  predicate IsStatusText(refusal: Refusal, statusText: string) {
    statusText == "" || statusText == ReasonPhrase(refusal)
  }

  /** The response as the tab sees it; raw is its text. */
  function Refuse(refusal: Refusal, statusText: string, raw: string): Failure {
    HttpError(Status(refusal), statusText, ErrorBody(raw, Some(ErrorFields(ErrorCode(refusal), Description(refusal)))))
  }

  /** A text that lacks a letter of "invalid" and one of "unauthorized" does not match. */
  lemma WithoutLetters(s: string, at: nat, from: nat)
    requires at < 7 && Lacks(s, "invalid"[at])
    requires from < 12 && Lacks(s, "unauthorized"[from])
    ensures !Matches(s)
  {
    LacksInvalid(s, at);
    LacksWord(s, "unauthorized", from);
  }

  lemma WrongSecretIsQuiet()
    ensures !Matches("Invalid client secret")
  {
    var s := "Invalid client secret";
    assert Lacks(s, 'h') && Lacks(s, 'g');
    LacksWord(s, "refresh", 6);
    LacksWord(s, "invalid_grant", 8);
    LacksWord(s, "unauthorized", 5);
  }

  lemma LacksBoth(a: string, b: string, c: char)
    requires Lacks(a, c) && Lacks(b, c)
    ensures Lacks(a + b, c)
  {
  }

  lemma WrongOriginIsQuiet()
    ensures !Matches(Description(WrongOrigin))
  {
    LacksBoth("Request origin is not ", "allowed for this client", 'v');
    LacksBoth("Request origin is not ", "allowed for this client", 'z');
    hide Lacks;
    WithoutLetters(Description(WrongOrigin), 2, 9);
  }

  lemma MembershipEndedIsQuiet()
    ensures !Matches(Description(MembershipEnded))
  {
    LacksBoth("Organization membership ", "is no longer active", 'd');
    hide Lacks;
    WithoutLetters(Description(MembershipEnded), 6, 11);
  }

  lemma SsoRequiredIsQuiet()
    ensures !Matches(Description(SsoRequired))
  {
    LacksBoth("This organization now ", "requires enterprise SSO ", 'd');
    LacksBoth("before refreshing ", "organization context.", 'd');
    hide Lacks;
    var start, end := "This organization now " + "requires enterprise SSO ", "before refreshing " + "organization context.";
    LacksBoth(start, end, 'd');
    assert Description(SsoRequired) == start + end;
    WithoutLetters(Description(SsoRequired), 6, 11);
  }

  lemma NotFoundIsQuiet()
    ensures !Matches("Refresh token not found") && !Matches("Client not found")
  {
    hide Matches;
    WithoutLetters("Refresh token not found", 3, 2);
    WithoutLetters("Client not found", 3, 2);
  }

  lemma DeadTokenIsQuiet()
    ensures !Matches("Refresh token revoked") && !Matches("Refresh token expired")
    ensures !Matches("Refresh token was already used")
  {
    hide Matches;
    WithoutLetters("Refresh token revoked", 3, 2);
    WithoutLetters("Refresh token expired", 3, 2);
    WithoutLetters("Refresh token was already used", 0, 8);
  }

  lemma DescriptionsAreQuiet(refusal: Refusal)
    ensures Description(refusal) != "" && !Matches(Description(refusal))
  {
    WrongSecretIsQuiet();
    WrongOriginIsQuiet();
    MembershipEndedIsQuiet();
    SsoRequiredIsQuiet();
    NotFoundIsQuiet();
    DeadTokenIsQuiet();
    hide Matches;
  }

  /** A refusal of the handler signs the tab out exactly when the status text does so by itself or begins what
      the description completes: the description alone never does. */
  lemma RefusalSignsOutExactly(refusal: Refusal, statusText: string, raw: string)
    ensures ShouldSignOut(Refuse(refusal, statusText, raw)) <==>
            Matches(statusText) || (Opens(statusText) && Closes(Description(refusal)))
  {
    DescriptionsAreQuiet(refusal);
    SignsOutExactly(Status(refusal), statusText, Refuse(refusal, statusText, raw).body);
    hide Matches, Opens, Closes;
  }

  /** With the status texts HTTP knows, or none, no refusal of the handler signs the tab out. */
  lemma RefusalKeepsTheSession(refusal: Refusal, statusText: string, raw: string)
    requires IsStatusText(refusal, statusText)
    ensures !ShouldSignOut(Refuse(refusal, statusText, raw))
  {
    assert Lacks(statusText, 'v') && Lacks(statusText, 'z');
    LacksInvalid(statusText, 2);
    WithoutLetters(statusText, 2, 9);
    RefusalSignsOutExactly(refusal, statusText, raw);
    hide ShouldSignOut, Matches;
  }

  /** The refusal of a token that was used twice, as the tab that sent it sees it. */
  lemma RevokedTokenKeepsTheSession(raw: string)
    ensures var failure := Refuse(TokenRevoked, "Bad Request", raw);
            && failure.body.fields == Some(ErrorFields("invalid_grant", "Refresh token revoked"))
            && Message(failure) == "Failed to refresh token (" + "400" + " " + "Bad Request" + ")"
                                     + (": " + "Refresh token revoked")
            && !ShouldSignOut(failure)
  {
    assert JsonText.DecimalText(400) == "400";
    RefusalKeepsTheSession(TokenRevoked, "Bad Request", raw);
    hide ShouldSignOut;
  }

  /** What fetch throws when the network fails. */
  lemma NetworkErrorKeepsTheSession()
    ensures !ShouldSignOut(OtherError("Failed to fetch"))
  {
    WithoutLetters("Failed to fetch", 2, 9);
  }

  /** The error code invalid_grant is noticed exactly when no description hides it, or the description itself matches. */
  lemma InvalidGrantSignsOutExactly(statusText: string, description: string, raw: string)
    requires statusText == "" || statusText == "Bad Request"
    ensures var body := ErrorBody(raw, Some(ErrorFields("invalid_grant", description)));
            ShouldSignOut(HttpError(400, statusText, body)) <==> description == "" || Matches(description)
  {
    var body := ErrorBody(raw, Some(ErrorFields("invalid_grant", description)));
    assert Lacks(statusText, 'v') && Lacks(statusText, 'z');
    LacksInvalid(statusText, 2);
    WithoutLetters(statusText, 2, 9);
    assert Occurs("invalid_grant", 0, "invalid_grant");
    SignsOutExactly(400, statusText, body);
    hide ShouldSignOut;
  }

  /** What is tested besides the status text: the description if there is one, else the code, else the first 500
      characters of the body. */
  lemma DetailIsTheFirstText(body: ErrorBody)
    ensures body.fields.Some? && body.fields.value.description != "" ==> Detail(body) == body.fields.value.description
    ensures body.fields.Some? && body.fields.value.description == "" && body.fields.value.error != ""
            ==> Detail(body) == body.fields.value.error
    ensures body.fields.None? || body.fields == Some(ErrorFields("", "")) ==>
              Detail(body) <= body.raw && |Detail(body)| == if |body.raw| < 500 then |body.raw| else 500
  {
  }

  lemma ClientCodeIsQuiet()
    ensures !Matches("invalid_client")
  {
    var s := "invalid_client";
    assert Lacks(s, 'f') && Lacks(s, 'g') && Lacks(s, 'u');
    LacksWord(s, "refresh", 2);
    LacksWord(s, "invalid_grant", 8);
    LacksWord(s, "unauthorized", 0);
  }

  lemma OtherCodesAreQuiet()
    ensures !Matches("access_denied") && !Matches("enterprise_sso_required")
  {
    WithoutLetters("access_denied", 2, 0);
    WithoutLetters("enterprise_sso_required", 2, 9);
  }

  lemma GrantCodeMatches()
    ensures Matches("invalid_grant")
  {
    assert Occurs("invalid_grant", 0, "invalid_grant");
  }

  /** It is the descriptions that keep tabs signed in: without them a refusal would sign the tab out exactly if it is
      about the token, and not about the client or the organization. */
  lemma UndescribedSignsOutExactly(refusal: Refusal, statusText: string, raw: string)
    requires IsStatusText(refusal, statusText)
    ensures ShouldSignOut(HttpError(Status(refusal), statusText, ErrorBody(raw, Some(ErrorFields(ErrorCode(refusal), "")))))
       <==> refusal.TokenNotFound? || refusal.TokenRevoked? || refusal.TokenExpired? || refusal.AlreadyUsed?
  {
    var body := ErrorBody(raw, Some(ErrorFields(ErrorCode(refusal), "")));
    StatusTextIsQuiet(refusal, statusText);
    hide *;
    CodesMatchExactly(refusal);
    DetailIsTheFirstText(body);
    SignsOutExactly(Status(refusal), statusText, body);
  }

  lemma StatusTextIsQuiet(refusal: Refusal, statusText: string)
    requires IsStatusText(refusal, statusText)
    ensures !Matches(statusText) && !Opens(statusText) && Status(refusal) != 401
  {
    assert Lacks(statusText, 'v') && Lacks(statusText, 'z');
    LacksInvalid(statusText, 2);
    WithoutLetters(statusText, 2, 9);
  }

  lemma CodesMatchExactly(refusal: Refusal)
    ensures ErrorCode(refusal) != ""
    ensures Matches(ErrorCode(refusal)) <==>
            refusal.TokenNotFound? || refusal.TokenRevoked? || refusal.TokenExpired? || refusal.AlreadyUsed?
  {
    GrantCodeMatches();
    ClientCodeIsQuiet();
    OtherCodesAreQuiet();
    hide Matches;
  }
}
