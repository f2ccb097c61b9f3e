/** What the single use of authorization codes guarantees in every reachable state. */
module CodeTheorems {
  import opened Options
  import opened E2eeScopes
  import opened TokenServer
  import opened RefreshChains
  import opened RefreshTheorems
  import opened Cardinality
  import opened OauthScopes
  import Pkce

  predicate HoldsCode(s: Server, h: HandlerId, c: CodeId) {
    h in s.handlers && s.handlers[h].Exchanging? && s.handlers[h].code == c
  }

  /** Each issued code is stored, held by one handler, answered once, or gone: no two of these at a time. */
  ghost predicate CodeInv(s: Server) {
    && s.codes.Keys <= s.history.issuedCodes
    && (forall c :: c in s.history.responses ==> c in s.history.issuedCodes && c !in s.codes)
    && (forall i, j :: 0 <= i < j < |s.history.responses| ==> s.history.responses[i] != s.history.responses[j])
    && (forall h, c :: HoldsCode(s, h, c) ==>
          c in s.history.issuedCodes && c !in s.codes && c !in s.history.responses)
    && (forall h, g, c :: HoldsCode(s, h, c) && HoldsCode(s, g, c) ==> h == g)
  }

  /** Only consuming a stored code gives a handler a code. */
  lemma NewHolder(s: Server, a: Action, h: HandlerId, c: CodeId)
    requires Enabled(s, a) && HoldsCode(Step(s, a), h, c) && !HoldsCode(s, h, c)
    ensures a.ConsumeCode? && h == a.h && c == a.code && c in s.codes && c !in Step(s, a).codes
  {
    hide CheckRequest;
  }

  lemma StepKeepsHolders(s: Server, a: Action)
    requires CodeInv(s) && Enabled(s, a)
    ensures forall h, g, c :: HoldsCode(Step(s, a), h, c) && HoldsCode(Step(s, a), g, c) ==> h == g
  {
    hide Step, Enabled;
    var t := Step(s, a);
    forall h, g, c | HoldsCode(t, h, c) && HoldsCode(t, g, c)
      ensures h == g
    {
      if !HoldsCode(s, h, c) {
        NewHolder(s, a, h, c);
      }
      if !HoldsCode(s, g, c) {
        NewHolder(s, a, g, c);
      }
    }
  }

  lemma HeldCode(s: Server, a: Action, h: HandlerId, c: CodeId)
    requires CodeInv(s) && Enabled(s, a) && HoldsCode(Step(s, a), h, c)
    ensures var t := Step(s, a);
            c in t.history.issuedCodes && c !in t.codes && c !in t.history.responses
  {
    hide CheckRequest;
    if !HoldsCode(s, h, c) {
      NewHolder(s, a, h, c);
    } else if a.FinishExchange? {
      assert HoldsCode(s, a.h, s.handlers[a.h].code);
    }
  }

  lemma StepKeepsCodes(s: Server, a: Action)
    requires CodeInv(s) && Enabled(s, a)
    ensures CodeInv(Step(s, a))
  {
    hide CheckRequest;
    var t := Step(s, a);
    StepKeepsHolders(s, a);
    forall h, c | HoldsCode(t, h, c)
      ensures c in t.history.issuedCodes && c !in t.codes && c !in t.history.responses
    {
      HeldCode(s, a, h, c);
    }
    if a.FinishExchange? {
      assert HoldsCode(s, a.h, s.handlers[a.h].code);
    }
  }

  lemma {:induction false} RunKeepsCodes(s: Server, actions: seq<Action>)
    requires CodeInv(s)
    ensures CodeInv(Run(s, actions))
    decreases |actions|
  {
    hide CodeInv, Step, Enabled;
    if actions != [] {
      if Enabled(s, actions[0]) {
        StepKeepsCodes(s, actions[0]);
      }
      RunKeepsCodes(Apply(s, actions[0]), actions[1..]);
    }
  }

  /** In every run each code yields at most one token response. */
  lemma OneResponsePerCode(actions: seq<Action>)
    ensures var responses := Run(INITIAL, actions).history.responses;
            forall i, j :: 0 <= i < j < |responses| ==> responses[i] != responses[j]
  {
    assert CodeInv(INITIAL);
    RunKeepsCodes(INITIAL, actions);
  }

  /** A code that is no longer stored nor held, and was never answered. */
  ghost predicate Spent(s: Server, c: CodeId) {
    c in s.history.issuedCodes && c !in s.codes && c !in s.history.responses && forall h :: !HoldsCode(s, h, c)
  }

  lemma StepKeepsSpent(s: Server, a: Action, c: CodeId)
    requires Spent(s, c) && Enabled(s, a)
    ensures Spent(Step(s, a), c)
  {
    hide CheckRequest;
    var t := Step(s, a);
    forall h
      ensures !HoldsCode(t, h, c)
    {
      assert !HoldsCode(s, h, c);
    }
    if a.FinishExchange? {
      assert !HoldsCode(s, a.h, c);
    }
  }

  /** A spent code never yields a token response. */
  lemma {:induction false} SpentForever(s: Server, actions: seq<Action>, c: CodeId)
    requires Spent(s, c)
    ensures Spent(Run(s, actions), c)
    decreases |actions|
  {
    hide Spent, Step, Enabled;
    if actions != [] {
      if Enabled(s, actions[0]) {
        StepKeepsSpent(s, actions[0], c);
      }
      SpentForever(Apply(s, actions[0]), actions[1..], c);
    }
  }

  /** A handler that holds a code either answers it or, when a guard fails, leaves it spent. */
  lemma FailedCheckDestroysTheCode(s: Server, h: HandlerId, newId: RowId, newToken: Token, expiresAt: Time)
    requires CodeInv(s) && h in s.handlers && s.handlers[h].Exchanging?
    ensures var c := s.handlers[h].code;
            var t := FinishStep(s, h, newId, newToken, expiresAt);
            if CheckRequest(s.handlers[h].record, s.handlers[h].request).Rejected? then Spent(t, c)
            else t.history.responses == s.history.responses + [c]
  {
    hide CheckRequest;
    var c := s.handlers[h].code;
    var t := FinishStep(s, h, newId, newToken, expiresAt);
    assert HoldsCode(s, h, c);
    forall g
      ensures !HoldsCode(t, g, c)
    {
      assert g != h ==> !HoldsCode(s, g, c);
    }
  }

  /** A scope the client may ask for: encryption and user id always, others if the client has them. */
  predicate Offered(client: Client, scope: string) {
    var t := NormalizeScopeToken(scope);
    || t == "e2ee:symmetric" || t == "e2ee:asymmetric" || t == "e2ee:pqc:kyber" || t == "e2ee:pqc:dilithium"
    || t == "e2ee:reset" || t == "user_id"
    || (match client
        case QuickClient(_, _) => t == "openid" || t == "profile" || t == "email"
        case RegisteredClient(_, scopes) =>
          if scopes == [] then t == "openid" || t == "profile" || t == "email" || t == "offline_access" else t in scopes
        case UnknownClient => false)
  }

  /** The client is known, comes from its own origin and asks for its own code. */
  predicate RightClient(record: CodeRecord, client: Client) {
    && !client.UnknownClient? && client.appId == record.appId
    && (client.QuickClient? ==> client.origin.OriginsMatch? && record.codeChallenge != "")
  }

  /** No wrong secret, and the verifier of the challenge or, without one, the secret. */
  predicate Proven(record: CodeRecord, request: ExchangeRequest)
    requires request.TokenRequest?
  {
    && (request.secretGiven ==> request.secretValid)
    && if record.codeChallenge == "" then request.secretGiven
       else Pkce.IsValidPkceCodeVerifier(request.codeVerifier)
            && record.codeChallenge == Pkce.ComputedChallenge(record.codeChallengeMethod, request.codeVerifier)
  }

  /** Who may exchange a code: at the token endpoint the right client with its proof, for scopes it may ask for; at
      the FedCM endpoint the app of the code. */
  predicate Entitled(record: CodeRecord, request: ExchangeRequest) {
    && record.redirectUri == request.redirectUri
    && match request
       case TokenRequest(_, client, _, _, _) =>
         && RightClient(record, client) && Proven(record, request)
         && forall i :: 0 <= i < |record.scope| ==> Offered(client, record.scope[i])
       case FedCmRequest(_, appId) => record.appId == appId
  }

  lemma OfferedExactly(client: Client, scope: string)
    requires !client.UnknownClient?
    ensures Offered(client, scope) <==> IsScopeAllowedForApp(scope, AllowedScopes(client))
  {
    hide NormalizeScopeToken;
  }

  lemma ProvenExactly(record: CodeRecord, request: ExchangeRequest)
    requires request.TokenRequest?
    ensures CheckAuthentication(record, request).Granted? <==> Proven(record, request)
  {
    hide Pkce.ComputedChallenge, Pkce.CheckVerifier, Pkce.IsValidPkceCodeVerifier;
    Pkce.AcceptedExactly(record.codeChallengeMethod, record.codeChallenge, request.codeVerifier);
  }

  /** Either endpoint grants tokens exactly to whom they belong, and a refresh token only to a registered client of
      the token endpoint. */
  lemma GrantedExactly(record: CodeRecord, request: ExchangeRequest)
    ensures var outcome := CheckRequest(record, request);
            && (outcome.Granted? <==> Entitled(record, request))
            && (outcome.Granted? ==>
                  (outcome.issueRefreshToken <==> request.TokenRequest? && request.client.RegisteredClient?))
  {
    hide CheckAuthentication, Proven, Offered, IsScopeAllowedForApp, AllowedScopes;
    if request.TokenRequest? {
      ProvenExactly(record, request);
      if !request.client.UnknownClient? {
        forall scope: string {
          OfferedExactly(request.client, scope);
        }
      }
    }
  }

  /** Only what passes every other check is refused for its scopes; otherwise the error says what is wrong with
      the code, the client or the proof. */
  lemma ErrorNamesTheFailedCheck(record: CodeRecord, request: ExchangeRequest)
    requires request.TokenRequest? && CheckRequest(record, request).Rejected?
    ensures var error := CheckRequest(record, request).error;
            var client, verifier := request.client, request.codeVerifier;
            var redirected := record.redirectUri == request.redirectUri;
            var unproven := client.QuickClient? && record.codeChallenge == "";
            var wrongSecret := request.secretGiven && !request.secretValid;
            var noProof := if record.codeChallenge == "" then !request.secretGiven
                           else !Pkce.IsValidPkceCodeVerifier(verifier);
            && (error == "invalid_scope" <==> redirected && RightClient(record, client) && Proven(record, request))
            && (error == "invalid_request" <==>
                  redirected && (unproven || (RightClient(record, client) && !wrongSecret && noProof)))
            && (error == "invalid_client" <==>
                  && redirected && !unproven
                  && (|| client.UnknownClient?
                      || (client.QuickClient? && (client.origin.NoOrigin? || client.origin.RequestElsewhere?))
                      || (RightClient(record, client) && wrongSecret)))
            && (error in ["invalid_scope", "invalid_request", "invalid_client", "invalid_grant"])
  {
    hide Pkce.ComputedChallenge, Pkce.CheckVerifier, IsScopeAllowedForApp, Pkce.IsValidPkceCodeVerifier, AllowedScopes;
    VerdictExactly(record.codeChallengeMethod, record.codeChallenge, request.codeVerifier);
  }

  lemma VerdictExactly(codeChallengeMethod: string, codeChallenge: string, codeVerifier: string)
    ensures var verdict := Pkce.CheckVerifier(codeChallengeMethod, codeChallenge, codeVerifier);
            var wellFormed := Pkce.IsValidPkceCodeVerifier(codeVerifier);
            var matching := codeChallenge == Pkce.ComputedChallenge(codeChallengeMethod, codeVerifier);
            && (verdict.Accepted? <==> wellFormed && matching)
            && (verdict.VerifierMismatch? <==> wellFormed && !matching)
            && (verdict.VerifierRequired? <==> codeVerifier == "")
  {
    hide Pkce.ComputedChallenge, Pkce.TimingSafeEqualString;
    Pkce.AcceptedExactly(codeChallengeMethod, codeChallenge, codeVerifier);
  }

  /** Every family goes back to an answered code of its own. */
  ghost predicate OriginInv(s: Server) {
    && s.history.origins.Keys == s.history.chains.Keys
    && (forall f :: f in s.history.origins ==> s.history.origins[f] in s.history.responses)
    && (forall f, g :: f in s.history.origins && g in s.history.origins ==>
          s.history.origins[f] == s.history.origins[g] ==> f == g)
  }

  lemma StepKeepsOrigins(s: Server, a: Action)
    requires ChainInv(s) && CodeInv(s) && OriginInv(s) && Enabled(s, a)
    ensures OriginInv(Step(s, a))
  {
    if a.FinishExchange? {
      hide CheckRequest, ChainInv, CodeInv, OriginInv, FinishStep;
      if a.newId in s.history.chains {
        NoRootWithoutRow(s, a.newId);
      }
      FinishKeepsOrigins(s, a.h, a.newId, a.newToken, a.expiresAt);
    } else {
      hide ChainInv, CodeInv, OriginInv;
      if a.InsertSuccessor? {
        RotatedFamily(s, a.h);
      }
      OthersKeepOrigins(s, a);
    }
  }

  lemma OthersKeepOrigins(s: Server, a: Action)
    requires OriginInv(s) && Enabled(s, a) && !a.FinishExchange?
    requires a.InsertSuccessor? ==> s.handlers[a.h].row.familyId in s.history.chains
    ensures OriginInv(Step(s, a))
  {
    hide CheckRequest, FinishStep, AfterRead, MarkRows;
    var t := Step(s, a);
    assert t.history.origins == s.history.origins && t.history.responses == s.history.responses;
    assert t.history.chains.Keys == s.history.chains.Keys;
  }

  lemma RotatedFamily(s: Server, h: HandlerId)
    requires ChainInv(s) && h in s.handlers && s.handlers[h].Inserting?
    ensures s.handlers[h].row.familyId in s.history.chains
  {
    hide IsChain, ChainsOk, TokensDistinct, OneRotation, RowsListed;
    assert HandlerOk(s, s.handlers[h]);
  }

  lemma FinishKeepsOrigins(s: Server, h: HandlerId, newId: RowId, newToken: Token, expiresAt: Time)
    requires CodeInv(s) && OriginInv(s) && newId !in s.history.chains
    requires h in s.handlers && s.handlers[h].Exchanging?
    ensures OriginInv(FinishStep(s, h, newId, newToken, expiresAt))
  {
    hide CheckRequest;
    var c := s.handlers[h].code;
    var t := FinishStep(s, h, newId, newToken, expiresAt);
    assert HoldsCode(s, h, c);
    assert t.history.responses != s.history.responses ==> t.history.responses[|s.history.responses|] == c;
  }

  ghost predicate AllInv(s: Server) {
    ChainInv(s) && CodeInv(s) && OriginInv(s)
  }

  lemma StepKeepsAll(s: Server, a: Action)
    requires AllInv(s) && Enabled(s, a)
    ensures AllInv(Step(s, a))
  {
    hide ChainInv, CodeInv, OriginInv, Step, Enabled;
    StepKeepsChains(s, a);
    StepKeepsCodes(s, a);
    StepKeepsOrigins(s, a);
  }

  lemma {:induction false} RunKeepsAll(s: Server, actions: seq<Action>)
    requires AllInv(s)
    ensures AllInv(Run(s, actions))
    decreases |actions|
  {
    hide AllInv, Step, Enabled;
    if actions != [] {
      if Enabled(s, actions[0]) {
        StepKeepsAll(s, actions[0]);
      }
      RunKeepsAll(Apply(s, actions[0]), actions[1..]);
    }
  }

  lemma InitialAllInv()
    ensures AllInv(INITIAL)
  {
    InitialChainInv();
  }

  lemma HolderHasFamily(s: Server, x: Holder)
    requires ChainInv(s) && x in Holders(s)
    ensures FamilyOf(s, x) in s.history.chains
  {
    hide IsChain, ChainsOk, TokensDistinct, OneRotation;
    if x.RotationHolder? {
      assert HandlerOk(s, s.handlers[x.h]);
    }
  }

  /** In every reachable state, live rows and rotations in flight together never outnumber the
      codes that were exchanged. */
  lemma HoldersNeverExceedExchangedCodes(actions: seq<Action>)
    ensures |Holders(Run(INITIAL, actions))| <= |Run(INITIAL, actions).history.responses|
  {
    var s := Run(INITIAL, actions);
    InitialAllInv();
    RunKeepsAll(INITIAL, actions);
    hide ChainInv, Holders, FamilyOf, Run;
    forall x | x in Holders(s)
      ensures FamilyOf(s, x) in s.history.origins
    {
      HolderHasFamily(s, x);
    }
    var origin := map x | x in Holders(s) :: s.history.origins[FamilyOf(s, x)];
    var codes := set c | c in s.history.responses;
    forall x, y | x in Holders(s) && y in Holders(s) && origin[x] == origin[y]
      ensures x == y
    {
      HoldersShareNoFamily(s, x, y);
    }
    InjectionCard(Holders(s), codes, origin);
    SeqSetCard(s.history.responses);
  }

  /** Undisturbed, an exchange destroys the code whatever happens; it yields tokens exactly if the code is stored, in
      time and belongs to the request, and a refresh row with the code's grant exactly for a registered client of the
      token endpoint whose scope has offline_access. */
  lemma CodeIsExchangedExactly(s: Server, code: CodeId, request: ExchangeRequest, h: HandlerId, now: Time,
                               newId: RowId, newToken: Token, expiresAt: Time)
    requires h !in s.handlers && FreshRow(s, newId, newToken)
    ensures var t := Run(s, [ConsumeCode(h, code, request, now), FinishExchange(h, newId, newToken, expiresAt)]);
            var granted := code in s.codes && now <= s.codes[code].expiresAt && Entitled(s.codes[code], request);
            var offline := granted && request.TokenRequest? && request.client.RegisteredClient?
                           && "offline_access" in s.codes[code].scope;
            && t.codes == s.codes - {code}
            && t.handlers == s.handlers[h :=
                 if !granted then Answered(Refused)
                 else Answered(Exchanged(code, if offline then Some(newToken) else None))]
            && t.rows == (
                 if !offline then s.rows
                 else
                   var record := s.codes[code];
                   s.rows[newId := RefreshRow(newId, None, record.userId, record.identityId, record.appId,
                                              record.scope, newToken, expiresAt, None, None)])
  {
    var consume, finish := ConsumeCode(h, code, request, now), FinishExchange(h, newId, newToken, expiresAt);
    var held := ConsumeStep(s, h, code, request, now);
    TwoSteps(s, consume, finish);
    hide CheckRequest, Run, AfterRead, ClaimStep, InsertStep, MarkRows, RevokeStep, CleanupStep, ReadCodeStep,
         DeleteCodeStep, Entitled;
    assert Apply(s, consume) == held;
    if code in s.codes {
      GrantedExactly(s.codes[code], request);
      assert FreshRow(held, newId, newToken);
      if now <= s.codes[code].expiresAt {
        assert Apply(held, finish) == FinishStep(held, h, newId, newToken, expiresAt);
      }
    } else {
      assert s.codes - {code} == s.codes;
    }
  }
}
