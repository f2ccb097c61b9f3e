/**
 * The token endpoint as a concurrent protocol: refresh-token rotation
 * (ave-server/src/routes/oauth/refresh-token.ts), authorization-code exchange
 * (authorization-code.ts, fedcm.ts) and the code store (lib/oauth-store.ts).
 * Every database statement or batch is one action; any number of handlers are
 * between two of their statements at once.
 */
module TokenServer {
  import opened Options
  import opened E2eeScopes
  import Pkce

  type RowId = nat
  type Token = nat
  type CodeId = nat
  type HandlerId = nat
  type Time = int

  /** A row of oauth_refresh_tokens; the token stands for its hash. */
  datatype RefreshRow = RefreshRow(
    familyId: RowId,
    rotatedFromId: Option<RowId>,
    userId: nat,
    identityId: nat,
    appId: nat,
    scope: seq<string>,
    token: Token,
    expiresAt: Time,
    revokedAt: Option<Time>,
    reuseDetectedAt: Option<Time>)
  {
    predicate Live() {
      revokedAt.None? && reuseDetectedAt.None?
    }

    /** What no update of the row changes. */
    predicate SameGrant(other: RefreshRow) {
      userId == other.userId && identityId == other.identityId && appId == other.appId && scope == other.scope
    }
  }

  /** A row of oauth_authorization_codes; an empty challenge is an absent one. */
  datatype CodeRecord = CodeRecord(
    userId: nat,
    identityId: nat,
    appId: nat,
    redirectUri: string,
    scope: seq<string>,
    expiresAt: Time,
    codeChallenge: string,
    codeChallengeMethod: string)

  /** What a request presents, with the lookups of its client already resolved. */
  datatype ExchangeRequest =
    | TokenRequest(redirectUri: string, client: Client, secretGiven: bool, secretValid: bool, codeVerifier: string)
    | FedCmRequest(redirectUri: string, appId: nat)

  /** How the origins of a Quick client's id, its redirect URI and its request relate. */
  datatype QuickOrigin = OriginsMatch | NoOrigin | RedirectElsewhere | RequestElsewhere

  datatype Client =
    | QuickClient(appId: nat, origin: QuickOrigin)
    | RegisteredClient(appId: nat, allowedScopes: seq<string>)
    | UnknownClient

  datatype Outcome = Rejected(error: string) | Granted(issueRefreshToken: bool)

  function AllowedScopes(client: Client): seq<string>
    requires !client.UnknownClient?
  {
    if client.QuickClient? then ["openid", "profile", "email"]
    else if client.allowedScopes != [] then client.allowedScopes
    else ["openid", "profile", "email", "offline_access"]
  }

  /** A PKCE code needs its verifier, with or without a client secret; any other code needs the secret. */
  function CheckAuthentication(record: CodeRecord, request: ExchangeRequest): Outcome
    requires request.TokenRequest?
  {
    if request.secretGiven && !request.secretValid then Rejected("invalid_client")
    else if record.codeChallenge != "" then
      match Pkce.CheckVerifier(record.codeChallengeMethod, record.codeChallenge, request.codeVerifier)
      case Accepted => Granted(true)
      case VerifierMismatch => Rejected("invalid_grant")
      case _ => Rejected("invalid_request")
    else if request.secretGiven then Granted(true)
    else Rejected("invalid_request")
  }

  /** The guards of handleAuthorizationCode in their order. */
  function CheckTokenRequest(record: CodeRecord, request: ExchangeRequest): Outcome
    requires request.TokenRequest?
  {
    var client := request.client;
    if record.redirectUri != request.redirectUri then Rejected("invalid_grant")
    else if client.QuickClient? && record.codeChallenge == "" then Rejected("invalid_request")
    else if client.UnknownClient? then Rejected("invalid_client")
    else if client.QuickClient? && client.origin.NoOrigin? then Rejected("invalid_client")
    else if client.QuickClient? && client.origin.RedirectElsewhere? then Rejected("invalid_grant")
    else if client.QuickClient? && client.origin.RequestElsewhere? then Rejected("invalid_client")
    else if client.appId != record.appId then Rejected("invalid_grant")
    else if CheckAuthentication(record, request).Rejected? then CheckAuthentication(record, request)
    else if exists i :: 0 <= i < |record.scope| && !IsScopeAllowedForApp(record.scope[i], AllowedScopes(client))
      then Rejected("invalid_scope")
    else Granted(client.RegisteredClient?)
  }

  /** The guards of either endpoint that consumes codes. */
  function CheckRequest(record: CodeRecord, request: ExchangeRequest): Outcome {
    if request.TokenRequest? then CheckTokenRequest(record, request)
    else if record.redirectUri != request.redirectUri || record.appId != request.appId then Rejected("invalid_grant")
    else Granted(false)
  }

  /** An answered handler has sent its response; the others name their next database statement. */
  datatype Handler =
    | Claiming(id: RowId, row: RefreshRow)
    | Inserting(id: RowId, row: RefreshRow)
    | Marking(familyId: RowId)
    | RevokingExpired(id: RowId)
    | Exchanging(code: CodeId, record: CodeRecord, request: ExchangeRequest)
    | DeletingCode(code: CodeId)
    | Answered(reply: Reply)

  datatype Reply = Refused | Refreshed(token: Token) | Exchanged(code: CodeId, refresh: Option<Token>) | Found(record: CodeRecord)

  /** Bookkeeping for the theorems; no step reads it to decide anything but freshness of codes. */
  datatype History = History(
    chains: map<RowId, seq<RowId>>,
    origins: map<RowId, CodeId>,
    issuedCodes: set<CodeId>,
    responses: seq<CodeId>)

  datatype Server = Server(
    rows: map<RowId, RefreshRow>,
    codes: map<CodeId, CodeRecord>,
    handlers: map<HandlerId, Handler>,
    history: History)

  datatype Action =
    | IssueCode(code: CodeId, record: CodeRecord)
    | ReadRefresh(h: HandlerId, token: Token, appId: nat, authenticated: bool, now: Time)
    | RejectOrganization(h: HandlerId)
    | Claim(h: HandlerId, now: Time)
    | InsertSuccessor(h: HandlerId, newId: RowId, newToken: Token, expiresAt: Time)
    | MarkFamilyReuse(h: HandlerId, now: Time)
    | RevokeExpired(h: HandlerId, now: Time)
    | ConsumeCode(h: HandlerId, code: CodeId, request: ExchangeRequest, now: Time)
    | FinishExchange(h: HandlerId, newId: RowId, newToken: Token, expiresAt: Time)
    | ReadCode(h: HandlerId, code: CodeId, now: Time)
    | DeleteExpiredCode(h: HandlerId)
    | Cleanup(now: Time)
    | Stop(h: HandlerId)

  const INITIAL: Server := Server(map[], map[], map[], History(map[], map[], {}, []))

  predicate FreshRow(s: Server, id: RowId, token: Token) {
    id !in s.rows && forall r :: r in s.rows ==> s.rows[r].token != token
  }

  /** A handler id is new at its first statement; generated ids, tokens and codes are new. */
  predicate Enabled(s: Server, a: Action) {
    match a
    case IssueCode(code, _) => code !in s.history.issuedCodes
    case ReadRefresh(h, _, _, _, _) => h !in s.handlers
    case RejectOrganization(h) => h in s.handlers && s.handlers[h].Claiming?
    case Claim(h, _) => h in s.handlers && s.handlers[h].Claiming?
    case InsertSuccessor(h, newId, newToken, _) =>
      h in s.handlers && s.handlers[h].Inserting? && FreshRow(s, newId, newToken)
    case MarkFamilyReuse(h, _) => h in s.handlers && s.handlers[h].Marking?
    case RevokeExpired(h, _) => h in s.handlers && s.handlers[h].RevokingExpired?
    case ConsumeCode(h, _, _, _) => h !in s.handlers
    case FinishExchange(h, newId, newToken, _) =>
      h in s.handlers && s.handlers[h].Exchanging? && FreshRow(s, newId, newToken)
    case ReadCode(h, _, _) => h !in s.handlers
    case DeleteExpiredCode(h) => h in s.handlers && s.handlers[h].DeletingCode?
    case Cleanup(_) => true
    case Stop(h) => h in s.handlers
  }

  /** The row a token selects, if any; tokens are unique among rows. */
  ghost function RowOfToken(rows: map<RowId, RefreshRow>, token: Token): (r: Option<RowId>)
    ensures r.Some? ==> r.value in rows && rows[r.value].token == token
    ensures r.None? ==> forall id :: id in rows ==> rows[id].token != token
  {
    if id :| id in rows && rows[id].token == token then Some(id) else None
  }

  /** The first select and the checks that follow it without touching the database. */
  function AfterRead(rows: map<RowId, RefreshRow>, found: Option<RowId>, appId: nat, authenticated: bool, now: Time): Handler
    requires found.Some? ==> found.value in rows
  {
    if found.None? || rows[found.value].appId != appId then Answered(Refused)
    else
      var row := rows[found.value];
      if !authenticated then Answered(Refused)
      else if !row.Live() then Marking(row.familyId)
      else if now > row.expiresAt then RevokingExpired(found.value)
      else Claiming(found.value, row)
  }

  /** The update that sets revokedAt only where both marks are null. */
  function ClaimStep(s: Server, h: HandlerId, now: Time): Server
    requires h in s.handlers && s.handlers[h].Claiming?
  {
    var id, row := s.handlers[h].id, s.handlers[h].row;
    if id in s.rows && s.rows[id].Live() then
      s.(rows := s.rows[id := s.rows[id].(revokedAt := Some(now))],
         handlers := s.handlers[h := Inserting(id, row)])
    else
      s.(handlers := s.handlers[h := Marking(row.familyId)])
  }

  function InsertStep(s: Server, h: HandlerId, newId: RowId, newToken: Token, expiresAt: Time): Server
    requires h in s.handlers && s.handlers[h].Inserting?
  {
    var id, row := s.handlers[h].id, s.handlers[h].row;
    var f := row.familyId;
    var chain := if f in s.history.chains then s.history.chains[f] else [];
    s.(rows := s.rows[newId := RefreshRow(f, Some(id), row.userId, row.identityId, row.appId, row.scope,
                                          newToken, expiresAt, None, None)],
       handlers := s.handlers[h := Answered(Refreshed(newToken))],
       history := s.history.(chains := s.history.chains[f := chain + [newId]]))
  }

  function MarkRows(rows: map<RowId, RefreshRow>, f: RowId, now: Time): map<RowId, RefreshRow> {
    map r | r in rows :: if rows[r].familyId == f then rows[r].(reuseDetectedAt := Some(now)) else rows[r]
  }

  function RevokeStep(s: Server, h: HandlerId, now: Time): Server
    requires h in s.handlers && s.handlers[h].RevokingExpired?
  {
    var id := s.handlers[h].id;
    s.(rows := if id in s.rows then s.rows[id := s.rows[id].(revokedAt := Some(now))] else s.rows,
       handlers := s.handlers[h := Answered(Refused)])
  }

  /** delete ... returning, then the expiry test */
  function ConsumeStep(s: Server, h: HandlerId, code: CodeId, request: ExchangeRequest, now: Time): Server {
    if code !in s.codes then s.(handlers := s.handlers[h := Answered(Refused)])
    else
      var record := s.codes[code];
      s.(codes := s.codes - {code},
         handlers := s.handlers[h := if now > record.expiresAt then Answered(Refused)
                                     else Exchanging(code, record, request)])
  }

  predicate IssuesRefreshToken(record: CodeRecord, outcome: Outcome) {
    outcome.Granted? && outcome.issueRefreshToken && "offline_access" in record.scope
  }

  /** The remaining guards and, if they pass, the batch that stores the tokens. */
  function FinishStep(s: Server, h: HandlerId, newId: RowId, newToken: Token, expiresAt: Time): Server
    requires h in s.handlers && s.handlers[h].Exchanging?
  {
    var code, record := s.handlers[h].code, s.handlers[h].record;
    var outcome := CheckRequest(record, s.handlers[h].request);
    var answered := s.history.(responses := s.history.responses + [code]);
    if outcome.Rejected? then s.(handlers := s.handlers[h := Answered(Refused)])
    else if !IssuesRefreshToken(record, outcome) then
      s.(handlers := s.handlers[h := Answered(Exchanged(code, None))], history := answered)
    else
      s.(rows := s.rows[newId := RefreshRow(newId, None, record.userId, record.identityId, record.appId, record.scope,
                                            newToken, expiresAt, None, None)],
         handlers := s.handlers[h := Answered(Exchanged(code, Some(newToken)))],
         history := answered.(chains := s.history.chains[newId := [newId]],
                              origins := s.history.origins[newId := code]))
  }

  function ReadCodeStep(s: Server, h: HandlerId, code: CodeId, now: Time): Server {
    s.(handlers := s.handlers[h :=
         if code !in s.codes then Answered(Refused)
         else if now > s.codes[code].expiresAt then DeletingCode(code)
         else Answered(Found(s.codes[code]))])
  }

  function DeleteCodeStep(s: Server, h: HandlerId): Server
    requires h in s.handlers && s.handlers[h].DeletingCode?
  {
    s.(codes := s.codes - {s.handlers[h].code}, handlers := s.handlers[h := Answered(Refused)])
  }

  function CleanupStep(s: Server, now: Time): Server {
    s.(codes := map c | c in s.codes && s.codes[c].expiresAt >= now :: s.codes[c])
  }

  ghost function Step(s: Server, a: Action): Server
    requires Enabled(s, a)
  {
    hide RowOfToken, AfterRead, ClaimStep, InsertStep, MarkRows, RevokeStep, ConsumeStep, FinishStep, ReadCodeStep,
         DeleteCodeStep, CleanupStep;
    match a
    case IssueCode(code, record) =>
      s.(codes := s.codes[code := record], history := s.history.(issuedCodes := s.history.issuedCodes + {code}))
    case ReadRefresh(h, token, appId, authenticated, now) =>
      s.(handlers := s.handlers[h := AfterRead(s.rows, RowOfToken(s.rows, token), appId, authenticated, now)])
    case RejectOrganization(h) => s.(handlers := s.handlers[h := Answered(Refused)])
    case Claim(h, now) => ClaimStep(s, h, now)
    case InsertSuccessor(h, newId, newToken, expiresAt) => InsertStep(s, h, newId, newToken, expiresAt)
    case MarkFamilyReuse(h, now) =>
      s.(rows := MarkRows(s.rows, s.handlers[h].familyId, now), handlers := s.handlers[h := Answered(Refused)])
    case RevokeExpired(h, now) => RevokeStep(s, h, now)
    case ConsumeCode(h, code, request, now) => ConsumeStep(s, h, code, request, now)
    case FinishExchange(h, newId, newToken, expiresAt) => FinishStep(s, h, newId, newToken, expiresAt)
    case ReadCode(h, code, now) => ReadCodeStep(s, h, code, now)
    case DeleteExpiredCode(h) => DeleteCodeStep(s, h)
    case Cleanup(now) => CleanupStep(s, now)
    case Stop(h) => s.(handlers := s.handlers - {h})
  }

  /** An action that cannot happen leaves the state alone, so every list of actions is a run. */
  ghost function Apply(s: Server, a: Action): Server {
    if Enabled(s, a) then Step(s, a) else s
  }

  ghost function Run(s: Server, actions: seq<Action>): Server
    decreases |actions|
  {
    if actions == [] then s else Run(Apply(s, actions[0]), actions[1..])
  }
}
