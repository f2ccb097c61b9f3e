# Ave, modelled and proved

Ave is an identity platform: an OAuth server on a SQL database, a browser SDK and a set of key
stores. This project models its concurrent protocols and its hand-written algorithms in Dafny and
proves what they promise, for every input, every run and every interleaving.

Every database statement (or `db.batch`) is one atomic step, and the code between two statements or
two awaits of a handler is one method or one transition. A handler that is between two of its
statements is a value that names its next one, so any number of handlers interleave. Where the source
changes tables or fields, a class holds them and has a method per statement; each method's
postcondition ties the new state to a transition function of the old one, and the lemmas prove the
invariants and theorems about runs of that function.

## What is proved

**SHA-256, base64url and PKCE** (`Sha256Pure`, `Fips180`, `Fips180Constants`, `FirstPrimes`, `JsNumber`,
`Base64Url`, `Rfc4648`, `Utf8`, `Utf16`, `StandardExamples`, `Pkce`). `sha256Pure`, over JavaScript's signed and unsigned
32-bit operators, equals SHA-256 as FIPS 180-4 defines it on bit strings; it throws exactly for inputs of
2^31 - 72 bytes or more. The round constants and the initial hash value are the fractional bits of cube and square roots of
primes, as sections 4.2.2 and 5.3.3 of FIPS 180-4 say. base64url decoding undoes encoding on every byte
sequence, and the token endpoint accepts exactly the verifiers whose challenge is the stored one.

**Refresh-token rotation and authorization codes** (`TokenServer`, `OAuthServer`, `RefreshChains`,
`RefreshTheorems`, `CodeTheorems`, `TokenRuns`). In every interleaving each family is one chain, a family has at most
one live row or rotation in flight, a second claim of one token marks the family, a marked family comes back to life
exactly when a rotation was between its claim and its insert, each code gives at most one response, exactly to whom
it belongs, and live tokens never outnumber exchanged codes.

**Browser sessions composed with the server** (`AveSession`, `RefreshErrors`, `SessionSystem`, `SessionServer`,
`SessionSafety`, `SessionCounterexamples`, `SessionRuns`, `SessionKeys`). Any number of tabs with one storage and one
refresh lock never trip the server's reuse detection as long as eight hypotheses hold; and each of the eight is needed:
for each one there is a run that keeps the other seven and trips it. The app keys of all snapshots stay what they
are exactly when no sign-in and no page sets another one. Which errors sign a tab out is an exact condition on status,
status text and body.

**Rate limiting** (`RateLimit`), **activity pages** (`Activity`, `ActivityCursor`, `JsonText`), **app
encryption keys** (`E2eeKeys`, `E2eeRuns`, `E2eeScopes`), **login by approval** (`LoginApproval`, `LoginRuns`),
**connector grants** (`Delegation`, `OauthScopes`) and **organization keys** (`OrgKeys`, `OrgKeyRuns`): exact trace bounds, exactly-once paging
under insertion with the cursor text included, write-once keys, one session per approval, one grant per
key, grants that follow membership. The handlers of `E2eeKeys`, `Delegation` and `OrgKeys` and the fallback
of `RateLimit` read in one step and write in another with nothing to guard the pair; their theorems say
exactly which interleavings keep the property.

## Where a property fails

- `sha256Pure` does not hash inputs of 2^31 - 72 bytes or more: the padded length wraps and the typed array
  constructor or `set` throws (`Sha256Pure.Sha256` states both halves).
- The session means to sign out when a refresh is refused with `invalid_grant`, but the text it tests holds the
  description whenever there is one: `RefreshErrors.InvalidGrantSignsOutExactly` gives the condition, and by
  `RefreshErrors.RefusalKeepsTheSession` none of the refresh handler's refusals meets it;
  `RefreshErrors.RevokedTokenKeepsTheSession` is the case of a revoked token.
- The browser's encryption-mode resolver differs from the server's when an app still lists an E2EE scope or
  a request names two modes (`E2eeScopes.ListedScopeDivides`, `E2eeScopes.TwoModesDivide`);
  `E2eeScopes.ResolversAgreeExactly` gives the exact condition.
- Tabs trip reuse detection after a sign-out in another tab, a failed storage read, a lost reply, an expired
  token, a key written from a stale tab, a sign-in response without a refresh token, a refresh during a
  sign-in of the same tab, or the use of a token by somebody else
  (`SessionCounterexamples.EveryHypothesisIsNeeded`).
- A reset of the app key does not reach a tab that missed it: at its next refresh the tab adopts the stored snapshot,
  which has no key, and keeps the old one next to the mark of the reset (`SessionKeys.AdoptionUndoesAReset`);
  `SessionKeys.AdoptsTheStoredKeyExactly` gives the condition.
- The rate limiter's fallback reads its bucket before an await and stores it behind: calls that overlap miss one
  another. Two pass where one may (`RateLimit.TwoPassWhereOneMay`), and any number of calls of one moment pass
  together (`RateLimit.OverlapsPassTogether`); `RateLimit.OverlapIsHarmlessExactly`,
  `RateLimit.TogetherIsSerialExactly` and, for whole runs, `RateLimit.SerialThroughoutExactly` say when nothing is
  lost. The memory is one isolate's, so the bounds on it
  hold per isolate.
- Two interleaved updates of one authorization overwrite a key (`E2eeKeys.TwoUpdatesOverwrite`) or leave a row
  that holds keys of two modes (`E2eeKeys.TwoModesMix`); `E2eeKeys.WriteOnceExactly` and
  `E2eeKeys.OkThroughoutExactly` give the exact conditions.
- Two interleaved approvals leave two unrevoked grants of one key (`Delegation.TwoApprovalsDivideTheKey`) or drop
  a scope that was approved (`Delegation.LaterWriteDropsAScope`); `Delegation.InvThroughoutExactly` gives the
  exact condition.
- A key that is created while its target is removed, or while it is rotated itself, and a removal that dies
  halfway leave a grant in force that should not be (`OrgKeys.RemovalMissesALateGrant`,
  `OrgKeys.RotationMissesALateGrant`, `OrgKeys.DeadRemovalLeavesAGrant`); `OrgKeys.InvThroughoutExactly` gives the
  exact condition.
- A list of grants that names an identity twice passes the validation and then fails on the unique index, when the
  keyring is there already and, in a rotation, the old one is retired: nobody holds either
  (`OrgKeys.RepeatedIdentityLocksOut`). `OrgKeys.CreateGrantsExactly` and `OrgKeys.RotateGrantsExactly` give the
  exact condition.
- Comparing secrets as buffers takes a surrogate that stands alone for U+FFFD (`Pkce.LoneSurrogateCollides`);
  `Pkce.TimingSafeEqualExactly` gives the exact condition.

## Model

The first 132 rows are the main results; the rows from `JsNumber.UShr` on are the steps they are
about and the results that support them.

| member | source | states |
|---|---|---|
| Sha256Pure.Sha256 | sdks/ave-sdk/src/sha256-pure.ts:69-94 | for every byte array below 2^31 - 72 the 32 output bytes are SHA-256 of FIPS 180-4; longer inputs throw |
| Fips180Constants.RoundConstantsAreCubeRoots | sdks/ave-sdk/src/sha256-pure.ts:1-10 | the table K holds the first 32 bits of the fractional parts of the cube roots of the first 64 primes |
| Fips180Constants.InitialHashIsSquareRoots | sdks/ave-sdk/src/sha256-pure.ts:80-82 | the initial state holds the first 32 bits of the fractional parts of the square roots of the first 8 primes |
| Base64Url.Base64UrlEncode | sdks/ave-sdk/src/index.ts:368-389 | the shifting loop and the three replacements give the section 5 encoding of RFC 4648 without padding |
| Base64Url.DecodeUrlChars | sdks/ave-sdk/src/jwt.ts:91-98 | a text over the section 5 alphabet decodes to its whole bytes, or `atob` throws exactly when its length is 1 modulo 4 |
| Base64Url.DecodeEncode | sdks/ave-sdk/src/jwt.ts:91-98 | decoding undoes encoding on every byte sequence |
| Base64Url.UrlEncodeInjective | sdks/ave-sdk/src/index.ts:368-389 | different byte sequences have different encodings |
| Base64Url.EncodeDecode | sdks/ave-sdk/src/jwt.ts:91-98 | re-encoding a decoded text gives it back exactly when the bits the decoder drops are zero |
| Pkce.TimingSafeEqualExactly | ave-server/src/routes/oauth/shared.ts:43-53 | comparing padded buffers and lengths decides equality of JavaScript strings up to surrogates that stand alone, and equality itself where there are none |
| Pkce.LoneSurrogateCollides | ave-server/src/routes/oauth/shared.ts:43-53 | a surrogate that stands alone compares equal to the replacement character |
| Pkce.AcceptedExactly | ave-server/src/routes/oauth/authorization-code.ts:96-117 | a verifier is accepted exactly when it is well formed and its challenge is the stored one |
| Pkce.SdkPairIsAccepted | ave-server/src/routes/oauth/authorization-code.ts:96-117 | whatever the 32 random bytes, the SDK's verifier passes against its challenge |
| Pkce.AcceptedVerifiersCollide | ave-server/src/routes/oauth/authorization-code.ts:105-115 | two verifiers accepted for one S256 challenge have the same SHA-256 digest |
| RefreshChains.StepKeepsChains | ave-server/src/routes/oauth/refresh-token.ts:170-227 | every step keeps: each family is one duplicate-free chain linked by rotatedFromId, rows are listed in it, tokens are distinct, handlers agree with the rows, one rotation per family |
| RefreshChains.RunKeepsChains | ave-server/src/routes/oauth/refresh-token.ts:31-227 | the same for every run |
| RefreshTheorems.OneHolderPerFamily | ave-server/src/routes/oauth/refresh-token.ts:170-227 | in every run a family has at most one live row or rotation in flight, counted together |
| RefreshTheorems.EveryRowDescendsFromItsRoot | ave-server/src/routes/oauth/refresh-token.ts:211-227 | following rotatedFromId from any row ends at the root whose id is the family id |
| RefreshTheorems.RotationIsLinear | ave-server/src/routes/oauth/refresh-token.ts:211-227 | no two rows have the same parent; a parent is revoked and has the same family, user, identity, app and scope |
| RefreshTheorems.RunKeepsDead | ave-server/src/routes/oauth/refresh-token.ts:72-75 | a family without a live row and without a rotation in flight stays so in every continuation |
| RefreshTheorems.MarkedFamilyRevivesOnlyThroughARotation | ave-server/src/routes/oauth/refresh-token.ts:206-209 | after a family is marked, some continuation shows a live row of it exactly when a rotation was in flight at that moment |
| RefreshTheorems.LiveTokenIsRotated | ave-server/src/routes/oauth/refresh-token.ts:211-227 | an undisturbed presentation of a live token in time revokes its row, adds the successor with the same grant and changes no other row |
| RefreshTheorems.ReplayMarksTheFamily | ave-server/src/routes/oauth/refresh-token.ts:72-75 | presenting the token of a row that is not live marks all rows of its family and no other row |
| TokenRuns.LostClaimMarksTheFamily | ave-server/src/routes/oauth/refresh-token.ts:206-209 | a claim that finds the row no longer live marks every row of the family, changes no other row and refuses |
| TokenRuns.SecondClaimMarksTheFamily | ave-server/src/routes/oauth/refresh-token.ts:170-209 | of two handlers that read one live token, the first to claim goes on to rotate it; the second one, whatever happens in between, ends with the whole family marked |
| TokenRuns.StoppedRotationEndsTheFamily | ave-server/src/routes/oauth/refresh-token.ts:170-227 | a rotation that dies between claim and insert leaves its family without a live row in every continuation |
| CodeTheorems.OneResponsePerCode | ave-server/src/routes/oauth/authorization-code.ts:22-30 | in every run each code yields at most one token response (section 4.1.2 of RFC 6749) |
| CodeTheorems.SpentForever | ave-server/src/routes/oauth/authorization-code.ts:23-29 | a code that was consumed unanswered never yields tokens |
| CodeTheorems.FailedCheckDestroysTheCode | ave-server/src/routes/oauth/authorization-code.ts:32-137 | a failed redirect, client, secret, PKCE or scope check leaves the consumed code spent |
| CodeTheorems.CodeIsExchangedExactly | ave-server/src/routes/oauth/fedcm.ts:366-387 | an undisturbed exchange at either endpoint destroys the code and answers with tokens exactly if the code is stored, in time and belongs to the request, with a refresh row exactly for a registered client of the token endpoint with offline_access |
| CodeTheorems.HoldersNeverExceedExchangedCodes | ave-server/src/routes/oauth/refresh-token.ts:170-227 | in every reachable state live rows and rotations in flight together never exceed the exchanged codes |
| TokenRuns.IssuedCodeIsExchangedOnce | ave-server/src/lib/oauth-store.ts:59-121 | an issued code is good for one exchange: the first one decides by time and entitlement, the second one is refused and changes nothing |
| TokenRuns.CleanupIsInvisible | ave-server/src/lib/oauth-store.ts:100-177 | an exchange answers and stores the same whether or not clean-up ran before it |
| RefreshErrors.SignsOutExactly | sdks/ave-sdk/src/session.ts:324-330 | a response that is not ok signs the tab out exactly when its status is 401, its status text or the detail of its body matches, or the status text begins an "invalid" that a "refresh" in the detail completes |
| RefreshErrors.RefusalSignsOutExactly | ave-server/src/routes/oauth/refresh-token.ts:56-208 | no description of the refresh handler matches by itself: a refusal signs the tab out exactly when the status text does, alone or completed by the description |
| RefreshErrors.RefusalKeepsTheSession | ave-server/src/routes/oauth/refresh-token.ts:56-208 | with the status text of HTTP, or none, no refusal of the refresh handler signs the tab out |
| RefreshErrors.RevokedTokenKeepsTheSession | sdks/ave-sdk/src/oauth-token.ts:20-35 | the message of a revoked token, built from status and description, fails the test |
| RefreshErrors.InvalidGrantSignsOutExactly | sdks/ave-sdk/src/oauth-token.ts:23-34 | a 400 with the code invalid_grant signs the tab out exactly when there is no description or the description itself matches |
| RefreshErrors.UndescribedSignsOutExactly | ave-server/src/routes/oauth/refresh-token.ts:56-208 | without their descriptions the refusals that would sign the tab out are exactly those about the token |
| SessionSafety.EventIsSafe | sdks/ave-sdk/src/session.ts:332-407 | every disciplined step of any tab, the storage, the lock or the server keeps the safety invariant |
| SessionSafety.TabsNeverTripReuseDetection | sdks/ave-sdk/src/session.ts:332-407 | in every disciplined run of any number of tabs no handler is about to mark a family of the tabs and no row of one is marked |
| SessionSafety.EachTokenIsPresentedOnce | sdks/ave-sdk/src/session.ts:332-407 | in every disciplined run a token is presented again only if the server had refused it unclaimed |
| SessionSafety.RefreshEndsWithALiveToken | sdks/ave-sdk/src/session.ts:336-388 | in every disciplined run a refresh that ends, by adopting or by saving, leaves its tab with a token that is live on the server |
| SessionRuns.SignInReachesAllTabs | sdks/ave-sdk/src/session.ts:250-257 | an undisturbed sign-in stores the snapshot that follows from the response and the one before, field by field, and the tab and every tab that hears of it have it |
| SessionRuns.SignOutReachesAllTabs | sdks/ave-sdk/src/session.ts:297-303 | an undisturbed sign-out empties the storage, and the tab and every tab that hears of it are signed out |
| SessionRuns.RefreshDecidesExactly | sdks/ave-sdk/src/session.ts:332-372 | an undisturbed refresh adopts the stored snapshot exactly if its expiry is later or its token another one, and field by field what it adopts; otherwise it signs out without a refresh token and presents it if there is one |
| SessionRuns.RefreshRotatesTheToken | sdks/ave-sdk/src/session.ts:332-389 | composed with the server: an undisturbed refresh with a live token rotates its row and leaves tab and storage with the successor, the response's access token and expiry, and the key the tab had |
| SessionKeys.KeysThroughoutExactly | sdks/ave-sdk/src/session.ts:74-100 | in any run of any tabs and the server the keys of all snapshots stay among a given set exactly when no sign-in and no page sets another one: no refresh, adoption, reload or hydration loses or exchanges a key |
| SessionKeys.RefreshNeverLosesTheKey | sdks/ave-sdk/src/session.ts:341-385 | in every run in which no other key is set, what a refresh saves has the key of the snapshot before it, and a tab that adopts keeps its key, or takes the stored one if it has none |
| SessionKeys.AdoptsTheStoredKeyExactly | sdks/ave-sdk/src/session.ts:343-348 | a tab that adopts the stored snapshot ends with the stored key exactly if there is one or the tab had none, and with the key it had exactly if no other one is stored |
| SessionKeys.AdoptionUndoesAReset | sdks/ave-sdk/src/session.ts:343-348 | another tab signs in, the key is reset and none comes with the response: the tab adopts that snapshot, the mark of the reset included, and keeps the old key |
| SessionCounterexamples.EveryHypothesisIsNeeded | sdks/ave-sdk/src/session.ts:332-407 | with all hypotheses kept no run trips reuse detection; with any single one dropped some run does |
| RateLimit.AllowedExactly | ave-server/src/lib/rate-limit.ts:58-77 | exactly the first `limit` calls of every window are allowed |
| RateLimit.SpanBound | ave-server/src/lib/rate-limit.ts:58-77 | in any half-open span of k windows at most (k + 1) * limit - 1 calls are allowed |
| RateLimit.SpanBoundIsAttained | ave-server/src/lib/rate-limit.ts:58-77 | for every limit, window above one and k some trace attains that number |
| RateLimit.ExpiryIsInvisible | ave-server/src/lib/rate-limit.ts:88-92 | a store that drops entries from ceil(resetAt / 1000) seconds on holds, before every decision, what one that keeps them holds |
| RateLimit.RetryAfterIsExact | ave-server/src/lib/rate-limit.ts:68 | waiting s seconds finds the window closed and the call allowed exactly when s is at least retryAfterSeconds; a denied caller that waits less is denied again |
| RateLimit.PassedInOneOfTwo | ave-server/src/lib/rate-limit.ts:103-144 | the calls of a key that pass are those within the limit of its durable bucket or of its bucket in memory, exactly so when no answer of the durable object is lost |
| RateLimit.DurableCallsPassExactly | ave-server/src/lib/rate-limit.ts:103-122 | while the key's durable object answers, a call passes exactly when it is within the limit there |
| RateLimit.RunIsSerial | ave-server/src/lib/rate-limit.ts:141-142 | a run in which no fallback of the key reads between another one's reading and storing decides and stores what its charges do when they are made one after the other |
| RateLimit.SerialThroughoutExactly | ave-server/src/lib/rate-limit.ts:141-142 | a run counts and stores like its charges made one after the other, throughout, exactly when every fallback finds the latest bucket stored or its window closed, and the last of the fallbacks on their way stores the latest bucket |
| RateLimit.KeyIsLimited | ave-server/src/lib/rate-limit.ts:103-144 | in every run whose fallbacks come in time in that sense, over many keys and with durable objects that answer, lose answers or fail, a span of k windows passes at most twice the bound, and at most the bound without fallbacks; the memory is that of one isolate |
| RateLimit.KeyLimitIsAttained | ave-server/src/lib/rate-limit.ts:103-144 | for every limit, window above one and k some such run, even one without overlaps, attains twice the bound |
| RateLimit.OverlapIsHarmlessExactly | ave-server/src/lib/rate-limit.ts:141-142 | two fallbacks that overlap leave what two that do not leave exactly when the first one's window is over by the second; otherwise the second counts one call too few |
| RateLimit.OverlapsPassTogether | ave-server/src/lib/rate-limit.ts:141-142 | any number of fallbacks that read before one of them stores pass, whatever the limit |
| RateLimit.TwoPassWhereOneMay | ave-server/src/lib/rate-limit.ts:141-142 | with limit one, two overlapping calls pass and the bucket counts one |
| RateLimit.TogetherIsSerialExactly | ave-server/src/lib/rate-limit.ts:147 | rules of one moment that read before any of them stores, as under Promise.all, leave what charging one after the other leaves exactly when no two share a key, and then decide the same |
| Activity.ReadingIsListed | ave-server/src/routes/apps/app-data.ts:227-284 | pages read one after the other, with rows inserted in between, are one list in order, so no row comes twice |
| Activity.ReadingIsComplete | ave-server/src/routes/apps/app-data.ts:227-284 | when the last page has been read, no row that was there at the start was skipped |
| Activity.ReadingEnds | ave-server/src/routes/apps/app-data.ts:260-281 | reading ends once pages times limit exceeds the rows that ever come after the cursor |
| Activity.EveryInitialRowOnce | ave-server/src/routes/apps/app-data.ts:227-284 | every row present at the start is read exactly once, in order, whatever is inserted meanwhile |
| Activity.PagesConcatenateToTheList | ave-server/src/routes/apps/app-data.ts:227-284 | without insertions the pages concatenate to exactly the list sorted by time, source and id, descending |
| ActivityCursor.CursorRoundTrip | ave-server/src/routes/apps/app-data.ts:39-60 | a cursor comes back from its base64url text exactly when its time is a safe integer and its id is not empty; otherwise the text is rejected |
| ActivityCursor.OwnCursorRefusedExactly | ave-server/src/routes/apps.ts:222-227 | the route answers 400 to a cursor it gave out exactly when the row's id is empty or the text is longer than the query allows |
| ActivityCursor.ClientReadsEveryInitialRowOnce | ave-server/src/routes/apps.ts:219-234 | the exactly-once theorem at the HTTP interface |
| E2eeScopes.ResolversAgreeExactly | ave-web/src/lib/surfaces/web/lib/e2ee-scopes.ts:81-110 | browser and server agree on mode and reset flag exactly under the stated condition on the request and the app |
| E2eeScopes.ListedScopeDivides | ave-web/src/lib/surfaces/web/lib/e2ee-scopes.ts:81-110 | for an app that lists an E2EE scope and a request without one the server finds no mode and the browser the legacy one |
| E2eeScopes.TwoModesDivide | ave-web/src/lib/surfaces/web/lib/e2ee-scopes.ts:81-110 | on a reset that names two modes the server reports a conflict and the browser takes the stored mode |
| E2eeScopes.StrippedAppAgrees | ave-server/src/lib/e2ee-scopes.ts:99-151 | for an app whose scopes were stripped and a request of at most one mode the resolvers give the same answer |
| E2eeKeys.AcceptedExactly | ave-server/src/lib/app-e2ee-auth.ts:18-108 | a request for an implemented mode is accepted exactly when its update leaves the row well formed, replaces nothing unless it resets, and stores every key it sends, each of them valid |
| E2eeKeys.OkThroughoutExactly | ave-server/src/routes/oauth/authorize.ts:519-533 | from a consistent state a run of any handlers keeps the row well formed throughout exactly when none of its updates meets a row of the other mode |
| E2eeKeys.StaleWriteIsWellFormedExactly | ave-server/src/routes/oauth/authorize.ts:519-533 | an update decided against an older reading leaves the row well formed exactly when it resets, has no mode, or meets no mode but its own |
| E2eeKeys.ModeSaysWhichKeys | ave-server/src/lib/app-e2ee-auth.ts:110-155 | in every run whose updates meet no other mode the stored mode is symmetric, asymmetric or null exactly when just the symmetric key, just the key pair, or nothing is stored |
| E2eeKeys.StaleWriteKeepsExactly | ave-server/src/routes/oauth/authorize.ts:519-533 | an update decided against an older reading keeps what is stored exactly when that reading still holds and the checks would accept the request against the row it meets |
| E2eeKeys.WriteOnceExactly | ave-server/src/lib/app-e2ee-auth.ts:18-108 | between resets, recoveries and revocations every step of a run keeps set keys and modes exactly when every update meets that condition |
| E2eeKeys.KeysAreWriteOnce | ave-server/src/lib/app-e2ee-auth.ts:18-108 | then keys and modes that are set at the start are the same at the end |
| E2eeKeys.CodeCarriesTheRowsKeys | ave-server/src/routes/oauth/authorize.ts:473-487 | for the resolved mode the code carries the keys the row holds after the write exactly when there is a mode or the stored mode is the one that was read; if the row is as it was read, the code equals it exactly when the request sent no key the row did not take |
| E2eeKeys.TwoUpdatesOverwrite | ave-server/src/routes/oauth/authorize.ts:519-533 | two requests that send a first key: the second update overwrites the first key, and both hand out a code |
| E2eeKeys.TwoModesMix | ave-server/src/routes/oauth/authorize.ts:519-533 | a first key and a first key pair: the row ends with both, which no mode describes |
| E2eeKeys.StaleUpdatesLoseKeys | ave-server/src/routes/oauth/authorize.ts:519-533 | both happen with actual keys that pass the checks |
| E2eeRuns.AcceptableExactly | ave-server/src/lib/app-e2ee-auth.ts:18-108 | a request with two modes, a reset without one or a mode that is not implemented is refused; any other is accepted exactly if there is a row that stores it, which is the row it stores |
| E2eeRuns.FirstAuthorizationExactly | ave-server/src/routes/oauth/authorize.ts:265-335 | an undisturbed first authorization inserts a row that stores the request, exactly if it is acceptable; otherwise nothing happens |
| E2eeRuns.FurtherAuthorizationExactly | ave-server/src/routes/oauth/authorize.ts:265-315 | an undisturbed further authorization makes the row store the request, exactly if it is acceptable for the keys that are there |
| E2eeRuns.ConflictingInsertExactly | ave-server/src/routes/oauth/authorize.ts:336-380 | an insert that meets a row does what a further authorization would have done: it stores its request exactly if that is acceptable for the row it meets |
| E2eeRuns.RecoveryExactly | ave-server/src/routes/oauth/app-key-recovery.ts:29-74 | an undisturbed recovery replaces all keys by the one it sends, exactly if that is a valid envelope and the row has symmetric keys or none |
| E2eeRuns.RevokedKeysAreGone | ave-server/src/routes/oauth/account.ts:382 | after a revocation an update or a recovery that had read the row writes nothing, and does not touch a row inserted since |
| E2eeRuns.KeySizesExactly | ave-server/src/lib/encryption-key-payload.ts:1-41 | a key in standard base64 is accepted exactly for its size: an envelope from 12 bytes to 64 KiB, a public key from 20 bytes to 16 KiB |
| LoginApproval.ApprovalIsSafe | ave-server/src/routes/login/approval.ts:129-242 | in every interleaving no request is both approved and denied, each creates at most one session and only after approval, and the requester gets exactly what approve stored |
| LoginApproval.LogsInExactlyWhileOpen | ave-server/src/routes/login/approval.ts:129-242 | as time goes on a request can still log somebody in exactly while it is pending before its expiry, approved with both keys and not past its expiry, about to be claimed by a poll that found it so, or claimed by a handler |
| LoginApproval.ExpiredNeverLogsIn | ave-server/src/routes/login/approval.ts:129-242 | once a poll has answered that a pending request is expired, nobody is logged in by it in any continuation |
| LoginRuns.ApprovalExactly | ave-server/src/routes/devices.ts:121-169 | an undisturbed approval stores the grant and answers so exactly if the request is pending, unexpired at the read and at the update, and one of the approver's handles asked for it; every other answer with its condition |
| LoginRuns.DenialExactly | ave-server/src/routes/devices.ts:204-239 | an undisturbed denial stores the denial and answers so exactly if the request is pending, unexpired at the update, and one of the denier's handles asked for it |
| LoginRuns.DeniedNeverLogsIn | ave-server/src/routes/devices.ts:227-239 | after the denial of an open request by one of its handles the row is denied, and no continuation logs anybody in by it |
| LoginRuns.OnlyTheHandleDecides | ave-server/src/routes/devices.ts:146-149 | in every run in which no approver has the handle that asked, the request is never approved and logs nobody in; likewise it is never denied |
| LoginRuns.RequestIsOpenForFiveMinutes | ave-server/src/routes/login/approval.ts:57-70 | a new request can be approved for exactly five minutes |
| LoginRuns.ApprovedPollLogsIn | ave-server/src/routes/login/approval.ts:152-235 | an undisturbed poll for an approved request logs in once, answers what approve stored and removes the request; without the identity it consumes the request and logs nobody in |
| LoginRuns.DeadClaimNeverLogsIn | ave-server/src/routes/login/approval.ts:152-196 | a poll that dies after its claim leaves a request by which nobody is ever logged in |
| Delegation.InvThroughoutExactly | ave-server/src/routes/oauth/authorize.ts:418-452 | from a consistent state a run of any handlers keeps one grant per key, with the approved scopes, exactly when every insert finds no grant, every update of an unrevoked grant the scopes it read up to those it requests, and no update of a revoked grant carries a scope that is not approved otherwise |
| Delegation.OneGrantPerKey | ave-server/src/routes/oauth/authorize.ts:418-452 | in every such consistent run a key has at most one unrevoked grant, and its text permits exactly what was approved since the last revocation |
| Delegation.TwoApprovalsDivideTheKey | ave-server/src/routes/oauth/authorize.ts:418-440 | two approvals that both find no grant insert one each |
| Delegation.LaterWriteDropsAScope | ave-server/src/routes/oauth/authorize.ts:442-449 | two approvals that widen the same reading: the later write drops what the earlier one added |
| Delegation.ScopeOnlyGrows | ave-server/src/routes/oauth/authorize.ts:442-449 | in every consistent run without a revocation of its grant, what a key permits only grows |
| Delegation.ConnectPermitsExactly | ave-server/src/routes/oauth/authorize.ts:411-452 | an undisturbed approval adds exactly the requested scopes to its key if the resource offers them all, and touches no other key |
| Delegation.RevokePermitsNothing | ave-server/src/routes/oauth/account.ts:450-462 | a revocation leaves its key nothing and every other key what it had |
| Delegation.RevokesExactly | ave-server/src/routes/oauth/account.ts:450-462 | an undisturbed revocation takes exactly the user's own unrevoked grant out of force, and changes nothing for any other |
| Delegation.ExchangedExactly | ave-server/src/routes/oauth/token-exchange.ts:82-106 | after every consistent run a delegated token is issued exactly when there is an unrevoked grant and every requested scope is offered and was approved since the last revocation; it carries those scopes |
| OrgKeys.InvThroughoutExactly | ave-server/src/routes/business-keys.ts:189-211 | from a consistent state a run of any handlers keeps grants in step with members and keyrings exactly when every insert of grants that the unique index admits finds its targets active members and its keyring active, or about to be revoked, and no handler dies that alone would have revoked a grant in force |
| OrgKeys.ActiveGrantsAreCurrent | ave-server/src/routes/business-keys.ts:189-211 | in every such consistent run each active grant targets an active member and hangs on an active keyring of its organization, but for those a removal or rotation that is still running is about to revoke |
| OrgKeys.RemovalMissesALateGrant | ave-server/src/routes/business.ts:341-348 | a removal between the validation and the insert of a creation leaves a grant in force for somebody who left |
| OrgKeys.RotationMissesALateGrant | ave-server/src/routes/business-keys.ts:254-259 | a rotation between the two inserts of a creation leaves a grant in force on a retired keyring |
| OrgKeys.DeadRemovalLeavesAGrant | ave-server/src/routes/business.ts:341-348 | a removal that dies between its two updates leaves a grant in force that no handler is going to revoke |
| OrgKeys.EpochCountsAncestors | ave-server/src/routes/business-keys.ts:249-272 | in every run, any interleaving included, a keyring's epoch is one plus the number of its ancestors, none of which is the keyring itself or active |
| OrgKeys.IndexRefusesExactly | ave-server/src/db/business-schema.ts:39 | in every run an insert of grants is refused by the unique index on keyring and identity exactly when the request names an identity twice |
| OrgKeys.CreateGrantsExactly | ave-server/src/routes/business-keys.ts:176-211 | after an undisturbed creation the keyring is held by exactly the identities its grants name if and only if none is named twice; otherwise by nobody |
| OrgKeys.RotateGrantsExactly | ave-server/src/routes/business-keys.ts:238-284 | after an undisturbed rotation the old keyring is held by nobody, and the new one by exactly the identities named if and only if none is named twice; otherwise by nobody |
| OrgKeyRuns.CreatesExactly | ave-server/src/routes/business-keys.ts:176-211 | an undisturbed creation of whatever targets adds the keyring and the grants of the identities named, exactly if its mode allows it, every key text is valid and every identity is an active member of the organization; otherwise it changes nothing |
| OrgKeyRuns.RotatesExactly | ave-server/src/routes/business-keys.ts:238-284 | an undisturbed rotation retires the keyring, revokes its grants and no other and adds the successor, exactly under the same conditions on the organization's keyring; otherwise it changes nothing |
| OrgKeyRuns.UndisturbedCreationIsConsistent | ave-server/src/routes/business-keys.ts:176-211 | from a consistent state an undisturbed creation of whatever targets is a consistent run, so grants in force still belong to active members and keyrings |
| OrgKeyRuns.UndisturbedRotationIsConsistent | ave-server/src/routes/business-keys.ts:238-284 | likewise an undisturbed rotation |
| OrgKeyRuns.RemovesExactly | ave-server/src/routes/business.ts:332-348 | an undisturbed removal ends the membership and takes exactly the identity's grants in the organization out of force; joining again brings back the membership and no grant |
| OrgKeys.RepeatedIdentityLocksOut | ave-server/src/routes/business-keys.ts:254-284 | a rotation that names the one holder twice leaves neither keyring with a holder |
| OrgKeys.RotationIsFinal | ave-server/src/routes/business-keys.ts:254-259 | a rotated keyring never comes back into force, nor do its grants in a consistent run, but for those another rotation of it is about to revoke |
| OrgKeys.RemovalIsFinal | ave-server/src/routes/business.ts:341-348 | after a removal, joining again brings no grant back: only a key created or rotated for the identity does, one whose handler is on its way included |
| JsNumber.UShr | sdks/ave-sdk/src/sha256-pure.ts:13 | `>>>` on a number is a logical right shift of its 32 low bits |
| JsNumber.Shl | sdks/ave-sdk/src/sha256-pure.ts:13 | `<<` is a left shift of the 32 low bits, read back as a signed number |
| JsNumber.Sar | sdks/ave-sdk/src/sha256-pure.ts:71 | `>>` divides the signed 32-bit value by a power of two, rounding down |
| JsNumber.Not | sdks/ave-sdk/src/sha256-pure.ts:43 | `~` complements the 32 low bits |
| Sha256Pure.Rotr | sdks/ave-sdk/src/sha256-pure.ts:12-14 | the possibly negative int32 has the bits of ROTR of section 3.2 of FIPS 180-4 |
| Sha256Pure.Word4 | sdks/ave-sdk/src/sha256-pure.ts:20-24 | four bytes put together with shifts and ors are the word they spell |
| Sha256Pure.ScheduleWord | sdks/ave-sdk/src/sha256-pure.ts:26-30 | the sum followed by `>>> 0` is the schedule step of section 6.2.2, addition modulo 2^32 |
| Sha256Pure.Temp1 | sdks/ave-sdk/src/sha256-pure.ts:42-44 | `temp1` has the bits of T1 of section 6.2.2, step 3 |
| Sha256Pure.Temp2 | sdks/ave-sdk/src/sha256-pure.ts:45-47 | `temp2` has the bits of T2 |
| Sha256Pure.StoredSum | sdks/ave-sdk/src/sha256-pure.ts:52-66 | a two-term sum followed by `>>> 0` is addition modulo 2^32 |
| Sha256Pure.PrepareWords | sdks/ave-sdk/src/sha256-pure.ts:17-30 | the 64 words are the message schedule of the block |
| Sha256Pure.RoundOnNumbers | sdks/ave-sdk/src/sha256-pure.ts:41-57 | one pass of the round loop is one round of the standard on the eight registers |
| Sha256Pure.Sha256Block | sdks/ave-sdk/src/sha256-pure.ts:16-67 | the state array becomes the compression of its old value with the block |
| Sha256Pure.PaddedLengthFits | sdks/ave-sdk/src/sha256-pure.ts:71 | the 32-bit padded length has room exactly for inputs below 2^31 - 72 bytes; it is then the least multiple of 64 that is at least n + 9 |
| Sha256Pure.WriteLength | sdks/ave-sdk/src/sha256-pure.ts:76-78 | the two stores put the 64-bit big-endian length at the end and change nothing else |
| Sha256Pure.PadMessage | sdks/ave-sdk/src/sha256-pure.ts:70-78 | the padded bytes are the padding of section 5.1.1, or the typed array throws, exactly from 2^31 - 72 bytes on |
| Sha256Pure.HashPadded | sdks/ave-sdk/src/sha256-pure.ts:84-86 | the loop over 64-byte blocks is the iteration of the compression over the message |
| Sha256Pure.WriteDigest | sdks/ave-sdk/src/sha256-pure.ts:88-93 | the output bytes are the eight words, most significant byte first |
| FirstPrimes.FirstPrimesAreThePrimes | sdks/ave-sdk/src/sha256-pure.ts:1-10 | a number is in the list of primes exactly when it is prime and below 312 |
| FirstPrimes.FirstPrimesAscend | sdks/ave-sdk/src/sha256-pure.ts:1-10 | the list of 64 ascends, so it is the first 64 primes and begins with the first eight |
| Fips180.ChoiceAndMajority | sdks/ave-sdk/src/sha256-pure.ts:44-47 | bit by bit, the `ch` of a round chooses between its last two words, and `maj` is the majority |
| Fips180.SigmaBits | sdks/ave-sdk/src/sha256-pure.ts:27-47 | each bit of the six functions of section 4.1.2 is the exclusive or of the bits of the word at the distances the source rotates and shifts by |
| Base64Url.GroupIsStandard | sdks/ave-sdk/src/index.ts:372-383 | one pass over three bytes appends their section 4 encoding, with padding at the end |
| Base64Url.UrlEncodeShape | sdks/ave-sdk/src/index.ts:368-389 | the encoding has length ceil(4n/3), never 1 modulo 4, and only characters of the section 5 alphabet |
| Pkce.GenerateCodeVerifier | sdks/ave-sdk/src/index.ts:111-115 | from any 32 bytes, 43 characters of the set the server accepts (section 4.1 of RFC 7636) |
| Pkce.GenerateCodeChallenge | sdks/ave-sdk/src/index.ts:117-121 | the challenge is the one the server computes for S256 (section 4.2 of RFC 7636) |
| Utf16.SameTextExactly | ave-server/src/routes/oauth/shared.ts:44-45 | two strings become one text for Buffer.from exactly when they are equal once their lone surrogates are replaced |
| Pkce.AcceptedByTheStandard | ave-server/src/routes/oauth/shared.ts:39-53 | in the terms of RFC 7636: 43 to 128 unreserved characters whose S256 transformation, or they themselves for any other method, are the challenge |
| Utf8.DecodeOfEncode | ave-server/src/routes/oauth/authorization-code.ts:106-107 | UTF-8 decoding undoes encoding, so the bytes that are hashed determine the text |
| StandardExamples.ExamplesOfRfc3629 | ave-server/src/routes/oauth/authorization-code.ts:106-107 | the examples of section 7 of RFC 3629 come out as given there, one for each length, the last one also from its surrogate pair |
| OAuthServer.Database.ReadRefreshToken | ave-server/src/routes/oauth/refresh-token.ts:31-82 | the first select and its checks: refused, to be marked, to be revoked as expired, or to be claimed |
| OAuthServer.Database.SelectByToken | ave-server/src/routes/oauth/refresh-token.ts:31-43 | the search returns the one row with the token |
| OAuthServer.Database.RejectOrganizationContext | ave-server/src/routes/oauth/refresh-token.ts:118-129 | a refused organization context answers without touching a row |
| OAuthServer.Database.ClaimRefreshToken | ave-server/src/routes/oauth/refresh-token.ts:170-178 | the update claims the row only while both marks are null; a lost claim goes on to mark the family |
| OAuthServer.Database.InsertRotatedToken | ave-server/src/routes/oauth/refresh-token.ts:211-227 | the batch adds one row that points back at the claimed one and carries its grant |
| OAuthServer.Database.UpdateFamily | ave-server/src/routes/oauth/shared.ts:77-82 | the update marks exactly the rows of the family |
| OAuthServer.Database.MarkRefreshTokenFamilyReuse | ave-server/src/routes/oauth/refresh-token.ts:72-75 | the handler marks the family it read, and the invariants survive |
| OAuthServer.Database.RevokeExpiredToken | ave-server/src/routes/oauth/refresh-token.ts:77-82 | an expired row is revoked |
| OAuthServer.Database.CreateAuthorizationCode | ave-server/src/lib/oauth-store.ts:59-73 | a new code is stored with its record |
| OAuthServer.Database.ConsumeAuthorizationCode | ave-server/src/lib/oauth-store.ts:100-121 | the delete takes the code whether or not it has expired |
| OAuthServer.Database.GetAuthorizationCode | ave-server/src/lib/oauth-store.ts:75-98 | reading leaves the code; an expired one is deleted by a second statement |
| OAuthServer.Database.DeleteAuthorizationCode | ave-server/src/lib/oauth-store.ts:93-96 | an expired code that was read is deleted, whatever was stored under it meanwhile |
| OAuthServer.Database.ExchangeCode | ave-server/src/routes/oauth/shared.ts:329-354 | the checks after consumption and the batch that stores a refresh row under its own family |
| OAuthServer.Database.CleanupExpiredCodes | ave-server/src/lib/oauth-store.ts:171-177 | clean-up removes exactly the codes that expired before it |
| RefreshChains.LiveRowIsLast | ave-server/src/routes/oauth/refresh-token.ts:211-227 | an unrevoked row is the end of its chain |
| RefreshChains.NoRotationBesideUnrevoked | ave-server/src/routes/oauth/refresh-token.ts:170-178 | while a family has an unrevoked row, no handler is between claim and insert of that family |
| RefreshTheorems.ReadDecidesExactly | ave-server/src/routes/oauth/refresh-token.ts:31-82 | a presented token is refused exactly if the client is not authenticated or no row of its app has the token; otherwise the state of the row decides between claim, family mark and revocation |
| TokenRuns.PresentationExactly | ave-server/src/routes/oauth/refresh-token.ts:31-82 | what reading a presented token leads to and that it changes nothing else, for every token, app, client and time |
| TokenRuns.ExpiredTokenIsRevoked | ave-server/src/routes/oauth/refresh-token.ts:77-82 | an expired token is revoked when it is presented, whatever happened to its row since it was read, and no other row changes |
| TokenRuns.RejectedTokenStaysLive | ave-server/src/routes/oauth/refresh-token.ts:118-129 | a live token refused for its organization context changes nothing but the handler, and the chain invariant stays |
| CodeTheorems.StepKeepsCodes | ave-server/src/lib/oauth-store.ts:100-121 | every step keeps each issued code in at most one place: stored, held by one handler, or answered once |
| CodeTheorems.GrantedExactly | ave-server/src/routes/oauth/authorization-code.ts:32-137 | tokens are granted exactly to the right redirect, client, origin, proof and scopes, each written out, and by FedCM exactly to the redirect and the app of the code; a refresh token only to registered clients |
| CodeTheorems.StepKeepsOrigins | ave-server/src/routes/oauth/shared.ts:329-354 | every family goes back to an answered code of its own |
| CodeTheorems.VerdictExactly | ave-server/src/routes/oauth/authorization-code.ts:96-117 | a verifier is required, malformed, mismatched or accepted exactly as it is empty, not well formed, not the challenge's or the challenge's |
| CodeTheorems.ErrorNamesTheFailedCheck | ave-server/src/routes/oauth/authorization-code.ts:32-137 | the error of a refused exchange says which check failed: invalid_scope only if every other check passes, and the exact conditions of invalid_request and invalid_client; invalid_grant otherwise |
| TokenRuns.CodeIsReadExactly | ave-server/src/lib/oauth-store.ts:75-98 | looking a code up finds it exactly if it is stored and in time, leaves it then, and removes it once it has expired |
| TokenRuns.CleanedCodes | ave-server/src/lib/oauth-store.ts:171-177 | clean-up leaves exactly the codes that have not expired |
| AveSession.Session.HydrateFromStorage | sdks/ave-sdk/src/session.ts:218-245 | the first hydrate takes the stored snapshot, or signs the tab out if the load throws; later ones do nothing |
| AveSession.Session.ReloadFromStorage | sdks/ave-sdk/src/session.ts:175-183 | a reload takes the stored snapshot if there is one |
| AveSession.Session.ApplyPeerSignOut | sdks/ave-sdk/src/session.ts:185-189 | the tab forgets its snapshot |
| AveSession.Session.SetTokensFromResponse | sdks/ave-sdk/src/session.ts:250-252 | the snapshot to be saved is computed from the response and the one in memory |
| AveSession.Session.SetAppKeyBase64 | sdks/ave-sdk/src/session.ts:269-281 | throws without a snapshot; otherwise the snapshot in memory with the new key is to be saved |
| AveSession.Session.SignOut | sdks/ave-sdk/src/session.ts:297-299 | the memory is cleared before the storage |
| AveSession.Session.SaveWrite | sdks/ave-sdk/src/session.ts:252 | the storage takes the snapshot to be saved |
| AveSession.Session.AfterWrite | sdks/ave-sdk/src/session.ts:253-256 | once the save is done, new tokens replace the snapshot and sign the tab in, a new app key replaces only the snapshot, a sign-out changes only the status |
| AveSession.Session.CaptureMemory | sdks/ave-sdk/src/session.ts:333-334 | under the lock, the snapshot in memory is remembered |
| AveSession.Session.LoadInsideLock | sdks/ave-sdk/src/session.ts:335 | the stored snapshot is read; a failed read counts as an empty storage |
| AveSession.Session.DecideRefresh | sdks/ave-sdk/src/session.ts:336-372 | a fresher stored snapshot is merged and adopted, a tab without a refresh token signs out, any other presents the token in memory |
| AveSession.Session.ReceiveReply | sdks/ave-sdk/src/session.ts:353-383 | a token response is turned into the snapshot to be saved; an error ends the refresh, and clears memory and storage exactly when its status or message asks for a sign-out |
| AveSession.Session.SaveRefreshed | sdks/ave-sdk/src/session.ts:384 | the storage takes the new snapshot |
| AveSession.Session.AfterRefresh | sdks/ave-sdk/src/session.ts:385-388 | the tab takes the new snapshot and the lock is released |
| RefreshErrors.DetailIsTheFirstText | sdks/ave-sdk/src/oauth-token.ts:23-33 | what the message adds: the description if there is one, else the code, else the first 500 characters of the body |
| RefreshErrors.MatchesBeside | sdks/ave-sdk/src/session.ts:328 | where a text is cut at a separator only the dots of the pattern reach across |
| SessionSystem.RefusalArrives | sdks/ave-sdk/src/session.ts:373-379 | a refusal of the handler breaks no hypothesis, ends the refresh, frees the lock and changes nothing else of the tab or the storage |
| SessionServer.ClaimTakesToken | ave-server/src/routes/oauth/refresh-token.ts:170-178 | the claim for a tab takes exactly the presented token from the live tokens of the tabs' families |
| SessionServer.InsertBringsToken | ave-server/src/routes/oauth/refresh-token.ts:211-227 | the insert for a tab adds exactly one live token that no tab knew |
| SessionServer.ActsOutside | ave-server/src/routes/oauth/refresh-token.ts:31-227 | a handler the tabs do not wait for changes no row of their families |
| SessionServer.PresentLiveToken | ave-server/src/routes/oauth/refresh-token.ts:54-82 | a live token presented in time is refused untouched or goes on to be claimed |
| SessionSystem.DisciplinedExactly | sdks/ave-sdk/src/session.ts:332-407 | a step is disciplined exactly when it breaks none of the eight hypotheses |
| SessionSafety.PresentsLiveToken | sdks/ave-sdk/src/session.ts:336-372 | a tab that does not adopt presents a token that is live on the server |
| SessionRuns.AppKeyReplacesTheKey | sdks/ave-sdk/src/session.ts:269-284 | an undisturbed key change replaces the key of the stored snapshot and of the tab's and nothing else; without a snapshot nothing happens |
| SessionRuns.HydratesOnce | sdks/ave-sdk/src/session.ts:218-245 | a new tab takes what is stored, or nothing if the load throws; hydrating again changes nothing |
| SessionRuns.FailedRefreshExactly | sdks/ave-sdk/src/session.ts:374-380 | a refresh whose request fails frees the lock; it signs the tab out and empties the storage exactly if the error says so, and otherwise leaves both as they were |
| SessionCounterexamples.StaleRefreshTrips | sdks/ave-sdk/src/session.ts:336-349 | the refresh of a tab whose token was rotated away trips reuse detection exactly when it finds no fresher snapshot stored |
| SessionCounterexamples.ReachesRotated | sdks/ave-sdk/src/session.ts:332-389 | a disciplined run carries a whole rotation, so the discipline is not empty |
| RateLimit.BucketCountsFromOpener | ave-server/src/lib/rate-limit.ts:53-77 | the stored bucket holds how many calls came since its window opened and when it closes |
| RateLimit.WindowAdmits | ave-server/src/lib/rate-limit.ts:58-77 | a window admits the smaller of its number of calls and the limit |
| RateLimit.DecidesAsTold | ave-server/src/lib/rate-limit.ts:46-71 | what one call is told and what its bucket becomes, written out: count, window, verdict, and the least whole seconds after which the window is over |
| RateLimit.BucketsAreIndependent | ave-server/src/lib/rate-limit.ts:58-77 | what a bucket holds after charges made one after the other depends on the charges to it alone |
| RateLimit.NoOverlapIsInTime | ave-server/src/lib/rate-limit.ts:141-142 | fallbacks of a key that do not overlap come in time |
| RateLimit.RateLimiter.Fetch | ave-server/src/lib/rate-limit.ts:82-96 | one transaction counts the call; an expired entry that was dropped makes no difference |
| RateLimit.RateLimiter.CheckRule | ave-server/src/lib/rate-limit.ts:118-141 | the durable answer, the fail-closed denial, or the fallback up to its await: the bucket is read and the next one is pending |
| RateLimit.RateLimiter.StoreFallback | ave-server/src/lib/rate-limit.ts:142 | behind the await the pending bucket is stored |
| RateLimit.RateLimiter.CallAll | ave-server/src/lib/rate-limit.ts:147 | rules that all fall back are called in order, each reading its bucket before any is stored |
| RateLimit.RateLimiter.StoreAll | ave-server/src/lib/rate-limit.ts:147 | their buckets are stored in the order of the rules |
| RateLimit.RateLimiter.CheckAll | ave-server/src/lib/rate-limit.ts:147 | every rule that falls back decides on the buckets from before the request, and each key ends with the bucket of its last rule |
| RateLimit.RateLimiter.Enforce | ave-server/src/lib/rate-limit.ts:148-163 | the request passes exactly when all rules allow; otherwise the first denial decides between 429 and 503 |
| Activity.CursorSelectsTheRest | ave-server/src/routes/apps/app-data.ts:233-257 | the two subqueries' cursor predicates together select exactly the rows listed after the cursor |
| Activity.PageSplits | ave-server/src/routes/apps/app-data.ts:227-284 | a page is the first rows after its cursor, and its own cursor stands right behind them exactly if there are more |
| Activity.ListedIsNewestFirst | ave-server/src/routes/apps/app-data.ts:248 | what is listed is newest first; of rows of one moment the delegation log comes first, and ids descend by code points |
| JsonText.ReadOfQuoted | ave-server/src/routes/apps/app-data.ts:40 | JSON.parse reads back every string JSON.stringify writes |
| JsonText.ReadOfInt | ave-server/src/routes/apps/app-data.ts:40 | and every whole number |
| StandardExamples.ExamplesOfCursorTexts | ave-server/src/routes/apps/app-data.ts:39-41 | a number, a quoted text with escapes and the two source names as JSON.stringify writes them |
| ActivityCursor.DecodedComesBack | ave-server/src/routes/apps/app-data.ts:39-60 | whatever text a cursor was read from, the text given out for it reads as the same cursor |
| ActivityCursor.TextsFollowCursors | ave-server/src/routes/apps.ts:219-234 | sending the texts back reads what following the cursors themselves reads |
| E2eeScopes.CollectModes | ave-server/src/lib/e2ee-scopes.ts:105-123 | the loop collects exactly the modes the scopes name |
| E2eeScopes.ResolveOnServer | ave-server/src/lib/e2ee-scopes.ts:131-151 | several modes are a conflict, one is the mode, none is the legacy mode or on reset the stored one |
| E2eeScopes.ResolveInBrowser | ave-web/src/lib/surfaces/web/lib/e2ee-scopes.ts:81-110 | the browser's answer, which reports no conflict and ignores the app's scopes |
| E2eeScopes.StripE2eeScopes | ave-server/src/lib/e2ee-scopes.ts:99-103 | no E2EE or user_id scope is left, every scope left was configured, and every other configured scope is kept |
| E2eeKeys.FirstMeetsRow | ave-server/src/routes/oauth/authorize.ts:336-380 | the second of two first authorizations goes on only if the checks accept it, stored mode included, against the row it met |
| E2eeRuns.StoredIsDetermined | ave-server/src/lib/app-e2ee-auth.ts:110-155 | there is one such row at most: every key was sent or was there, every key that was sent is stored, and without a reset every key that was there stays |
| E2eeRuns.ScopesFollowModeNames | ave-server/src/lib/e2ee-scopes.ts:3-70 | a mode is asked for by exactly the scope of its stored name, and read back from that name |
| E2eeKeys.Authorization.SelectAuthorization | ave-server/src/routes/oauth/authorize.ts:265-315 | the row is read and the request checked against it; what is to be inserted or updated is remembered with the row that was read |
| E2eeKeys.Authorization.InsertAuthorization | ave-server/src/routes/oauth/authorize.ts:317-335 | the row is inserted and the code handed out, or the conflict is noticed |
| E2eeKeys.Authorization.SelectConcurrent | ave-server/src/routes/oauth/authorize.ts:336-380 | after a conflict the row is read and the request validated again, or refused |
| E2eeKeys.Authorization.UpdateAuthorization | ave-server/src/routes/oauth/authorize.ts:473-533 | the row with the id that was read is updated, if it is still there, with what was decided then; the code is made from the row as it was read |
| E2eeKeys.Authorization.SelectForRecovery | ave-server/src/routes/oauth/app-key-recovery.ts:29-65 | a valid key goes on only for a row of symmetric or no mode |
| E2eeKeys.Authorization.UpdateRecovered | ave-server/src/routes/oauth/app-key-recovery.ts:67-74 | the key replaces all key columns of the row |
| E2eeKeys.Authorization.RevokeAuthorization | ave-server/src/routes/oauth/account.ts:382 | the row is deleted |
| LoginApproval.StepKeepsInv | ave-server/src/routes/login/approval.ts:129-242 | every step of any approve, deny or poll handler keeps the rows, the claims and the history consistent |
| LoginRuns.PollExactly | ave-server/src/routes/login/approval.ts:129-150 | what a poll answers, or goes on to do, for every request and every time, and that it changes no request |
| LoginRuns.OnePollClaims | ave-server/src/routes/login/approval.ts:152-163 | of two polls that found the request approved one claims it, the other one is told to wait and changes nothing |
| LoginRuns.DeniedPollRemoves | ave-server/src/routes/login/approval.ts:239-242 | a poll in time removes a denied request and says so |
| LoginRuns.ApprovesExactly | ave-server/src/routes/devices.ts:152-169 | an update behind a check approves the request exactly if it still waits, whatever happened since the check |
| LoginRuns.DeniesExactly | ave-server/src/routes/devices.ts:227-239 | the same for a denial |
| LoginApproval.LoginRequests.CreateRequest | ave-server/src/routes/login/approval.ts:57-70 | a new request is pending for five minutes |
| LoginApproval.LoginRequests.CheckApproval | ave-server/src/routes/devices.ts:121-149 | a missing, handled, expired or foreign request is refused; any other goes on to the update |
| LoginApproval.LoginRequests.StoreApproval | ave-server/src/routes/devices.ts:152-169 | the update approves only a pending, unexpired request |
| LoginApproval.LoginRequests.CheckDenial | ave-server/src/routes/devices.ts:204-224 | a missing or foreign request is refused; the status is not looked at before the update |
| LoginApproval.LoginRequests.StoreDenial | ave-server/src/routes/devices.ts:227-239 | the update denies only a pending, unexpired request |
| LoginApproval.LoginRequests.ReadStatus | ave-server/src/routes/login/approval.ts:129-150 | missing, expired, consumed, key-less, claimable, denied and pending requests are told apart in the order of the source |
| LoginApproval.LoginRequests.ClaimApproval | ave-server/src/routes/login/approval.ts:152-163 | one poll at most turns approved into consumed |
| LoginApproval.LoginRequests.CreateSession | ave-server/src/routes/login/approval.ts:165-196 | the session is created only by the poll that claimed |
| LoginApproval.LoginRequests.RemoveDenied | ave-server/src/routes/login/approval.ts:239-242 | a denied request is deleted by the poll that saw it |
| LoginApproval.LoginRequests.FinishLogin | ave-server/src/routes/login/approval.ts:222-235 | the answer carries what approve stored |
| OauthScopes.ParseOfJoin | ave-server/src/lib/oauth-scopes.ts:19-25 | parsing undoes joining with spaces on clean token lists |
| OauthScopes.WordsAreTokens | ave-server/src/lib/oauth-scopes.ts:19-25 | parsed tokens are non-empty and free of separators |
| OauthScopes.ParseCutsAtSeparators | ave-server/src/lib/oauth-scopes.ts:19-25 | parsing cuts a text exactly at plus signs and white space, and a text without any is its own token |
| OauthScopes.NormalizingTrims | ave-server/src/lib/oauth-scopes.ts:1-3 | normalizing takes the white space at both ends away and nothing else |
| Delegation.MergedReadsBack | ave-server/src/routes/oauth/authorize.ts:442 | the merged scope text reads back as the union of the old scopes and the requested ones |
| Delegation.Grants.FindActive | ave-server/src/routes/oauth/authorize.ts:418-428 | the search finds the unrevoked grant of the key if there is one |
| Delegation.Grants.SelectGrant | ave-server/src/routes/oauth/authorize.ts:411-428 | the request is refused, or goes on with the grant that was found and the scopes read from it |
| Delegation.Grants.WriteGrant | ave-server/src/routes/oauth/authorize.ts:430-449 | a grant is inserted, or the one that was found is updated by id with the scopes that were read |
| Delegation.Grants.SelectDelegation | ave-server/src/routes/oauth/account.ts:450-458 | only the user's own unrevoked grant is found |
| Delegation.Grants.RevokeDelegation | ave-server/src/routes/oauth/account.ts:460-462 | the grant is revoked by id |
| Delegation.Grants.ExchangeToken | ave-server/src/routes/oauth/token-exchange.ts:82-106 | a token scope is returned exactly if the resource offers every requested scope and the unrevoked grant has it |
| OrgKeys.Organizations.Join | ave-server/src/routes/organizations.ts:356-369 | the member row is inserted or reactivated |
| OrgKeys.Organizations.RemoveMember | ave-server/src/routes/business.ts:332-341 | an existing member is removed, and the handler goes on to the grants |
| OrgKeys.Organizations.RevokeGrantsOfMember | ave-server/src/routes/business.ts:342-348 | the identity's grants in the organization are revoked |
| OrgKeys.Organizations.ValidateGrantTargets | ave-server/src/routes/business-keys.ts:69-85 | all key texts are valid and all targets are active members |
| OrgKeys.Organizations.CheckCreation | ave-server/src/routes/business-keys.ts:176-182 | a creation goes on exactly when its mode allows it and its targets are valid |
| OrgKeys.Organizations.CheckRotation | ave-server/src/routes/business-keys.ts:238-247 | a rotation goes on exactly when the keyring is the organization's, whatever its status, and its targets are valid |
| OrgKeys.Organizations.Retire | ave-server/src/routes/business-keys.ts:254-256 | the old keyring is retired |
| OrgKeys.Organizations.RevokeGrantsOfKeyring | ave-server/src/routes/business-keys.ts:257-259 | its grants are revoked |
| OrgKeys.Organizations.AddKeyring | ave-server/src/routes/business-keys.ts:261-272 | the keyring of a creation, or the successor in a rotation with the epoch that was read plus one, is inserted |
| OrgKeys.Organizations.AddGrants | ave-server/src/routes/business-keys.ts:274-284 | the grants are inserted under the keyring, or none if the unique index refuses one |

## Left out

- HTTP routing, headers, cookies, zod schemas (but for the cursor's length), JSON bodies, audit and analytics
  events, push and e-mail: no state the properties depend on.
- WebAuthn, SAML, JWT signing and encryption: calls into libraries. Token hashes are taken as injective, so a
  token stands for its hash, and ids and tokens are generated fresh.
- `crypto.subtle.digest` is taken to be SHA-256, and `atob` to be the decoder of section 4 of RFC 4648 without its
  white-space stripping; the `Buffer` branch of `base64UrlDecode` is not modelled.
- Percent-decoding in `normalizeScopeToken`: scope texts are free of `%`.
- URL and redirect matching: what they decide is a parameter of the request (`QuickOrigin`, `RegisteredClient`).
- Organization context of refresh rows, access-token rows and the key fields of token responses: they decide
  nothing in the rotation. Their lookup is one step that may refuse.
- `SessionSystem`: hydrate and reload are one load-and-apply step each; one pending write per tab; a browser
  without the lock API and `customRefresh` are not modelled, and other clients that use the tabs' tokens appear
  only as requests to the server. Signing out inside a refresh clears memory and storage in one step.
- Snapshots keep one access token and one app key of the several token and key fields, which are copied alike; the
  storage is one that drops undefined members, as JSON does.
- `RateLimit`: the native rate-limit bindings, the hashing of storage keys and rules whose numbers change while a
  key is in use; several isolates with a memory each.
- `AveSession.Session.ReceiveReply`: which of its refusals the handler sent is not tied to the state of the server;
  the theorems hold for each of them.
- `ActivityCursor.DecodeActivityCursor`: cursor texts that `encodeActivityCursor` does not write (other member
  orders, white space, invalid UTF-8, lenient base64) are answered with null; the source may read some of them.
- `E2eeKeys`: the two error texts of a failed size check are one.
- `LoginApproval`: there is one clock, and a statement and the time it or the check behind it uses belong to one
  moment; finding the identity, the enterprise sign-in check and the device record are one outcome of the
  step that inserts the session.
- `Delegation` and `OrgKeys`: communication modes, audit logs, role and signature checks; a rotation reads the
  keyring and the members in one step, as what it reads of the keyring never changes.
- Fan-out, uploads, UI, embeds, role tables, slug and handle generation, trust codes and identity limits: true but
  easy next to the above, or plumbing.
