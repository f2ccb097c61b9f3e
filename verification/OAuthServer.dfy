/** The handlers' database statements as they change the tables, one method per statement or batch. */
module OAuthServer {
  import opened Options
  import opened TokenServer
  import opened RefreshChains
  import opened CodeTheorems

  lemma StepMayKeepAll(s: Server, a: Action)
    requires Enabled(s, a)
    ensures AllInv(s) ==> AllInv(Step(s, a))
  {
    hide AllInv, Step, Enabled;
    if AllInv(s) {
      StepKeepsAll(s, a);
    }
  }

  class Database {
    var rows: map<RowId, RefreshRow>
    var codes: map<CodeId, CodeRecord>
    var handlers: map<HandlerId, Handler>
    ghost var history: History

    ghost function State(): Server
      reads this
    {
      Server(rows, codes, handlers, history)
    }

    constructor ()
      ensures State() == INITIAL && AllInv(State())
    {
      rows, codes, handlers := map[], map[], map[];
      history := History(map[], map[], {}, []);
      new;
      InitialAllInv();
    }

    /** createAuthorizationCodeWrite with a code that was never used. */
    method CreateAuthorizationCode(code: CodeId, record: CodeRecord)
      requires Enabled(State(), IssueCode(code, record))
      modifies this
      ensures State() == Step(old(State()), IssueCode(code, record))
      ensures AllInv(old(State())) ==> AllInv(State())
    {
      hide AllInv, CheckRequest, AfterRead, ClaimStep, InsertStep, MarkRows, RevokeStep, ConsumeStep, FinishStep,
           ReadCodeStep, DeleteCodeStep, CleanupStep;
      ghost var s := State();
      codes := codes[code := record];
      history := history.(issuedCodes := history.issuedCodes + {code});
      StepMayKeepAll(s, IssueCode(code, record));
    }

    /** handleRefreshToken up to the end of its checks. */
    method ReadRefreshToken(h: HandlerId, token: Token, appId: nat, authenticated: bool, now: Time)
      requires h !in handlers && TokensDistinct(rows)
      modifies this`handlers
      ensures State() == Step(old(State()), ReadRefresh(h, token, appId, authenticated, now))
      ensures AllInv(old(State())) ==> AllInv(State())
    {
      hide AllInv, CheckRequest, ClaimStep, InsertStep, MarkRows, RevokeStep, ConsumeStep, FinishStep, ReadCodeStep,
           DeleteCodeStep, CleanupStep;
      ghost var s := State();
      var found := SelectByToken(token);
      var next := Answered(Refused);
      if found.Some? && rows[found.value].appId == appId {
        var row := rows[found.value];
        if authenticated {
          if row.revokedAt.Some? || row.reuseDetectedAt.Some? {
            next := Marking(row.familyId);
          } else if now > row.expiresAt {
            next := RevokingExpired(found.value);
          } else {
            next := Claiming(found.value, row);
          }
        }
      }
      handlers := handlers[h := next];
      StepMayKeepAll(s, ReadRefresh(h, token, appId, authenticated, now));
    }

    method SelectByToken(token: Token) returns (found: Option<RowId>)
      requires TokensDistinct(rows)
      ensures found == RowOfToken(rows, token)
    {
      var ids := rows.Keys;
      while ids != {}
        invariant ids <= rows.Keys
        invariant forall id :: id in rows && rows[id].token == token ==> id in ids
        decreases |ids|
      {
        var id :| id in ids;
        if rows[id].token == token {
          return Some(id);
        }
        ids := ids - {id};
      }
      return None;
    }

    /** The organization lookup found no active membership, or no enterprise sign-in. */
    method RejectOrganizationContext(h: HandlerId)
      requires h in handlers && handlers[h].Claiming?
      modifies this`handlers
      ensures State() == Step(old(State()), RejectOrganization(h))
      ensures AllInv(old(State())) ==> AllInv(State())
    {
      hide AllInv, CheckRequest, AfterRead, ClaimStep, InsertStep, MarkRows, RevokeStep, ConsumeStep, FinishStep,
           ReadCodeStep, DeleteCodeStep, CleanupStep;
      ghost var s := State();
      handlers := handlers[h := Answered(Refused)];
      StepMayKeepAll(s, RejectOrganization(h));
    }

    /** update ... where revoked_at is null and reuse_detected_at is null returning id */
    method ClaimRefreshToken(h: HandlerId, now: Time)
      requires h in handlers && handlers[h].Claiming?
      modifies this`rows, this`handlers
      ensures State() == Step(old(State()), Claim(h, now))
      ensures AllInv(old(State())) ==> AllInv(State())
    {
      hide AllInv, CheckRequest, AfterRead, InsertStep, MarkRows, RevokeStep, ConsumeStep, FinishStep, ReadCodeStep,
           DeleteCodeStep, CleanupStep;
      ghost var s := State();
      var id, row := handlers[h].id, handlers[h].row;
      var claimed := id in rows && rows[id].revokedAt.None? && rows[id].reuseDetectedAt.None?;
      if claimed {
        rows := rows[id := rows[id].(revokedAt := Some(now))];
        handlers := handlers[h := Inserting(id, row)];
      } else {
        handlers := handlers[h := Marking(row.familyId)];
      }
      StepMayKeepAll(s, Claim(h, now));
    }

    /** The batch that stores the access token and the rotated refresh token. */
    method InsertRotatedToken(h: HandlerId, newId: RowId, newToken: Token, expiresAt: Time)
      requires Enabled(State(), InsertSuccessor(h, newId, newToken, expiresAt))
      modifies this`rows, this`handlers, this`history
      ensures State() == Step(old(State()), InsertSuccessor(h, newId, newToken, expiresAt))
      ensures AllInv(old(State())) ==> AllInv(State())
    {
      hide AllInv, CheckRequest, AfterRead, ClaimStep, MarkRows, RevokeStep, ConsumeStep, FinishStep, ReadCodeStep,
           DeleteCodeStep, CleanupStep;
      ghost var s := State();
      var id, row := handlers[h].id, handlers[h].row;
      rows := rows[newId := RefreshRow(row.familyId, Some(id), row.userId, row.identityId, row.appId, row.scope,
                                       newToken, expiresAt, None, None)];
      handlers := handlers[h := Answered(Refreshed(newToken))];
      history := history.(chains := Step(s, InsertSuccessor(h, newId, newToken, expiresAt)).history.chains);
      StepMayKeepAll(s, InsertSuccessor(h, newId, newToken, expiresAt));
    }

    /** update ... set reuse_detected_at where family_id = ? */
    method UpdateFamily(familyId: RowId, detectedAt: Time)
      modifies this`rows
      ensures rows == MarkRows(old(rows), familyId, detectedAt)
    {
      var ids := rows.Keys;
      while ids != {}
        invariant ids <= rows.Keys == old(rows).Keys
        invariant forall r :: r in rows ==>
          rows[r] == if r in ids then old(rows)[r] else MarkRows(old(rows), familyId, detectedAt)[r]
        decreases |ids|
      {
        var r :| r in ids;
        if rows[r].familyId == familyId {
          rows := rows[r := rows[r].(reuseDetectedAt := Some(detectedAt))];
        }
        ids := ids - {r};
      }
    }

    /** markRefreshTokenFamilyReuse */
    method MarkRefreshTokenFamilyReuse(h: HandlerId, detectedAt: Time)
      requires h in handlers && handlers[h].Marking?
      modifies this`rows, this`handlers
      ensures State() == Step(old(State()), MarkFamilyReuse(h, detectedAt))
      ensures AllInv(old(State())) ==> AllInv(State())
    {
      hide AllInv, CheckRequest, AfterRead, ClaimStep, InsertStep, MarkRows, RevokeStep, ConsumeStep, FinishStep,
           ReadCodeStep, DeleteCodeStep, CleanupStep;
      ghost var s := State();
      UpdateFamily(handlers[h].familyId, detectedAt);
      handlers := handlers[h := Answered(Refused)];
      StepMayKeepAll(s, MarkFamilyReuse(h, detectedAt));
    }

    /** The expired row is revoked whatever happened to it since it was read. */
    method RevokeExpiredToken(h: HandlerId, now: Time)
      requires h in handlers && handlers[h].RevokingExpired?
      modifies this`rows, this`handlers
      ensures State() == Step(old(State()), RevokeExpired(h, now))
      ensures AllInv(old(State())) ==> AllInv(State())
    {
      hide AllInv, CheckRequest, AfterRead, ClaimStep, InsertStep, MarkRows, ConsumeStep, FinishStep, ReadCodeStep,
           DeleteCodeStep, CleanupStep;
      ghost var s := State();
      var id := handlers[h].id;
      if id in rows {
        rows := rows[id := rows[id].(revokedAt := Some(now))];
      }
      handlers := handlers[h := Answered(Refused)];
      StepMayKeepAll(s, RevokeExpired(h, now));
    }

    /** consumeAuthorizationCode: delete ... returning, then the expiry test. */
    method ConsumeAuthorizationCode(h: HandlerId, code: CodeId, request: ExchangeRequest, now: Time)
      requires h !in handlers
      modifies this`codes, this`handlers
      ensures State() == Step(old(State()), ConsumeCode(h, code, request, now))
      ensures AllInv(old(State())) ==> AllInv(State())
    {
      hide AllInv, CheckRequest, AfterRead, ClaimStep, InsertStep, MarkRows, RevokeStep, FinishStep, ReadCodeStep,
           DeleteCodeStep, CleanupStep;
      ghost var s := State();
      var next := Answered(Refused);
      if code in codes {
        var record := codes[code];
        codes := codes - {code};
        if now <= record.expiresAt {
          next := Exchanging(code, record, request);
        }
      }
      handlers := handlers[h := next];
      StepMayKeepAll(s, ConsumeCode(h, code, request, now));
    }

    /** The guards after consumption and buildTokenResponseFromAuthorizationCode. */
    method ExchangeCode(h: HandlerId, newId: RowId, newToken: Token, expiresAt: Time)
      requires Enabled(State(), FinishExchange(h, newId, newToken, expiresAt))
      modifies this`rows, this`handlers, this`history
      ensures State() == Step(old(State()), FinishExchange(h, newId, newToken, expiresAt))
      ensures AllInv(old(State())) ==> AllInv(State())
    {
      hide AllInv, CheckRequest, AfterRead, ClaimStep, InsertStep, MarkRows, RevokeStep, ConsumeStep, ReadCodeStep,
           DeleteCodeStep, CleanupStep;
      ghost var s := State();
      var code, record := handlers[h].code, handlers[h].record;
      var outcome := CheckRequest(record, handlers[h].request);
      if outcome.Rejected? {
        handlers := handlers[h := Answered(Refused)];
      } else {
        if outcome.issueRefreshToken && "offline_access" in record.scope {
          rows := rows[newId := RefreshRow(newId, None, record.userId, record.identityId, record.appId, record.scope,
                                           newToken, expiresAt, None, None)];
          handlers := handlers[h := Answered(Exchanged(code, Some(newToken)))];
        } else {
          handlers := handlers[h := Answered(Exchanged(code, None))];
        }
      }
      history := Step(s, FinishExchange(h, newId, newToken, expiresAt)).history;
      StepMayKeepAll(s, FinishExchange(h, newId, newToken, expiresAt));
    }

    /** getAuthorizationCode: the select; an expired row is deleted by a second statement. */
    method GetAuthorizationCode(h: HandlerId, code: CodeId, now: Time)
      requires h !in handlers
      modifies this`handlers
      ensures State() == Step(old(State()), ReadCode(h, code, now))
      ensures AllInv(old(State())) ==> AllInv(State())
    {
      hide AllInv, CheckRequest, AfterRead, ClaimStep, InsertStep, MarkRows, RevokeStep, ConsumeStep, FinishStep,
           DeleteCodeStep, CleanupStep;
      ghost var s := State();
      var next := Answered(Refused);
      if code in codes {
        if now > codes[code].expiresAt {
          next := DeletingCode(code);
        } else {
          next := Answered(Found(codes[code]));
        }
      }
      handlers := handlers[h := next];
      StepMayKeepAll(s, ReadCode(h, code, now));
    }

    method DeleteAuthorizationCode(h: HandlerId)
      requires h in handlers && handlers[h].DeletingCode?
      modifies this`codes, this`handlers
      ensures State() == Step(old(State()), DeleteExpiredCode(h))
      ensures AllInv(old(State())) ==> AllInv(State())
    {
      hide AllInv, CheckRequest, AfterRead, ClaimStep, InsertStep, MarkRows, RevokeStep, ConsumeStep, FinishStep,
           ReadCodeStep, CleanupStep;
      ghost var s := State();
      codes := codes - {handlers[h].code};
      handlers := handlers[h := Answered(Refused)];
      StepMayKeepAll(s, DeleteExpiredCode(h));
    }

    /** cleanupExpiredOAuthStorage, for codes */
    method CleanupExpiredCodes(now: Time)
      modifies this`codes
      ensures State() == Step(old(State()), Cleanup(now))
      ensures AllInv(old(State())) ==> AllInv(State())
    {
      hide AllInv, CheckRequest, AfterRead, ClaimStep, InsertStep, MarkRows, RevokeStep, ConsumeStep, FinishStep,
           ReadCodeStep, DeleteCodeStep;
      ghost var s := State();
      codes := map c | c in codes && !(codes[c].expiresAt < now) :: codes[c];
      StepMayKeepAll(s, Cleanup(now));
    }
  }
}
