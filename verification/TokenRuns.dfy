/** What a request to the token endpoint leaves behind, from its first statement to its answer. */
module TokenRuns {
  import opened Options
  import opened TokenServer
  import opened RefreshChains
  import opened RefreshTheorems
  import opened CodeTheorems

  /** Rows of the family carry the mark of this moment; every other row is as it was. */
  predicate MarkedOnly(rows: map<RowId, RefreshRow>, next: map<RowId, RefreshRow>, f: RowId, now: Time) {
    && next.Keys == rows.Keys
    && forall r :: r in rows ==>
         next[r] == if rows[r].familyId == f then rows[r].(reuseDetectedAt := Some(now)) else rows[r]
  }

  /** A handler that is about to claim a row that is not live any more marks the family instead, and refuses. */
  lemma LostClaimMarksTheFamily(s: Server, h: HandlerId, r: RowId, row: RefreshRow, now: Time)
    requires h in s.handlers && s.handlers[h] == Claiming(r, row) && (r in s.rows ==> !s.rows[r].Live())
    ensures var t := Run(s, [Claim(h, now), MarkFamilyReuse(h, now)]);
            MarkedOnly(s.rows, t.rows, row.familyId, now) && t.handlers == s.handlers[h := Answered(Refused)]
            && t.codes == s.codes
  {
    hide CheckRequest, AfterRead, InsertStep, ConsumeStep, FinishStep, RevokeStep, CleanupStep, ReadCodeStep,
         DeleteCodeStep, Run;
    TwoSteps(s, Claim(h, now), MarkFamilyReuse(h, now));
    var lost := s.(handlers := s.handlers[h := Marking(row.familyId)]);
    assert Apply(s, Claim(h, now)) == lost;
    MarkedIsAStep(lost, h, now);
    assert Apply(lost, MarkFamilyReuse(h, now)) == Marked(lost, h, now);
  }

  lemma StepKeepsRevoked(s: Server, a: Action, r: RowId)
    requires Enabled(s, a) && r in s.rows && s.rows[r].revokedAt.Some?
    ensures r in Step(s, a).rows && Step(s, a).rows[r].revokedAt.Some?
  {
    hide CheckRequest, AfterRead, RowOfToken;
  }

  lemma {:induction false} RunKeepsRevoked(s: Server, actions: seq<Action>, r: RowId)
    requires r in s.rows && s.rows[r].revokedAt.Some?
    ensures r in Run(s, actions).rows && Run(s, actions).rows[r].revokedAt.Some?
    decreases |actions|
  {
    hide Step, Enabled;
    if actions != [] {
      if Enabled(s, actions[0]) {
        StepKeepsRevoked(s, actions[0], r);
      }
      RunKeepsRevoked(Apply(s, actions[0]), actions[1..], r);
    }
  }

  lemma ClaimRevokes(s: Server, h: HandlerId, r: RowId, row: RefreshRow, now: Time)
    requires h in s.handlers && s.handlers[h] == Claiming(r, row) && r in s.rows && s.rows[r].Live()
    ensures Apply(s, Claim(h, now))
         == s.(rows := s.rows[r := s.rows[r].(revokedAt := Some(now))], handlers := s.handlers[h := Inserting(r, row)])
  {
    hide CheckRequest, AfterRead, InsertStep, ConsumeStep, FinishStep, RevokeStep, CleanupStep, ReadCodeStep,
         DeleteCodeStep, MarkRows;
  }

  /** Of two handlers that read one live token the first claim goes on to rotate it; the second one, whatever happens in
      between, ends with the whole family marked. */
  lemma SecondClaimMarksTheFamily(s: Server, h: HandlerId, g: HandlerId, r: RowId, row: RefreshRow, now: Time,
                                  between: seq<Action>, later: Time)
    requires h != g && h in s.handlers && s.handlers[h] == Claiming(r, row) && r in s.rows && s.rows[r].Live()
    requires var t := Run(Apply(s, Claim(h, now)), between);
             g in t.handlers && t.handlers[g] == Claiming(r, row)
    ensures var claimed := Apply(s, Claim(h, now));
            var t := Run(claimed, between);
            var marked := Run(t, [Claim(g, later), MarkFamilyReuse(g, later)]);
            && claimed.handlers[h] == Inserting(r, row) && claimed.rows[r].revokedAt == Some(now)
            && MarkedOnly(t.rows, marked.rows, row.familyId, later)
            && g in marked.handlers && marked.handlers[g] == Answered(Refused)
  {
    hide Run, Apply, MarkedOnly;
    ClaimRevokes(s, h, r, row, now);
    var t := Run(Apply(s, Claim(h, now)), between);
    RunKeepsRevoked(Apply(s, Claim(h, now)), between, r);
    LostClaimMarksTheFamily(t, g, r, row, later);
  }

  /** What reading a presented token leads to, for every token, app and client. */
  lemma PresentationExactly(s: Server, h: HandlerId, token: Token, appId: nat, authenticated: bool, now: Time)
    requires ChainInv(s) && h !in s.handlers
    ensures var t := Run(s, [ReadRefresh(h, token, appId, authenticated, now)]);
            && h in t.handlers && t == s.(handlers := s.handlers[h := t.handlers[h]])
            && (forall r :: r in s.rows && s.rows[r].token == token ==>
                  t.handlers[h] == (
                    if s.rows[r].appId != appId || !authenticated then Answered(Refused)
                    else if s.rows[r].revokedAt.Some? || s.rows[r].reuseDetectedAt.Some? then Marking(s.rows[r].familyId)
                    else if s.rows[r].expiresAt < now then RevokingExpired(r)
                    else Claiming(r, s.rows[r])))
            && ((forall r :: r in s.rows ==> s.rows[r].token != token) ==> t.handlers[h] == Answered(Refused))
  {
    var read := ReadRefresh(h, token, appId, authenticated, now);
    OneStep(s, read);
    var found := RowOfToken(s.rows, token);
    assert Apply(s, read).handlers[h] == AfterRead(s.rows, found, appId, authenticated, now);
    hide Run;
    forall r | r in s.rows && s.rows[r].token == token
      ensures found == Some(r)
    {
      TokenSelects(s, r) by { hide AfterRead; }
    }
    hide ChainInv, RowOfToken;
  }

  lemma OneStep(s: Server, a: Action)
    ensures Run(s, [a]) == Apply(s, a)
  {
    hide Apply;
    assert [a][1..] == [];
    assert Run(s, [a]) == Run(Apply(s, a), []);
  }

  /** An expired token is revoked when it is presented, whatever happened to its row since it was read; no other row
      changes. */
  lemma ExpiredTokenIsRevoked(s: Server, h: HandlerId, r: RowId, now: Time)
    requires h in s.handlers && s.handlers[h] == RevokingExpired(r) && r in s.rows
    ensures var t := Run(s, [RevokeExpired(h, now)]);
            && t.rows == s.rows[r := s.rows[r].(revokedAt := Some(now))]
            && t.handlers == s.handlers[h := Answered(Refused)] && t.codes == s.codes
  {
    hide CheckRequest, AfterRead, ClaimStep, InsertStep, ConsumeStep, FinishStep, CleanupStep, ReadCodeStep,
         DeleteCodeStep, MarkRows, Run;
    OneStep(s, RevokeExpired(h, now));
  }

  /** A live token that is refused for its organization context stays live, and the invariants stay too: it can be
      presented again. */
  lemma RejectedTokenStaysLive(s: Server, r: RowId, h: HandlerId, now: Time)
    requires ChainInv(s) && r in s.rows && s.rows[r].Live() && now <= s.rows[r].expiresAt && h !in s.handlers
    ensures var t := Run(s, [ReadRefresh(h, s.rows[r].token, s.rows[r].appId, true, now), RejectOrganization(h)]);
            t == s.(handlers := s.handlers[h := Answered(Refused)]) && ChainInv(t)
  {
    hide *;
    SameRows(s, s.(handlers := s.handlers[h := Answered(Refused)]));
    RejectionIsRun(s, r, h, now);
  }

  lemma RejectionIsRun(s: Server, r: RowId, h: HandlerId, now: Time)
    requires ChainInv(s) && r in s.rows && s.rows[r].Live() && now <= s.rows[r].expiresAt && h !in s.handlers
    ensures Run(s, [ReadRefresh(h, s.rows[r].token, s.rows[r].appId, true, now), RejectOrganization(h)])
         == s.(handlers := s.handlers[h := Answered(Refused)])
  {
    var row := s.rows[r];
    hide *;
    ReadFinds(s, r, h, now);
    var read := s.(handlers := s.handlers[h := Claiming(r, row)]);
    Rejects(read, h);
    assert read.handlers[h := Answered(Refused)] == s.handlers[h := Answered(Refused)];
    TwoSteps(s, ReadRefresh(h, row.token, row.appId, true, now), RejectOrganization(h));
  }

  lemma Rejects(s: Server, h: HandlerId)
    requires h in s.handlers && s.handlers[h].Claiming?
    ensures Apply(s, RejectOrganization(h)) == s.(handlers := s.handlers[h := Answered(Refused)])
  {
    hide CheckRequest, AfterRead, ClaimStep, InsertStep, MarkRows, RevokeStep, ConsumeStep, FinishStep, ReadCodeStep,
         DeleteCodeStep, CleanupStep;
  }

  /** Handlers that wait for nothing do not matter to the chains. */
  lemma SameRows(s: Server, t: Server)
    requires ChainInv(s) && t.rows == s.rows && t.history == s.history
    requires forall h :: h in t.handlers ==>
               t.handlers[h] == Answered(Refused) || (h in s.handlers && t.handlers[h] == s.handlers[h])
    ensures ChainInv(t)
  {
    hide IsChain;
    forall h | h in t.handlers ensures HandlerOk(t, t.handlers[h]) {
      assert h in s.handlers ==> HandlerOk(s, s.handlers[h]);
    }
    assert forall h, f :: InFlight(t, h, f) ==> InFlight(s, h, f);
  }

  /** A rotation that dies after its claim leaves its family without a live row for good. */
  lemma StoppedRotationEndsTheFamily(s: Server, r: RowId, row: RefreshRow, h: HandlerId, now: Time, more: seq<Action>)
    requires ChainInv(s) && h in s.handlers && s.handlers[h] == Claiming(r, row) && r in s.rows && s.rows[r].Live()
    ensures !HasLiveRow(Run(Run(s, [Claim(h, now), Stop(h)]), more), row.familyId)
  {
    var claimed := s.(rows := s.rows[r := s.rows[r].(revokedAt := Some(now))], handlers := s.handlers[h := Inserting(r, row)]);
    var stopped := s.(rows := s.rows[r := s.rows[r].(revokedAt := Some(now))], handlers := s.handlers - {h});
    hide *;
    StoppedHasNoHolder(s, r, row, h, now);
    ClaimRevokes(s, h, r, row, now);
    Stops(claimed, h);
    assert claimed.handlers - {h} == s.handlers - {h};
    TwoSteps(s, Claim(h, now), Stop(h));
    ApplyKeepsChains(s, Claim(h, now));
    ApplyKeepsChains(claimed, Stop(h));
    DeadHasNoLiveRow(stopped, more, row.familyId);
  }

  lemma Stops(s: Server, h: HandlerId)
    requires h in s.handlers
    ensures Apply(s, Stop(h)) == s.(handlers := s.handlers - {h})
  {
    hide CheckRequest, AfterRead, ClaimStep, InsertStep, MarkRows, RevokeStep, ConsumeStep, FinishStep, ReadCodeStep,
         DeleteCodeStep, CleanupStep;
  }

  lemma ApplyKeepsChains(s: Server, a: Action)
    requires ChainInv(s)
    ensures ChainInv(Apply(s, a))
  {
    hide ChainInv, Step, Enabled;
    if Enabled(s, a) {
      StepKeepsChains(s, a);
    }
  }

  lemma StoppedHasNoHolder(s: Server, r: RowId, row: RefreshRow, h: HandlerId, now: Time)
    requires ChainInv(s) && h in s.handlers && s.handlers[h] == Claiming(r, row) && r in s.rows && s.rows[r].Live()
    ensures Dead(s.(rows := s.rows[r := s.rows[r].(revokedAt := Some(now))], handlers := s.handlers - {h}), row.familyId)
  {
    hide IsChain;
    var t := s.(rows := s.rows[r := s.rows[r].(revokedAt := Some(now))], handlers := s.handlers - {h});
    assert HandlerOk(s, s.handlers[h]);
    hide ChainInv;
    var f := row.familyId;
    forall x | x in Holders(t)
      ensures FamilyOf(t, x) != f
    {
      if FamilyOf(t, x) == f {
        assert x in Holders(s) && RowHolder(r) in Holders(s);
        HoldersShareNoFamily(s, x, RowHolder(r));
      }
    }
  }

  /** A code that was issued is good for one exchange: the first one decides, the second one is refused. */
  lemma IssuedCodeIsExchangedOnce(s: Server, code: CodeId, record: CodeRecord, request: ExchangeRequest, h: HandlerId,
                                  g: HandlerId, now: Time, newId: RowId, newToken: Token, expiresAt: Time)
    requires code !in s.history.issuedCodes && h !in s.handlers && g !in s.handlers && h != g
    requires FreshRow(s, newId, newToken)
    ensures var issued := Run(s, [IssueCode(code, record)]);
            var t := Run(issued, [ConsumeCode(h, code, request, now), FinishExchange(h, newId, newToken, expiresAt)]);
            var u := Run(t, [ConsumeCode(g, code, request, now), FinishExchange(g, newId, newToken, expiresAt)]);
            && issued.rows == s.rows && issued.handlers == s.handlers
            && h in t.handlers
            && (t.handlers[h] != Answered(Refused) <==> now <= record.expiresAt && Entitled(record, request))
            && u.rows == t.rows && u.handlers == t.handlers[g := Answered(Refused)]
  {
    var issued := s.(codes := s.codes[code := record],
                     history := s.history.(issuedCodes := s.history.issuedCodes + {code}));
    OneStep(s, IssueCode(code, record));
    assert Apply(s, IssueCode(code, record)) == issued;
    var exchange := [ConsumeCode(h, code, request, now), FinishExchange(h, newId, newToken, expiresAt)];
    hide Run, Apply, Entitled;
    CodeIsExchangedExactly(issued, code, request, h, now, newId, newToken, expiresAt);
    MissingCodeIsRefused(Run(issued, exchange), code, request, g, now, newId, newToken, expiresAt);
  }

  lemma MissingCodeIsRefused(s: Server, code: CodeId, request: ExchangeRequest, h: HandlerId, now: Time,
                             newId: RowId, newToken: Token, expiresAt: Time)
    requires code !in s.codes && h !in s.handlers
    ensures Run(s, [ConsumeCode(h, code, request, now), FinishExchange(h, newId, newToken, expiresAt)])
         == s.(handlers := s.handlers[h := Answered(Refused)])
  {
    var t := s.(handlers := s.handlers[h := Answered(Refused)]);
    TwoSteps(s, ConsumeCode(h, code, request, now), FinishExchange(h, newId, newToken, expiresAt));
    hide Run, CheckRequest, AfterRead, ClaimStep, InsertStep, MarkRows, RevokeStep, FinishStep, ReadCodeStep,
         DeleteCodeStep, CleanupStep;
    assert Apply(s, ConsumeCode(h, code, request, now)) == t;
  }

  /** Looking a code up finds it in time, leaves it in the store, and removes it once it has expired. */
  lemma CodeIsReadExactly(s: Server, code: CodeId, h: HandlerId, now: Time)
    requires h !in s.handlers
    ensures var t := Run(s, [ReadCode(h, code, now), DeleteExpiredCode(h)]);
            var found := code in s.codes && now <= s.codes[code].expiresAt;
            && t.handlers == s.handlers[h := Answered(if found then Found(s.codes[code]) else Refused)]
            && t.codes == (if found then s.codes else s.codes - {code}) && t.rows == s.rows
  {
    TwoSteps(s, ReadCode(h, code, now), DeleteExpiredCode(h));
    hide Run, CheckRequest, AfterRead, ClaimStep, InsertStep, MarkRows, RevokeStep, ConsumeStep, FinishStep, CleanupStep;
  }

  /** Clean-up leaves exactly the codes that have not expired. */
  lemma CleanedCodes(s: Server, now: Time)
    ensures var t := Run(s, [Cleanup(now)]);
            && t.rows == s.rows && t.handlers == s.handlers && t.codes.Keys <= s.codes.Keys
            && forall code :: code in s.codes ==>
                 if now <= s.codes[code].expiresAt then code in t.codes && t.codes[code] == s.codes[code] else code !in t.codes
  {
    OneStep(s, Cleanup(now));
    hide Run, CheckRequest, AfterRead, ClaimStep, InsertStep, MarkRows, RevokeStep, ConsumeStep, FinishStep, ReadCodeStep,
         DeleteCodeStep;
  }

  /** Nobody can tell whether clean-up ran before an exchange: it answers the same and stores the same. */
  lemma CleanupIsInvisible(s: Server, cleaned: Time, code: CodeId, request: ExchangeRequest, h: HandlerId, now: Time,
                           newId: RowId, newToken: Token, expiresAt: Time)
    requires h !in s.handlers && FreshRow(s, newId, newToken) && cleaned <= now
    ensures var exchange := [ConsumeCode(h, code, request, now), FinishExchange(h, newId, newToken, expiresAt)];
            var t, u := Run(s, exchange), Run(Run(s, [Cleanup(cleaned)]), exchange);
            t.handlers == u.handlers && t.rows == u.rows
  {
    hide Run, Entitled;
    CleanedCodes(s, cleaned);
    CodeIsExchangedExactly(s, code, request, h, now, newId, newToken, expiresAt);
    CodeIsExchangedExactly(Run(s, [Cleanup(cleaned)]), code, request, h, now, newId, newToken, expiresAt);
  }
}
