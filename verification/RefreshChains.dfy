/** The invariant of refresh-token rotation: every family is one chain that grows only at its end. */
module RefreshChains {
  import opened Options
  import opened TokenServer

  /** chain lists the rows of family f from the root to the newest. */
  ghost predicate IsChain(rows: map<RowId, RefreshRow>, f: RowId, chain: seq<RowId>) {
    && |chain| > 0 && chain[0] == f
    && (forall i :: 0 <= i < |chain| ==> chain[i] in rows && rows[chain[i]].familyId == f)
    && (forall i :: 0 <= i < |chain| ==> rows[chain[i]].SameGrant(rows[chain[0]]))
    && rows[f].rotatedFromId == None
    && (forall i :: 1 <= i < |chain| ==> rows[chain[i]].rotatedFromId == Some(chain[i - 1]))
    && (forall i :: 0 <= i < |chain| - 1 ==> rows[chain[i]].revokedAt.Some?)
    && (forall i, j :: 0 <= i < j < |chain| ==> chain[i] != chain[j])
  }

  /** A handler's copy of a row agrees with the row on everything but the two marks. */
  predicate CopyOf(row: RefreshRow, stored: RefreshRow) {
    row.(revokedAt := None, reuseDetectedAt := None) == stored.(revokedAt := None, reuseDetectedAt := None)
  }

  ghost predicate HandlerOk(s: Server, handler: Handler) {
    match handler
    case Claiming(id, row) => id in s.rows && CopyOf(row, s.rows[id])
    case Inserting(id, row) =>
      && id in s.rows && CopyOf(row, s.rows[id]) && s.rows[id].revokedAt.Some?
      && row.familyId in s.history.chains
      && |s.history.chains[row.familyId]| > 0
      && s.history.chains[row.familyId][|s.history.chains[row.familyId]| - 1] == id
    case Marking(f) => f in s.history.chains
    case RevokingExpired(id) => id in s.rows
    case _ => true
  }

  predicate InFlight(s: Server, h: HandlerId, f: RowId) {
    h in s.handlers && s.handlers[h].Inserting? && s.handlers[h].row.familyId == f
  }

  ghost predicate ChainsOk(s: Server) {
    forall f :: f in s.history.chains ==> IsChain(s.rows, f, s.history.chains[f])
  }

  ghost predicate RowsListed(s: Server) {
    forall r :: r in s.rows ==>
      s.rows[r].familyId in s.history.chains && r in s.history.chains[s.rows[r].familyId]
  }

  ghost predicate TokensDistinct(rows: map<RowId, RefreshRow>) {
    forall r, q :: r in rows && q in rows && rows[r].token == rows[q].token ==> r == q
  }

  ghost predicate HandlersOk(s: Server) {
    forall h :: h in s.handlers ==> HandlerOk(s, s.handlers[h])
  }

  ghost predicate OneRotation(s: Server) {
    forall f, h, g :: InFlight(s, h, f) && InFlight(s, g, f) ==> h == g
  }

  ghost predicate ChainInv(s: Server) {
    ChainsOk(s) && RowsListed(s) && TokensDistinct(s.rows) && HandlersOk(s) && OneRotation(s)
  }

  lemma InitialChainInv()
    ensures ChainInv(INITIAL)
  {
  }

  /** Rows are never deleted, change only their marks, and never lose revokedAt. */
  ghost predicate Evolves(rows: map<RowId, RefreshRow>, next: map<RowId, RefreshRow>) {
    forall r :: r in rows ==>
      r in next && CopyOf(rows[r], next[r]) && (rows[r].revokedAt.Some? ==> next[r].revokedAt.Some?)
  }

  lemma ChainSurvives(rows: map<RowId, RefreshRow>, next: map<RowId, RefreshRow>, f: RowId, chain: seq<RowId>)
    requires IsChain(rows, f, chain) && Evolves(rows, next)
    ensures IsChain(next, f, chain)
  {
  }

  lemma ChainsSurvive(s: Server, t: Server)
    requires ChainsOk(s) && Evolves(s.rows, t.rows) && t.history.chains == s.history.chains
    ensures ChainsOk(t)
  {
    hide IsChain, Evolves;
    forall f | f in t.history.chains
      ensures IsChain(t.rows, f, t.history.chains[f])
    {
      ChainSurvives(s.rows, t.rows, f, s.history.chains[f]);
    }
  }

  /** The chain a handler appends to is the one it saw, so the handler's claim survives. */
  lemma HandlerSurvives(s: Server, t: Server, handler: Handler)
    requires HandlerOk(s, handler) && Evolves(s.rows, t.rows)
    requires forall f :: f in s.history.chains ==> f in t.history.chains
    requires handler.Inserting? ==> t.history.chains[handler.row.familyId] == s.history.chains[handler.row.familyId]
    ensures HandlerOk(t, handler)
  {
  }

  /** Every handler but h is as before, and the chains are too. */
  ghost predicate OthersKept(s: Server, t: Server, h: HandlerId) {
    && t.history.chains == s.history.chains
    && forall g :: g in t.handlers && g != h ==> g in s.handlers && t.handlers[g] == s.handlers[g]
  }

  lemma HandlersSurvive(s: Server, t: Server, h: HandlerId)
    requires HandlersOk(s) && Evolves(s.rows, t.rows) && OthersKept(s, t, h)
    requires h in t.handlers ==> HandlerOk(t, t.handlers[h])
    ensures HandlersOk(t)
  {
    hide Evolves;
    forall g | g in t.handlers
      ensures HandlerOk(t, t.handlers[g])
    {
      if g != h {
        HandlerSurvives(s, t, s.handlers[g]);
      }
    }
  }

  lemma RotationSurvives(s: Server, t: Server, h: HandlerId)
    requires OneRotation(s)
    requires forall g :: g in t.handlers && g != h ==> g in s.handlers && t.handlers[g] == s.handlers[g]
    requires h in t.handlers ==> !t.handlers[h].Inserting?
    ensures OneRotation(t)
  {
    forall f, g, k | InFlight(t, g, f) && InFlight(t, k, f)
      ensures g == k
    {
      assert InFlight(s, g, f) && InFlight(s, k, f);
    }
  }

  /** A step that moves one handler to a harmless place, and changes rows at most in their marks. */
  lemma QuietStep(s: Server, t: Server, h: HandlerId)
    requires ChainInv(s) && Evolves(s.rows, t.rows) && t.rows.Keys == s.rows.Keys && OthersKept(s, t, h)
    requires h in t.handlers ==> HandlerOk(t, t.handlers[h]) && !t.handlers[h].Inserting?
    ensures ChainInv(t)
  {
    hide IsChain, Evolves, HandlerOk, ChainsOk, RowsListed, TokensDistinct, HandlersOk, OneRotation;
    ChainsSurvive(s, t);
    QuietRows(s, t);
    HandlersSurvive(s, t, h);
    RotationSurvives(s, t, h);
  }

  lemma QuietRows(s: Server, t: Server)
    requires RowsListed(s) && TokensDistinct(s.rows) && Evolves(s.rows, t.rows) && t.rows.Keys == s.rows.Keys
    requires t.history.chains == s.history.chains
    ensures RowsListed(t) && TokensDistinct(t.rows)
  {
    forall r | r in t.rows
      ensures t.rows[r].familyId in t.history.chains && r in t.history.chains[t.rows[r].familyId]
    {
      assert r in s.rows && CopyOf(s.rows[r], t.rows[r]);
    }
  }

  lemma SameRowsEvolve(rows: map<RowId, RefreshRow>)
    ensures Evolves(rows, rows)
  {
  }

  lemma LiveRowIsLast(s: Server, r: RowId)
    requires ChainInv(s) && r in s.rows && s.rows[r].revokedAt.None?
    ensures var chain := s.history.chains[s.rows[r].familyId];
            |chain| > 0 && chain[|chain| - 1] == r
  {
    var f := s.rows[r].familyId;
    assert IsChain(s.rows, f, s.history.chains[f]);
  }

  /** While a family has an unrevoked row, no handler is rotating the family. */
  lemma NoRotationBesideUnrevoked(s: Server, r: RowId, g: HandlerId)
    requires ChainInv(s) && r in s.rows && s.rows[r].revokedAt.None?
    ensures !InFlight(s, g, s.rows[r].familyId)
  {
    hide IsChain, ChainsOk, TokensDistinct, OneRotation, RowsListed;
    LiveRowIsLast(s, r);
    assert g in s.handlers ==> HandlerOk(s, s.handlers[g]);
  }

  /** A claim succeeds only on a row that no handler is rotating. */
  lemma ClaimKeepsChains(s: Server, h: HandlerId, now: Time)
    requires ChainInv(s) && h in s.handlers && s.handlers[h].Claiming?
    ensures ChainInv(ClaimStep(s, h, now))
  {
    hide IsChain, TokensDistinct, ChainsOk, RowsListed, OneRotation;
    var id := s.handlers[h].id;
    assert HandlerOk(s, s.handlers[h]);
    if s.rows[id].Live() {
      ClaimSucceeds(s, h, now);
    } else {
      SameRowsEvolve(s.rows);
      assert s.rows[id].familyId in s.history.chains by { RowIsListed(s, id); }
      QuietStep(s, ClaimStep(s, h, now), h);
    }
  }

  lemma RowIsListed(s: Server, r: RowId)
    requires RowsListed(s) && r in s.rows
    ensures s.rows[r].familyId in s.history.chains
  {
  }

  lemma ClaimSucceeds(s: Server, h: HandlerId, now: Time)
    requires ChainInv(s) && h in s.handlers && s.handlers[h].Claiming?
    requires s.handlers[h].id in s.rows && s.rows[s.handlers[h].id].Live()
    ensures ChainInv(ClaimStep(s, h, now))
  {
    hide IsChain, ChainsOk, HandlersOk, OneRotation;
    var t := ClaimStep(s, h, now);
    ChainsSurvive(s, t);
    ClaimHandlers(s, h, now);
    ClaimRotation(s, h, now);
  }

  lemma ClaimHandlers(s: Server, h: HandlerId, now: Time)
    requires ChainInv(s) && h in s.handlers && s.handlers[h].Claiming?
    requires s.handlers[h].id in s.rows && s.rows[s.handlers[h].id].Live()
    ensures HandlersOk(ClaimStep(s, h, now))
  {
    hide IsChain, ChainsOk, TokensDistinct, OneRotation;
    assert HandlerOk(s, s.handlers[h]);
    LiveRowIsLast(s, s.handlers[h].id);
    var t := ClaimStep(s, h, now);
    assert HandlerOk(t, t.handlers[h]);
    HandlersSurvive(s, t, h) by { hide HandlerOk; }
  }

  lemma HandlerIsOk(s: Server, h: HandlerId)
    requires ChainInv(s) && h in s.handlers
    ensures HandlerOk(s, s.handlers[h])
  {
    hide HandlerOk, ChainsOk, RowsListed, TokensDistinct, OneRotation;
  }

  lemma OneRotationHolds(s: Server)
    requires ChainInv(s)
    ensures OneRotation(s)
  {
    hide HandlersOk, ChainsOk, RowsListed, TokensDistinct;
  }

  lemma ClaimRotation(s: Server, h: HandlerId, now: Time)
    requires ChainInv(s) && h in s.handlers && s.handlers[h].Claiming?
    requires s.handlers[h].id in s.rows && s.rows[s.handlers[h].id].Live()
    ensures OneRotation(ClaimStep(s, h, now))
  {
    hide ChainInv;
    var id, f := s.handlers[h].id, s.handlers[h].row.familyId;
    var t := ClaimStep(s, h, now);
    HandlerIsOk(s, h);
    hide HandlerOk, CopyOf;
    assert s.rows[id].familyId == f && s.rows[id].revokedAt.None?;
    OneRotationHolds(s);
    forall e, g, k | InFlight(t, g, e) && InFlight(t, k, e)
      ensures g == k
    {
      NoRotationBesideUnrevoked(s, id, g);
      NoRotationBesideUnrevoked(s, id, k);
      assert e != f ==> InFlight(s, g, e) && InFlight(s, k, e);
    }
  }

  lemma ChainExtends(rows: map<RowId, RefreshRow>, f: RowId, chain: seq<RowId>, newId: RowId, row: RefreshRow)
    requires IsChain(rows, f, chain) && newId !in rows
    requires row.familyId == f && row.rotatedFromId == Some(chain[|chain| - 1])
    requires rows[chain[|chain| - 1]].revokedAt.Some? && row.SameGrant(rows[chain[|chain| - 1]])
    ensures IsChain(rows[newId := row], f, chain + [newId])
  {
  }

  /** A new last row: an existing family grows, or a new one starts, and every other family is as before. */
  ghost predicate Grows(s: Server, t: Server, h: HandlerId, newId: RowId, row: RefreshRow, chain: seq<RowId>) {
    && FreshRow(s, newId, row.token)
    && t.rows == s.rows[newId := row]
    && t.history.chains == s.history.chains[row.familyId := chain + [newId]]
    && (if row.familyId in s.history.chains then chain == s.history.chains[row.familyId] else chain == [])
    && h in t.handlers && t.handlers[h].Answered?
    && forall g :: g in t.handlers && g != h ==> g in s.handlers && t.handlers[g] == s.handlers[g]
  }

  lemma GrowsChains(s: Server, t: Server, h: HandlerId, newId: RowId, row: RefreshRow, chain: seq<RowId>)
    requires ChainsOk(s) && Grows(s, t, h, newId, row, chain)
    requires IsChain(t.rows, row.familyId, chain + [newId])
    ensures ChainsOk(t)
  {
    hide IsChain;
    forall e | e in t.history.chains
      ensures IsChain(t.rows, e, t.history.chains[e])
    {
      if e != row.familyId {
        ChainSurvives(s.rows, t.rows, e, s.history.chains[e]);
      }
    }
  }

  lemma GrowsListed(s: Server, t: Server, h: HandlerId, newId: RowId, row: RefreshRow, chain: seq<RowId>)
    requires RowsListed(s) && TokensDistinct(s.rows) && Grows(s, t, h, newId, row, chain)
    ensures RowsListed(t) && TokensDistinct(t.rows)
  {
    assert (chain + [newId])[|chain|] == newId;
    forall r | r in t.rows
      ensures t.rows[r].familyId in t.history.chains && r in t.history.chains[t.rows[r].familyId]
    {
      assert r != newId ==> r in s.history.chains[s.rows[r].familyId];
    }
  }

  lemma GrowsHandlers(s: Server, t: Server, h: HandlerId, newId: RowId, row: RefreshRow, chain: seq<RowId>)
    requires HandlersOk(s) && Grows(s, t, h, newId, row, chain)
    requires forall g :: g != h ==> !InFlight(s, g, row.familyId)
    ensures HandlersOk(t)
  {
    forall g | g in t.handlers
      ensures HandlerOk(t, t.handlers[g])
    {
      if g != h {
        assert !InFlight(s, g, row.familyId);
        HandlerSurvives(s, t, s.handlers[g]);
      }
    }
  }

  lemma GrowsKeepsChains(s: Server, t: Server, h: HandlerId, newId: RowId, row: RefreshRow, chain: seq<RowId>)
    requires ChainInv(s) && Grows(s, t, h, newId, row, chain)
    requires IsChain(t.rows, row.familyId, chain + [newId])
    requires forall g :: g != h ==> !InFlight(s, g, row.familyId)
    ensures ChainInv(t)
  {
    hide IsChain;
    GrowsChains(s, t, h, newId, row, chain);
    GrowsListed(s, t, h, newId, row, chain);
    GrowsHandlers(s, t, h, newId, row, chain);
    RotationSurvives(s, t, h);
  }

  lemma InsertKeepsChains(s: Server, h: HandlerId, newId: RowId, newToken: Token, expiresAt: Time)
    requires ChainInv(s) && Enabled(s, InsertSuccessor(h, newId, newToken, expiresAt))
    ensures ChainInv(InsertStep(s, h, newId, newToken, expiresAt))
  {
    hide IsChain, TokensDistinct, RowsListed;
    var f := s.handlers[h].row.familyId;
    var t := InsertStep(s, h, newId, newToken, expiresAt);
    assert HandlerOk(s, s.handlers[h]) && InFlight(s, h, f);
    var chain := s.history.chains[f];
    ChainExtends(s.rows, f, chain, newId, t.rows[newId]);
    GrowsKeepsChains(s, t, h, newId, t.rows[newId], chain);
  }

  lemma RootsAreRows(s: Server, f: RowId)
    requires ChainsOk(s) && f in s.history.chains
    ensures f in s.rows
  {
    assert IsChain(s.rows, f, s.history.chains[f]);
  }

  lemma NewFamilyKeepsChains(s: Server, t: Server, h: HandlerId, newId: RowId, row: RefreshRow)
    requires ChainInv(s) && Grows(s, t, h, newId, row, [])
    requires row.familyId == newId && row.rotatedFromId == None
    ensures ChainInv(t)
  {
    assert IsChain(t.rows, newId, [newId]);
    assert [] + [newId] == [newId];
    hide IsChain;
    forall g | g != h
      ensures !InFlight(s, g, newId)
    {
      if InFlight(s, g, newId) {
        assert HandlerOk(s, s.handlers[g]);
        RootsAreRows(s, newId);
      }
    }
    GrowsKeepsChains(s, t, h, newId, row, []);
  }

  lemma NoRootWithoutRow(s: Server, f: RowId)
    requires ChainInv(s) && f in s.history.chains
    ensures f in s.rows
  {
    RootsAreRows(s, f);
  }

  lemma FinishKeepsChains(s: Server, h: HandlerId, newId: RowId, newToken: Token, expiresAt: Time)
    requires ChainInv(s) && Enabled(s, FinishExchange(h, newId, newToken, expiresAt))
    ensures ChainInv(FinishStep(s, h, newId, newToken, expiresAt))
  {
    hide IsChain, ChainInv, CheckRequest;
    var t := FinishStep(s, h, newId, newToken, expiresAt);
    if newId in t.rows {
      assert newId !in s.history.chains by {
        if newId in s.history.chains {
          NoRootWithoutRow(s, newId);
        }
      }
      assert [] + [newId] == [newId];
      NewFamilyKeepsChains(s, t, h, newId, t.rows[newId]);
    } else {
      SameRowsEvolve(s.rows);
      QuietStep(s, t, h);
    }
  }

  lemma MarkKeepsChains(s: Server, h: HandlerId, now: Time)
    requires ChainInv(s) && Enabled(s, MarkFamilyReuse(h, now))
    ensures ChainInv(Step(s, MarkFamilyReuse(h, now)))
  {
    hide ChainInv, CheckRequest, AfterRead, ClaimStep, InsertStep, RevokeStep, ConsumeStep, FinishStep, CleanupStep;
    QuietStep(s, Step(s, MarkFamilyReuse(h, now)), h);
  }

  lemma RevokeKeepsChains(s: Server, h: HandlerId, now: Time)
    requires ChainInv(s) && Enabled(s, RevokeExpired(h, now))
    ensures ChainInv(RevokeStep(s, h, now))
  {
    hide ChainInv;
    QuietStep(s, RevokeStep(s, h, now), h);
  }

  lemma ReadKeepsChains(s: Server, h: HandlerId, token: Token, appId: nat, authenticated: bool, now: Time)
    requires ChainInv(s) && Enabled(s, ReadRefresh(h, token, appId, authenticated, now))
    ensures ChainInv(Step(s, ReadRefresh(h, token, appId, authenticated, now)))
  {
    ReadStep(s, h, token, appId, authenticated, now);
    RowsAreListed(s);
    ReadHandlerOk(s, RowOfToken(s.rows, token), appId, authenticated, now);
    hide Step, Enabled, AfterRead, RowOfToken, ChainInv;
    var t := Step(s, ReadRefresh(h, token, appId, authenticated, now));
    SameRowsEvolve(s.rows);
    HandlerSurvives(s, t, t.handlers[h]);
    QuietStep(s, t, h);
  }

  lemma ReadStep(s: Server, h: HandlerId, token: Token, appId: nat, authenticated: bool, now: Time)
    requires h !in s.handlers
    ensures Step(s, ReadRefresh(h, token, appId, authenticated, now))
         == s.(handlers := s.handlers[h := AfterRead(s.rows, RowOfToken(s.rows, token), appId, authenticated, now)])
  {
    hide AfterRead, RowOfToken;
  }

  lemma RowsAreListed(s: Server)
    requires ChainInv(s)
    ensures RowsListed(s)
  {
    hide ChainsOk, TokensDistinct, HandlersOk, OneRotation, RowsListed;
  }

  lemma ReadHandlerOk(s: Server, found: Option<RowId>, appId: nat, authenticated: bool, now: Time)
    requires RowsListed(s) && (found.Some? ==> found.value in s.rows)
    ensures var handler := AfterRead(s.rows, found, appId, authenticated, now);
            HandlerOk(s, handler) && !handler.Inserting?
  {
  }

  /** A step on codes, or one that only ends a handler. */
  predicate CodeAction(a: Action) {
    a.IssueCode? || a.RejectOrganization? || a.ConsumeCode? || a.ReadCode? || a.DeleteExpiredCode? || a.Cleanup? || a.Stop?
  }

  lemma CodeActionKeepsChains(s: Server, a: Action)
    requires ChainInv(s) && Enabled(s, a) && CodeAction(a)
    ensures ChainInv(Step(s, a))
  {
    hide ChainInv, Evolves, CheckRequest, AfterRead, ClaimStep, InsertStep, FinishStep, RevokeStep, MarkRows;
    SameRowsEvolve(s.rows);
    var t := Step(s, a);
    if a.IssueCode? || a.Cleanup? {
      CodesOnly(s, t);
    } else {
      QuietStep(s, t, a.h);
    }
  }

  lemma CodesOnly(s: Server, t: Server)
    requires ChainInv(s) && t.rows == s.rows && t.handlers == s.handlers && t.history.chains == s.history.chains
    ensures ChainInv(t)
  {
    hide IsChain;
    forall h | h in t.handlers
      ensures HandlerOk(t, t.handlers[h])
    {
      assert HandlerOk(s, s.handlers[h]);
    }
    forall f, g, k | InFlight(t, g, f) && InFlight(t, k, f)
      ensures g == k
    {
      assert InFlight(s, g, f) && InFlight(s, k, f);
    }
  }

  lemma StepKeepsChains(s: Server, a: Action)
    requires ChainInv(s) && Enabled(s, a)
    ensures ChainInv(Step(s, a))
  {
    if CodeAction(a) {
      CodeActionKeepsChains(s, a);
      return;
    }
    hide ChainInv, FinishStep, InsertStep, ClaimStep, RevokeStep;
    match a
    case ReadRefresh(h, token, appId, authenticated, now) => ReadKeepsChains(s, h, token, appId, authenticated, now);
    case Claim(h, now) => ClaimKeepsChains(s, h, now);
    case InsertSuccessor(h, newId, newToken, expiresAt) => InsertKeepsChains(s, h, newId, newToken, expiresAt);
    case MarkFamilyReuse(h, now) => MarkKeepsChains(s, h, now);
    case RevokeExpired(h, now) => RevokeKeepsChains(s, h, now);
    case FinishExchange(h, newId, newToken, expiresAt) => FinishKeepsChains(s, h, newId, newToken, expiresAt);
  }

  lemma {:induction false} RunKeepsChains(s: Server, actions: seq<Action>)
    requires ChainInv(s)
    ensures ChainInv(Run(s, actions))
    decreases |actions|
  {
    hide ChainInv, Step, Enabled;
    if actions != [] {
      if Enabled(s, actions[0]) {
        StepKeepsChains(s, actions[0]);
      }
      RunKeepsChains(Apply(s, actions[0]), actions[1..]);
    }
  }
}
