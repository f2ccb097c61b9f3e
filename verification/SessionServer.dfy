/** What the token endpoint does to the refresh-token families of a set of tabs, seen from the tabs. */
module SessionServer {
  import opened Options
  import opened TokenServer
  import opened RefreshChains
  import opened SessionSystem

  ghost function Known(server: Server, mine: set<RowId>): set<Token> {
    set r | r in server.rows && server.rows[r].familyId in mine :: server.rows[r].token
  }

  ghost function Live(server: Server, mine: set<RowId>): set<Token> {
    set r | r in server.rows && server.rows[r].familyId in mine && server.rows[r].Live() :: server.rows[r].token
  }

  /** No reuse mark on these families, and no handler works on them but one that is rotating. */
  ghost predicate Quiet(server: Server, mine: set<RowId>, awaited: Option<HandlerId>) {
    && mine <= server.history.chains.Keys
    && (forall r :: r in server.rows && server.rows[r].familyId in mine ==> server.rows[r].reuseDetectedAt.None?)
    && (forall h, f :: h in server.handlers && f in mine && WorksOn(server, h, f) ==>
          awaited == Some(h) && (server.handlers[h].Claiming? || server.handlers[h].Inserting?))
  }

  /** How far the request with this token has come. */
  ghost predicate InService(server: Server, mine: set<RowId>, h: HandlerId, token: Token) {
    h in server.handlers &&
    match server.handlers[h]
    case Claiming(id, row) =>
      id in server.rows && server.rows[id].token == token && server.rows[id].familyId in mine && server.rows[id].Live()
    case Inserting(id, row) =>
      id in server.rows && server.rows[id].token == token && row.familyId in mine && !server.rows[id].Live()
    case Answered(Refused) => token in Live(server, mine)
    case Answered(Refreshed(next)) => next in Live(server, mine) && token !in Live(server, mine)
    case _ => false
  }

  function HandlerOf(a: Action): Option<HandlerId> {
    if a.IssueCode? || a.Cleanup? then None else Some(a.h)
  }

  /** Rows of other families come and change; those of these families stay as they are. */
  ghost predicate OnlyOutside(server: Server, next: Server, mine: set<RowId>) {
    && (forall r :: r in server.rows ==> r in next.rows && next.rows[r].familyId == server.rows[r].familyId)
    && (forall r :: r in server.rows && server.rows[r].familyId in mine ==> next.rows[r] == server.rows[r])
    && (forall r :: r in next.rows && r !in server.rows ==> next.rows[r].familyId !in mine)
  }

  lemma OutsideKeepsTokens(server: Server, next: Server, mine: set<RowId>)
    requires OnlyOutside(server, next, mine)
    ensures Known(next, mine) == Known(server, mine) && Live(next, mine) == Live(server, mine)
  {
    forall r | r in server.rows && server.rows[r].familyId in mine
      ensures r in next.rows && next.rows[r] == server.rows[r]
    {
    }
    forall token | token in Known(next, mine)
      ensures token in Known(server, mine)
    {
      var r :| r in next.rows && next.rows[r].familyId in mine && next.rows[r].token == token;
      assert r in server.rows;
    }
    forall token | token in Live(next, mine)
      ensures token in Live(server, mine)
    {
      var r :| r in next.rows && next.rows[r].familyId in mine && next.rows[r].Live() && next.rows[r].token == token;
      assert r in server.rows;
    }
    forall token | token in Live(server, mine)
      ensures token in Live(next, mine)
    {
      var r :| r in server.rows && server.rows[r].familyId in mine && server.rows[r].Live() && server.rows[r].token == token;
      assert r in next.rows && next.rows[r] == server.rows[r];
    }
  }

  /** A handler the tabs do not wait for works outside their families. */
  lemma ActsOutside(server: Server, a: Action, mine: set<RowId>, awaited: Option<HandlerId>)
    requires ChainInv(server) && Quiet(server, mine, awaited) && Enabled(server, a)
    requires a.ReadRefresh? ==> FamiliesOf(server.rows, {a.token}) !! mine
    requires awaited.Some? ==> HandlerOf(a) != awaited
    ensures OnlyOutside(server, Step(server, a), mine)
  {
    hide ChainInv, FamiliesOf, AfterRead, RowOfToken, ClaimStep, InsertStep, MarkRows, RevokeStep, FinishStep;
    match a
    case Claim(h, now) => ClaimOutside(server, h, now, mine, awaited);
    case FinishExchange(h, newId, newToken, expiresAt) =>
      FamiliesHaveRoots(server, mine, newId);
      FinishOutside(server, h, newId, newToken, expiresAt, mine);
    case InsertSuccessor(h, newId, newToken, expiresAt) =>
      InsertOutside(server, h, newId, newToken, expiresAt, mine, awaited);
    case MarkFamilyReuse(h, now) => MarkOutside(server, h, now, mine, awaited);
    case RevokeExpired(h, now) => RevokeOutside(server, h, now, mine, awaited);
    case _ =>
  }

  lemma InsertOutside(server: Server, h: HandlerId, newId: RowId, newToken: Token, expiresAt: Time, mine: set<RowId>,
                      awaited: Option<HandlerId>)
    requires Quiet(server, mine, awaited) && h in server.handlers && server.handlers[h].Inserting? && awaited != Some(h)
    requires newId !in server.rows
    ensures OnlyOutside(server, InsertStep(server, h, newId, newToken, expiresAt), mine)
  {
    assert server.handlers[h].row.familyId in mine ==> !WorksOn(server, h, server.handlers[h].row.familyId);
  }

  lemma MarkOutside(server: Server, h: HandlerId, now: Time, mine: set<RowId>, awaited: Option<HandlerId>)
    requires Quiet(server, mine, awaited) && h in server.handlers && server.handlers[h].Marking?
    ensures OnlyOutside(server, server.(rows := MarkRows(server.rows, server.handlers[h].familyId, now),
                                        handlers := server.handlers[h := Answered(Refused)]), mine)
  {
    assert server.handlers[h].familyId in mine ==> !WorksOn(server, h, server.handlers[h].familyId);
  }

  lemma RevokeOutside(server: Server, h: HandlerId, now: Time, mine: set<RowId>, awaited: Option<HandlerId>)
    requires Quiet(server, mine, awaited) && h in server.handlers && server.handlers[h].RevokingExpired?
    ensures OnlyOutside(server, RevokeStep(server, h, now), mine)
  {
    var id := server.handlers[h].id;
    assert id in server.rows && server.rows[id].familyId in mine ==> !WorksOn(server, h, server.rows[id].familyId);
  }

  lemma ClaimOutside(server: Server, h: HandlerId, now: Time, mine: set<RowId>, awaited: Option<HandlerId>)
    requires ChainInv(server) && Quiet(server, mine, awaited) && h in server.handlers && server.handlers[h].Claiming?
    requires awaited != Some(h)
    ensures OnlyOutside(server, ClaimStep(server, h, now), mine)
  {
    hide IsChain, ChainsOk, TokensDistinct, OneRotation, RowsListed;
    assert HandlerOk(server, server.handlers[h]);
    hide HandlersOk;
    assert forall f :: f in mine ==> !WorksOn(server, h, f);
  }

  lemma FinishOutside(server: Server, h: HandlerId, newId: RowId, newToken: Token, expiresAt: Time, mine: set<RowId>)
    requires h in server.handlers && server.handlers[h].Exchanging? && newId !in mine && newId !in server.rows
    ensures OnlyOutside(server, FinishStep(server, h, newId, newToken, expiresAt), mine)
  {
    hide CheckRequest;
  }

  lemma FamiliesHaveRoots(server: Server, mine: set<RowId>, newId: RowId)
    requires ChainInv(server) && mine <= server.history.chains.Keys && newId !in server.rows
    ensures newId !in mine
  {
    hide ChainInv;
    if newId in mine {
      NoRootWithoutRow(server, newId);
    }
  }

  lemma OutsideStaysQuiet(server: Server, a: Action, mine: set<RowId>, awaited: Option<HandlerId>)
    requires ChainInv(server) && Quiet(server, mine, awaited) && Enabled(server, a)
    requires a.ReadRefresh? ==> FamiliesOf(server.rows, {a.token}) !! mine
    requires awaited.Some? ==> HandlerOf(a) != awaited
    ensures Quiet(Step(server, a), mine, awaited)
  {
    hide ChainInv, Step, Enabled, WorksOn, FamiliesOf;
    ActsOutside(server, a, mine, awaited);
    ChainsStay(server, a);
    var next := Step(server, a);
    forall h, f | h in next.handlers && f in mine && WorksOn(next, h, f)
      ensures awaited == Some(h) && (next.handlers[h].Claiming? || next.handlers[h].Inserting?)
    {
      WorkingHandlerUnmoved(server, a, mine, awaited, h, f);
    }
  }

  lemma WorkingHandlerUnmoved(server: Server, a: Action, mine: set<RowId>, awaited: Option<HandlerId>, h: HandlerId, f: RowId)
    requires ChainInv(server) && Quiet(server, mine, awaited) && Enabled(server, a)
    requires a.ReadRefresh? ==> FamiliesOf(server.rows, {a.token}) !! mine
    requires awaited.Some? ==> HandlerOf(a) != awaited
    requires OnlyOutside(server, Step(server, a), mine)
    requires h in Step(server, a).handlers && f in mine && WorksOn(Step(server, a), h, f)
    ensures h in server.handlers && server.handlers[h] == Step(server, a).handlers[h] && WorksOn(server, h, f)
  {
    hide ChainInv, Step, Enabled, WorksOn, FamiliesOf, Quiet, OnlyOutside;
    if HandlerOf(a) == Some(h) {
      MovedStaysOutside(server, a, mine, awaited, h, f);
      assert false;
    }
    UnmovedWorksAsBefore(server, a, mine, h, f);
  }

  lemma ChainsStay(server: Server, a: Action)
    requires Enabled(server, a)
    ensures server.history.chains.Keys <= Step(server, a).history.chains.Keys
  {
    hide CheckRequest;
  }

  lemma UnmovedWorksAsBefore(server: Server, a: Action, mine: set<RowId>, h: HandlerId, f: RowId)
    requires ChainInv(server) && Enabled(server, a) && OnlyOutside(server, Step(server, a), mine)
    requires h in Step(server, a).handlers && HandlerOf(a) != Some(h) && WorksOn(Step(server, a), h, f)
    ensures h in server.handlers && server.handlers[h] == Step(server, a).handlers[h] && WorksOn(server, h, f)
  {
    hide Step, Enabled, IsChain, ChainsOk, TokensDistinct, OneRotation, RowsListed;
    OthersUnmoved(server, a, h);
    assert HandlerOk(server, server.handlers[h]);
  }

  lemma OthersUnmoved(server: Server, a: Action, h: HandlerId)
    requires Enabled(server, a) && h in Step(server, a).handlers && HandlerOf(a) != Some(h)
    ensures h in server.handlers && server.handlers[h] == Step(server, a).handlers[h]
  {
    hide CheckRequest, AfterRead;
  }

  lemma MovedStaysOutside(server: Server, a: Action, mine: set<RowId>, awaited: Option<HandlerId>, h: HandlerId, f: RowId)
    requires Quiet(server, mine, awaited) && Enabled(server, a) && f in mine && awaited != Some(h)
    requires a.ReadRefresh? ==> FamiliesOf(server.rows, {a.token}) !! mine
    requires HandlerOf(a) == Some(h) && h in Step(server, a).handlers
    ensures !WorksOn(Step(server, a), h, f)
  {
    hide CheckRequest;
    match a
    case ReadRefresh(_, token, _, _, _) =>
      var found := RowOfToken(server.rows, token);
      assert found.Some? ==> server.rows[found.value].familyId in FamiliesOf(server.rows, {token});
    case Claim(_, _) =>
      assert !WorksOn(server, h, f);
    case _ =>
  }

  /** Revoking the one row with this token takes that token, and no other, from the live ones. */
  lemma ClaimTakesToken(server: Server, mine: set<RowId>, h: HandlerId, now: Time, token: Token)
    requires ChainInv(server) && InService(server, mine, h, token) && server.handlers[h].Claiming?
    ensures var next := ClaimStep(server, h, now);
            && next.handlers[h] == Inserting(server.handlers[h].id, server.handlers[h].row)
            && InService(next, mine, h, token)
            && Known(next, mine) == Known(server, mine)
            && Live(next, mine) == Live(server, mine) - {token}
  {
    hide IsChain, ChainsOk, OneRotation, RowsListed;
    assert HandlerOk(server, server.handlers[h]);
    var id := server.handlers[h].id;
    var next := ClaimStep(server, h, now);
    hide HandlersOk;
    assert forall r :: r in server.rows && r != id ==> server.rows[r].token != token && next.rows[r] == server.rows[r];
    forall t | t in Known(server, mine)
      ensures t in Known(next, mine)
    {
      var r :| r in server.rows && server.rows[r].familyId in mine && server.rows[r].token == t;
      assert r in next.rows && next.rows[r].familyId in mine && next.rows[r].token == t;
    }
    forall t | t in Live(server, mine) - {token}
      ensures t in Live(next, mine)
    {
      var r :| r in server.rows && server.rows[r].familyId in mine && server.rows[r].Live() && server.rows[r].token == t;
      assert r in next.rows && next.rows[r] == server.rows[r];
    }
  }

  lemma ClaimStaysQuiet(server: Server, mine: set<RowId>, h: HandlerId, now: Time, token: Token)
    requires ChainInv(server) && InService(server, mine, h, token) && server.handlers[h].Claiming?
    requires Quiet(server, mine, Some(h))
    ensures Quiet(ClaimStep(server, h, now), mine, Some(h))
  {
    hide IsChain, ChainsOk, OneRotation, RowsListed, TokensDistinct;
    assert HandlerOk(server, server.handlers[h]);
    var next := ClaimStep(server, h, now);
    forall g, f | g in next.handlers && f in mine && g != h
      ensures !WorksOn(next, g, f)
    {
      assert !WorksOn(server, g, f);
    }
  }

  /** The successor brings one new live token to the family. */
  lemma InsertBringsToken(server: Server, mine: set<RowId>, h: HandlerId, a: Action, token: Token)
    requires ChainInv(server) && InService(server, mine, h, token) && server.handlers[h].Inserting?
    requires a.InsertSuccessor? && a.h == h && Enabled(server, a)
    ensures var next := Step(server, a);
            && next.handlers[h] == Answered(Refreshed(a.newToken))
            && InService(next, mine, h, token)
            && a.newToken !in Known(server, mine)
            && Known(next, mine) == Known(server, mine) + {a.newToken}
            && Live(next, mine) == Live(server, mine) + {a.newToken}
  {
    hide IsChain, ChainsOk, OneRotation, RowsListed, HandlersOk, CheckRequest, AfterRead, ClaimStep, RevokeStep,
         ConsumeStep, FinishStep, CleanupStep, MarkRows;
    var id := server.handlers[h].id;
    var next := Step(server, a);
    assert next.rows[a.newId].Live() && next.rows[a.newId].familyId in mine;
    assert forall r :: r in server.rows ==> r in next.rows && next.rows[r] == server.rows[r];
    forall t | t in Known(server, mine)
      ensures t in Known(next, mine)
    {
      var r :| r in server.rows && server.rows[r].familyId in mine && server.rows[r].token == t;
      assert next.rows[r].token == t;
    }
    forall t | t in Live(server, mine)
      ensures t in Live(next, mine)
    {
      var r :| r in server.rows && server.rows[r].familyId in mine && server.rows[r].Live() && server.rows[r].token == t;
      assert next.rows[r].token == t;
    }
    assert token !in Live(server, mine);
    assert next.rows[id].token == token;
  }

  lemma InsertStaysQuiet(server: Server, mine: set<RowId>, h: HandlerId, a: Action, token: Token)
    requires ChainInv(server) && InService(server, mine, h, token) && server.handlers[h].Inserting?
    requires a.InsertSuccessor? && a.h == h && Enabled(server, a) && Quiet(server, mine, Some(h))
    ensures Quiet(Step(server, a), mine, Some(h))
  {
    hide IsChain, ChainsOk, OneRotation, RowsListed, TokensDistinct, CheckRequest, AfterRead, ClaimStep, RevokeStep,
         ConsumeStep, FinishStep, CleanupStep, MarkRows;
    var next := Step(server, a);
    forall g, f | g in next.handlers && f in mine
      ensures !WorksOn(next, g, f)
    {
      if g != h {
        assert HandlerOk(server, server.handlers[g]) && !WorksOn(server, g, f);
      }
    }
  }

  /** The organization check refused the request before anything was claimed. */
  lemma RejectKeepsTokens(server: Server, mine: set<RowId>, h: HandlerId, token: Token)
    requires InService(server, mine, h, token) && server.handlers[h].Claiming? && Quiet(server, mine, Some(h))
    ensures var next := Step(server, RejectOrganization(h));
            && InService(next, mine, h, token) && Quiet(next, mine, Some(h))
            && Known(next, mine) == Known(server, mine) && Live(next, mine) == Live(server, mine)
  {
    hide CheckRequest, AfterRead, ClaimStep, InsertStep, RevokeStep, ConsumeStep, FinishStep, CleanupStep, MarkRows;
    var next := Step(server, RejectOrganization(h));
    assert server.rows[server.handlers[h].id].token in Live(server, mine);
    forall g, f | g in next.handlers && f in mine
      ensures !WorksOn(next, g, f)
    {
      assert g != h ==> !WorksOn(server, g, f);
    }
  }

  /** A live token of these families that is presented in time is refused or goes on to be claimed. */
  lemma PresentLiveToken(server: Server, mine: set<RowId>, h: HandlerId, token: Token, appId: nat,
                         authenticated: bool, now: Time)
    requires ChainInv(server) && Quiet(server, mine, None) && h !in server.handlers
    requires token in Live(server, mine)
    requires forall r :: r in server.rows && server.rows[r].token == token ==> now <= server.rows[r].expiresAt
    ensures var next := Step(server, ReadRefresh(h, token, appId, authenticated, now));
            && InService(next, mine, h, token) && Quiet(next, mine, Some(h)) && next.rows == server.rows
            && (next.handlers[h].Claiming? || next.handlers[h] == Answered(Refused))
  {
    var r :| r in server.rows && server.rows[r].familyId in mine && server.rows[r].Live()
             && server.rows[r].token == token;
    hide ChainInv, Step, AfterRead, RowOfToken, Quiet, InService, Live;
    LiveRowIsRead(server, r, appId, authenticated, now);
    ReadStep(server, h, token, appId, authenticated, now);
    var handler := AfterRead(server.rows, RowOfToken(server.rows, token), appId, authenticated, now);
    PresentedIsServed(server, mine, h, r, handler);
  }

  lemma PresentedIsServed(server: Server, mine: set<RowId>, h: HandlerId, r: RowId, handler: Handler)
    requires Quiet(server, mine, None) && h !in server.handlers
    requires r in server.rows && server.rows[r].familyId in mine && server.rows[r].Live()
    requires handler == Claiming(r, server.rows[r]) || handler == Answered(Refused)
    ensures var next := server.(handlers := server.handlers[h := handler]);
            InService(next, mine, h, server.rows[r].token) && Quiet(next, mine, Some(h))
  {
    var next := server.(handlers := server.handlers[h := handler]);
    assert server.rows[r].token in Live(next, mine);
    forall g, f | g in next.handlers && f in mine && g != h
      ensures !WorksOn(next, g, f)
    {
      assert !WorksOn(server, g, f);
    }
  }

  lemma LiveRowIsRead(server: Server, r: RowId, appId: nat, authenticated: bool, now: Time)
    requires ChainInv(server) && r in server.rows && server.rows[r].Live() && now <= server.rows[r].expiresAt
    ensures AfterRead(server.rows, RowOfToken(server.rows, server.rows[r].token), appId, authenticated, now)
         == if authenticated && server.rows[r].appId == appId then Claiming(r, server.rows[r]) else Answered(Refused)
  {
    hide IsChain, ChainsOk, OneRotation, RowsListed, HandlersOk;
    assert RowOfToken(server.rows, server.rows[r].token) == Some(r);
  }

  /** Once answered, a handler works on nothing. */
  lemma AnsweredIsQuiet(server: Server, mine: set<RowId>, h: HandlerId)
    requires Quiet(server, mine, Some(h)) && h in server.handlers && server.handlers[h].Answered?
    ensures Quiet(server, mine, None)
  {
    assert forall f :: !WorksOn(server, h, f);
  }

  /** The first token of a family is live only while it is the family's only token. */
  lemma LiveRootIsAlone(server: Server, r: RowId, q: RowId)
    requires ChainInv(server) && r in server.rows && server.rows[r].familyId == r && server.rows[r].Live()
    requires q in server.rows && server.rows[q].familyId == r
    ensures q == r && r in server.history.chains
  {
    LiveRowIsLast(server, r);
    var chain := server.history.chains[r];
    assert IsChain(server.rows, r, chain) && q in chain;
    assert chain[0] == chain[|chain| - 1];
  }

  /** A family joins the tabs' families with one live token nobody has seen. */
  lemma FamilyJoins(server: Server, mine: set<RowId>, awaited: Option<HandlerId>, r: RowId, token: Token)
    requires ChainInv(server) && Quiet(server, mine, awaited) && StartsFamily(server, r, token) && r !in mine
    ensures FamiliesOf(server.rows, {token}) == {r}
    ensures token !in Known(server, mine) && token in Live(server, mine + {r})
    ensures Known(server, mine) <= Known(server, mine + {r})
    ensures Live(server, mine) <= Live(server, mine + {r}) <= Live(server, mine) + {token}
  {
    hide WorksOn, Quiet, FamiliesOf, Known, Live;
    assert forall q :: q in server.rows && server.rows[q].token == token ==> q == r by {
      hide IsChain, ChainsOk, OneRotation, RowsListed, HandlersOk;
    }
    hide ChainInv;
    forall q | q in server.rows && server.rows[q].familyId == r
      ensures q == r
    {
      LiveRootIsAlone(server, r, q);
    }
    JoinedTokens(server, mine, r, token);
  }

  lemma JoinedTokens(server: Server, mine: set<RowId>, r: RowId, token: Token)
    requires r in server.rows && server.rows[r].token == token && server.rows[r].familyId == r && server.rows[r].Live()
    requires r !in mine && forall q :: q in server.rows && server.rows[q].token == token ==> q == r
    requires forall q :: q in server.rows && server.rows[q].familyId == r ==> q == r
    ensures FamiliesOf(server.rows, {token}) == {r}
    ensures token !in Known(server, mine) && token in Live(server, mine + {r})
    ensures Known(server, mine) <= Known(server, mine + {r})
    ensures Live(server, mine) <= Live(server, mine + {r}) <= Live(server, mine) + {token}
  {
    assert r in FamiliesOf(server.rows, {token}) by { assert server.rows[r].familyId in FamiliesOf(server.rows, {token}); }
    forall t | t in Known(server, mine)
      ensures t in Known(server, mine + {r})
    {
      var q :| q in server.rows && server.rows[q].familyId in mine && server.rows[q].token == t;
      assert server.rows[q].familyId in mine + {r};
    }
    forall t | t in Live(server, mine)
      ensures t in Live(server, mine + {r})
    {
      var q :| q in server.rows && server.rows[q].familyId in mine && server.rows[q].Live() && server.rows[q].token == t;
      assert server.rows[q].familyId in mine + {r};
    }
    assert server.rows[r].familyId in mine + {r};
  }

  lemma JoinedStaysQuiet(server: Server, mine: set<RowId>, awaited: Option<HandlerId>, r: RowId, token: Token)
    requires ChainInv(server) && Quiet(server, mine, awaited) && StartsFamily(server, r, token)
    ensures Quiet(server, mine + {r}, awaited)
  {
    forall q | q in server.rows && server.rows[q].familyId == r
      ensures q == r && r in server.history.chains
    {
      hide ChainInv;
      LiveRootIsAlone(server, r, q);
    }
    hide ChainInv;
  }
}
