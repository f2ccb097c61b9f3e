/** What refresh-token rotation guarantees in every reachable state of the server. */
module RefreshTheorems {
  import opened Options
  import opened TokenServer
  import opened RefreshChains
  import opened Cardinality

  /** What can still be exchanged for tokens: a live row, or a rotation that will insert one. */
  datatype Holder = RowHolder(id: RowId) | RotationHolder(h: HandlerId)

  ghost function Holders(s: Server): set<Holder> {
    (set r | r in s.rows && s.rows[r].Live() :: RowHolder(r))
    + (set h | h in s.handlers && s.handlers[h].Inserting? :: RotationHolder(h))
  }

  ghost function FamilyOf(s: Server, x: Holder): RowId
    requires x in Holders(s)
  {
    match x
    case RowHolder(r) => s.rows[r].familyId
    case RotationHolder(h) => s.handlers[h].row.familyId
  }

  ghost function HoldersOf(s: Server, f: RowId): set<Holder> {
    set x | x in Holders(s) && FamilyOf(s, x) == f
  }

  lemma HoldersShareNoFamily(s: Server, x: Holder, y: Holder)
    requires ChainInv(s) && x in Holders(s) && y in Holders(s) && FamilyOf(s, x) == FamilyOf(s, y)
    ensures x == y
  {
    hide IsChain, ChainsOk, TokensDistinct, HandlersOk, RowsListed;
    var f := FamilyOf(s, x);
    match (x, y) {
      case (RowHolder(r), RowHolder(q)) =>
        LiveRowIsLast(s, r);
        LiveRowIsLast(s, q);
      case (RowHolder(r), RotationHolder(h)) =>
        NoRotationBesideUnrevoked(s, r, h);
      case (RotationHolder(h), RowHolder(r)) =>
        NoRotationBesideUnrevoked(s, r, h);
      case (RotationHolder(h), RotationHolder(g)) =>
        assert InFlight(s, h, f) && InFlight(s, g, f);
    }
  }

  /** In every run and for every family, at most one live row or rotation in flight. */
  lemma OneHolderPerFamily(actions: seq<Action>, f: RowId)
    ensures |HoldersOf(Run(INITIAL, actions), f)| <= 1
  {
    hide ChainInv, Holders, FamilyOf;
    var s := Run(INITIAL, actions);
    assert ChainInv(s) by {
      InitialChainInv();
      RunKeepsChains(INITIAL, actions);
    }
    forall x, y | x in HoldersOf(s, f) && y in HoldersOf(s, f)
      ensures x == y
    {
      HoldersShareNoFamily(s, x, y);
    }
    AtMostOne(HoldersOf(s, f));
  }

  /** The row reached from r by following rotatedFromId n times. */
  ghost function Ancestor(rows: map<RowId, RefreshRow>, r: RowId, n: nat): Option<RowId>
    decreases n
  {
    if n == 0 then Some(r)
    else if r in rows && rows[r].rotatedFromId.Some? then Ancestor(rows, rows[r].rotatedFromId.value, n - 1)
    else None
  }

  lemma {:induction false} ChainAncestor(rows: map<RowId, RefreshRow>, f: RowId, chain: seq<RowId>, i: nat)
    requires IsChain(rows, f, chain) && i < |chain|
    ensures Ancestor(rows, chain[i], i) == Some(f)
  {
    if i > 0 {
      ChainAncestor(rows, f, chain, i - 1);
      assert rows[chain[i]].rotatedFromId == Some(chain[i - 1]);
    }
  }

  /** Following rotatedFromId from any row ends at the root, whose id is the family id. */
  lemma EveryRowDescendsFromItsRoot(actions: seq<Action>, r: RowId)
    requires r in Run(INITIAL, actions).rows
    ensures var rows := Run(INITIAL, actions).rows;
            && rows[r].familyId in rows && rows[rows[r].familyId].rotatedFromId == None
            && exists n :: Ancestor(rows, r, n) == Some(rows[r].familyId)
  {
    InitialChainInv();
    RunKeepsChains(INITIAL, actions);
    var s := Run(INITIAL, actions);
    var f := s.rows[r].familyId;
    var chain := s.history.chains[f];
    assert IsChain(s.rows, f, chain) && r in chain;
    var i :| 0 <= i < |chain| && chain[i] == r;
    ChainAncestor(s.rows, f, chain, i);
  }

  /** No two rows have the same parent; a parent is revoked and shares the family, the user, the app and the scope. */
  lemma RotationIsLinear(actions: seq<Action>, r: RowId)
    requires r in Run(INITIAL, actions).rows && Run(INITIAL, actions).rows[r].rotatedFromId.Some?
    ensures var rows := Run(INITIAL, actions).rows;
            var p := rows[r].rotatedFromId.value;
            && p in rows && rows[p].revokedAt.Some?
            && rows[p].familyId == rows[r].familyId && rows[p].userId == rows[r].userId
            && rows[p].identityId == rows[r].identityId && rows[p].appId == rows[r].appId && rows[p].scope == rows[r].scope
            && forall q :: q in rows && rows[q].rotatedFromId == Some(p) ==> q == r
  {
    InitialChainInv();
    RunKeepsChains(INITIAL, actions);
    var s := Run(INITIAL, actions);
    var i := Position(s, r);
    var p := s.history.chains[s.rows[r].familyId][i - 1];
    forall q | q in s.rows && s.rows[q].rotatedFromId == Some(p)
      ensures q == r
    {
      var j := Position(s, q);
    }
  }

  lemma Position(s: Server, r: RowId) returns (i: nat)
    requires ChainInv(s) && r in s.rows && s.rows[r].rotatedFromId.Some?
    ensures var f := s.rows[r].familyId;
            && f in s.history.chains && IsChain(s.rows, f, s.history.chains[f])
            && 0 < i < |s.history.chains[f]| && s.history.chains[f][i] == r
            && s.rows[r].rotatedFromId == Some(s.history.chains[f][i - 1])
  {
    var f := s.rows[r].familyId;
    var chain := s.history.chains[f];
    assert IsChain(s.rows, f, chain) && r in chain;
    i :| 0 <= i < |chain| && chain[i] == r;
  }

  /** A family without holders. */
  ghost predicate Dead(s: Server, f: RowId) {
    f in s.history.chains && HoldersOf(s, f) == {}
  }

  ghost predicate HasLiveRow(s: Server, f: RowId) {
    exists r :: r in s.rows && s.rows[r].familyId == f && s.rows[r].Live()
  }

  lemma HolderIfLive(s: Server, f: RowId)
    requires HasLiveRow(s, f)
    ensures HoldersOf(s, f) != {}
  {
    var r :| r in s.rows && s.rows[r].familyId == f && s.rows[r].Live();
    assert RowHolder(r) in HoldersOf(s, f);
  }

  /** Where the live rows after a step come from. */
  lemma StepRows(s: Server, a: Action, r: RowId)
    requires Enabled(s, a) && r in Step(s, a).rows && Step(s, a).rows[r].Live()
    ensures var row := Step(s, a).rows[r];
            || (r in s.rows && s.rows[r].Live() && s.rows[r].familyId == row.familyId)
            || (r !in s.rows && a.InsertSuccessor? && a.h in s.handlers && s.handlers[a.h].Inserting?
                && row.familyId == s.handlers[a.h].row.familyId)
            || (r !in s.rows && !a.InsertSuccessor? && row.familyId == r)
  {
    hide CheckRequest;
  }

  /** Where the rotations after a step come from. */
  lemma StepRotations(s: Server, a: Action, h: HandlerId)
    requires Enabled(s, a) && h in Step(s, a).handlers && Step(s, a).handlers[h].Inserting?
    ensures || (h in s.handlers && s.handlers[h] == Step(s, a).handlers[h])
            || (h in s.handlers && s.handlers[h].Claiming? && s.handlers[h].id in s.rows && s.rows[s.handlers[h].id].Live()
                && Step(s, a).handlers[h].row == s.handlers[h].row)
  {
    hide CheckRequest;
  }

  /** Every holder after a step had a predecessor in its family, unless the step started the family. */
  lemma StepHolders(s: Server, a: Action, x: Holder) returns (y: Option<Holder>)
    requires ChainInv(s) && Enabled(s, a) && x in Holders(Step(s, a))
    ensures y.Some? ==> y.value in Holders(s) && FamilyOf(s, y.value) == FamilyOf(Step(s, a), x)
    ensures y.None? ==> FamilyOf(Step(s, a), x) !in s.rows
  {
    hide ChainInv, Step, Enabled;
    var t := Step(s, a);
    match x
    case RowHolder(r) =>
      StepRows(s, a, r);
      if r in s.rows && s.rows[r].Live() {
        y := Some(RowHolder(r));
      } else if a.InsertSuccessor? {
        y := Some(RotationHolder(a.h));
      } else {
        y := None;
      }
      assert y.Some? ==> y.value in Holders(s);
    case RotationHolder(h) =>
      StepRotations(s, a, h);
      if h in s.handlers && s.handlers[h].Inserting? {
        y := Some(RotationHolder(h));
        assert y.value in Holders(s);
      } else {
        y := Some(RowHolder(s.handlers[h].id));
        ClaimedFamily(s, h);
        assert y.value in Holders(s);
      }
  }

  lemma ClaimedFamily(s: Server, h: HandlerId)
    requires ChainInv(s) && h in s.handlers && s.handlers[h].Claiming?
    ensures s.handlers[h].id in s.rows && s.rows[s.handlers[h].id].familyId == s.handlers[h].row.familyId
  {
    hide IsChain, ChainsOk, TokensDistinct, OneRotation, RowsListed;
    assert HandlerOk(s, s.handlers[h]);
  }

  /** Nothing brings a holder back to a family that has none. */
  lemma StepKeepsDead(s: Server, a: Action, f: RowId)
    requires ChainInv(s) && Enabled(s, a) && Dead(s, f)
    ensures Dead(Step(s, a), f)
  {
    var t := Step(s, a);
    FamilySurvives(s, a, f);
    hide ChainInv, Step, Enabled, Holders, FamilyOf;
    forall x | x in Holders(t)
      ensures FamilyOf(t, x) != f
    {
      var y := StepHolders(s, a, x);
      assert y.Some? ==> y.value !in HoldersOf(s, f);
    }
  }

  lemma FamilySurvives(s: Server, a: Action, f: RowId)
    requires ChainInv(s) && Enabled(s, a) && f in s.history.chains
    ensures f in s.rows && f in Step(s, a).history.chains
  {
    hide CheckRequest, IsChain, HandlersOk, TokensDistinct, OneRotation, RowsListed;
    NoRootWithoutRow(s, f);
  }

  lemma {:induction false} RunKeepsDead(s: Server, actions: seq<Action>, f: RowId)
    requires ChainInv(s) && Dead(s, f)
    ensures Dead(Run(s, actions), f)
    decreases |actions|
  {
    hide ChainInv, Dead, Step, Enabled;
    if actions != [] {
      if Enabled(s, actions[0]) {
        StepKeepsChains(s, actions[0]);
        StepKeepsDead(s, actions[0], f);
      }
      RunKeepsDead(Apply(s, actions[0]), actions[1..], f);
    }
  }

  /** The server once the handler has marked its family. */
  function Marked(s: Server, h: HandlerId, now: Time): Server
    requires h in s.handlers && s.handlers[h].Marking?
  {
    s.(rows := MarkRows(s.rows, s.handlers[h].familyId, now), handlers := s.handlers[h := Answered(Refused)])
  }

  lemma MarkedIsAStep(s: Server, h: HandlerId, now: Time)
    requires h in s.handlers && s.handlers[h].Marking?
    ensures Enabled(s, MarkFamilyReuse(h, now)) && Step(s, MarkFamilyReuse(h, now)) == Marked(s, h, now)
  {
  }

  ghost predicate RotationInFlight(s: Server, f: RowId) {
    exists h :: InFlight(s, h, f)
  }

  /** After reuse of a family was detected and marked, a live row of it can be seen again in some
      continuation exactly when a rotation was between its claim and its insert at that moment. */
  lemma MarkedFamilyRevivesOnlyThroughARotation(s: Server, h: HandlerId, now: Time)
    requires ChainInv(s) && h in s.handlers && s.handlers[h].Marking?
    ensures var f := s.handlers[h].familyId;
            var marked := Marked(s, h, now);
            (exists actions :: HasLiveRow(Run(marked, actions), f)) <==> RotationInFlight(s, f)
  {
    hide ChainInv, HasLiveRow, Run, Step, Enabled, MarkRows, Dead;
    var f := s.handlers[h].familyId;
    var marked := Marked(s, h, now);
    MarkedIsAStep(s, h, now);
    StepKeepsChains(s, MarkFamilyReuse(h, now));
    if RotationInFlight(s, f) {
      var g :| InFlight(s, g, f);
      assert InFlight(marked, g, f);
      var revival := RotationRevives(marked, g, f);
      assert exists actions :: HasLiveRow(Run(marked, actions), f);
    } else {
      MarkedIsDead(s, h, now);
      forall actions
        ensures !HasLiveRow(Run(marked, actions), f)
      {
        DeadHasNoLiveRow(marked, actions, f);
      }
    }
  }

  lemma DeadHasNoLiveRow(s: Server, actions: seq<Action>, f: RowId)
    requires ChainInv(s) && Dead(s, f)
    ensures !HasLiveRow(Run(s, actions), f)
  {
    hide ChainInv, Run;
    RunKeepsDead(s, actions, f);
    var t := Run(s, actions);
    if HasLiveRow(t, f) {
      HolderIfLive(t, f);
    }
  }

  lemma MarkedIsDead(s: Server, h: HandlerId, now: Time)
    requires ChainInv(s) && h in s.handlers && s.handlers[h].Marking?
    requires !RotationInFlight(s, s.handlers[h].familyId)
    ensures Dead(Marked(s, h, now), s.handlers[h].familyId)
  {
    hide IsChain;
    var f := s.handlers[h].familyId;
    var t := Marked(s, h, now);
    assert HandlerOk(s, s.handlers[h]);
    forall x | x in Holders(t)
      ensures FamilyOf(t, x) != f
    {
      if x.RotationHolder? {
        assert InFlight(s, x.h, FamilyOf(t, x));
      }
    }
  }

  lemma RotationRevives(s: Server, g: HandlerId, f: RowId) returns (actions: seq<Action>)
    requires InFlight(s, g, f)
    ensures HasLiveRow(Run(s, actions), f)
  {
    var tokens := set r | r in s.rows :: s.rows[r].token;
    var id := FreshNat(s.rows.Keys);
    var token := FreshNat(tokens);
    forall r | r in s.rows
      ensures s.rows[r].token != token
    {
      assert s.rows[r].token in tokens;
    }
    assert id !in s.rows;
    var insert := InsertSuccessor(g, id, token, 0);
    actions := [insert];
    var t := Step(s, insert);
    assert Run(s, actions) == Run(t, []) == t;
    assert t.rows[id].familyId == f && t.rows[id].Live();
  }

  /** The row a token selects is the one row that has it. */
  lemma TokenSelects(s: Server, r: RowId)
    requires ChainInv(s) && r in s.rows
    ensures RowOfToken(s.rows, s.rows[r].token) == Some(r)
  {
    hide IsChain, ChainsOk, HandlersOk, OneRotation, RowsListed;
  }

  lemma ThreeSteps(s: Server, a: Action, b: Action, c: Action)
    ensures Run(s, [a, b, c]) == Apply(Apply(Apply(s, a), b), c)
  {
    hide Apply;
    assert [a, b, c][1..] == [b, c];
    TwoSteps(Apply(s, a), b, c);
  }

  lemma TwoSteps(s: Server, a: Action, b: Action)
    ensures Run(s, [a, b]) == Apply(Apply(s, a), b)
  {
    hide Apply;
    assert [a, b][1..] == [b] && [b][1..] == [];
    assert Run(Apply(s, a), [b]) == Run(Apply(Apply(s, a), b), []);
  }

  /** What a presented token leads to: a claim, the family's mark, the row's revocation or a refusal. */
  lemma ReadDecidesExactly(rows: map<RowId, RefreshRow>, token: Token, appId: nat, authenticated: bool, now: Time)
    requires TokensDistinct(rows)
    ensures var handler := AfterRead(rows, RowOfToken(rows, token), appId, authenticated, now);
            && (handler == Answered(Refused) <==>
                  !authenticated || forall r :: r in rows ==> rows[r].token != token || rows[r].appId != appId)
            && (forall r :: r in rows && rows[r].token == token && rows[r].appId == appId && authenticated ==>
                  && (handler == Marking(rows[r].familyId) <==> !rows[r].Live())
                  && (handler == RevokingExpired(r) <==> rows[r].Live() && rows[r].expiresAt < now)
                  && (handler == Claiming(r, rows[r]) <==> rows[r].Live() && now <= rows[r].expiresAt))
  {
  }

  lemma ReadFinds(s: Server, r: RowId, h: HandlerId, now: Time)
    requires ChainInv(s) && r in s.rows && h !in s.handlers && (s.rows[r].Live() ==> now <= s.rows[r].expiresAt)
    ensures var row := s.rows[r];
            Apply(s, ReadRefresh(h, row.token, row.appId, true, now))
              == s.(handlers := s.handlers[h := if row.Live() then Claiming(r, row) else Marking(row.familyId)])
  {
    TokenSelects(s, r);
    hide ChainInv;
  }

  /** Undisturbed, presenting a live token in time rotates it: the successor carries the same grant and
      points back, the presented row is revoked, and no other row changes. */
  lemma LiveTokenIsRotated(s: Server, r: RowId, h: HandlerId, now: Time, newId: RowId, newToken: Token, expiresAt: Time)
    requires ChainInv(s) && r in s.rows && s.rows[r].Live() && now <= s.rows[r].expiresAt
    requires h !in s.handlers && FreshRow(s, newId, newToken)
    ensures var row := s.rows[r];
            var t := Run(s, [ReadRefresh(h, row.token, row.appId, true, now), Claim(h, now),
                             InsertSuccessor(h, newId, newToken, expiresAt)]);
            && t.handlers == s.handlers[h := Answered(Refreshed(newToken))]
            && t.rows == s.rows[r := row.(revokedAt := Some(now))]
                               [newId := RefreshRow(row.familyId, Some(r), row.userId, row.identityId, row.appId, row.scope,
                                                    newToken, expiresAt, None, None)]
  {
    hide ChainInv, CheckRequest, AfterRead, ConsumeStep, FinishStep, RevokeStep, MarkRows, CleanupStep,
         ReadCodeStep, DeleteCodeStep, Run;
    ReadFinds(s, r, h, now);
    var row := s.rows[r];
    ThreeSteps(s, ReadRefresh(h, row.token, row.appId, true, now), Claim(h, now),
               InsertSuccessor(h, newId, newToken, expiresAt));
    var read := s.(handlers := s.handlers[h := Claiming(r, row)]);
    var claimed := s.(rows := s.rows[r := row.(revokedAt := Some(now))], handlers := s.handlers[h := Inserting(r, row)]);
    assert Apply(read, Claim(h, now)) == claimed;
    InsertsSuccessor(claimed, h, r, row, newId, newToken, expiresAt);
  }

  lemma InsertsSuccessor(s: Server, h: HandlerId, r: RowId, row: RefreshRow, newId: RowId, newToken: Token, expiresAt: Time)
    requires h in s.handlers && s.handlers[h] == Inserting(r, row) && FreshRow(s, newId, newToken)
    ensures var t := Apply(s, InsertSuccessor(h, newId, newToken, expiresAt));
            && t.handlers == s.handlers[h := Answered(Refreshed(newToken))]
            && t.rows == s.rows[newId := RefreshRow(row.familyId, Some(r), row.userId, row.identityId, row.appId, row.scope,
                                                    newToken, expiresAt, None, None)]
  {
    hide CheckRequest, AfterRead, ClaimStep, ConsumeStep, FinishStep, RevokeStep, MarkRows, CleanupStep;
  }

  /** Presenting the token of a row that is not live marks its whole family, and no other row. */
  lemma ReplayMarksTheFamily(s: Server, r: RowId, h: HandlerId, now: Time)
    requires ChainInv(s) && r in s.rows && !s.rows[r].Live() && h !in s.handlers
    ensures var row := s.rows[r];
            var t := Run(s, [ReadRefresh(h, row.token, row.appId, true, now), MarkFamilyReuse(h, now)]);
            && t.handlers == s.handlers[h := Answered(Refused)] && !HasLiveRow(t, row.familyId)
            && t.rows.Keys == s.rows.Keys
            && forall q :: q in s.rows ==>
                 t.rows[q] == (if s.rows[q].familyId != row.familyId then s.rows[q]
                               else s.rows[q].(reuseDetectedAt := Some(now)))
  {
    hide ChainInv, CheckRequest, AfterRead, ClaimStep, InsertStep, ConsumeStep, FinishStep, RevokeStep, CleanupStep,
         Run;
    ReadFinds(s, r, h, now);
    var row := s.rows[r];
    TwoSteps(s, ReadRefresh(h, row.token, row.appId, true, now), MarkFamilyReuse(h, now));
    var read := s.(handlers := s.handlers[h := Marking(row.familyId)]);
    MarkedIsAStep(read, h, now);
    assert Apply(read, MarkFamilyReuse(h, now)) == Marked(read, h, now);
  }
}
