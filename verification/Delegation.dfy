/**
 * Connector grants: created and widened in routes/oauth/authorize.ts, revoked in
 * routes/oauth/account.ts and exchanged for delegated tokens in routes/oauth/token-exchange.ts.
 */
module Delegation {
  import opened Options
  import opened OauthScopes

  type GrantId = nat

  datatype Key = Key(userId: nat, identityId: nat, sourceAppId: nat, targetResourceId: nat)

  /** A row of oauth_delegation_grants; scope is the space-separated text. */
  datatype Grant = Grant(key: Key, scope: string, revoked: bool)

  /** A handler between its select and its write; a widening remembers the scope it read. */
  datatype Handler =
    | Creating(key: Key, requested: seq<string>)
    | Widening(key: Key, requested: seq<string>, id: GrantId, read: string)
    | Revoking(id: GrantId)

  type HandlerId = nat

  /** approved: what was requested and approved for a key since its last revocation. */
  datatype State = State(
    grants: map<GrantId, Grant>,
    approved: map<Key, set<string>>,
    handlers: map<HandlerId, Handler>)

  const INITIAL: State := State(map[], map[], map[])

  /** found is the grant the select of an approval answers with. */
  datatype Event =
    | BeginConnect(h: HandlerId, key: Key, requestedScope: string, allowed: seq<string>, found: Option<GrantId>)
    | FinishConnect(h: HandlerId, newId: GrantId)
    | BeginRevoke(h: HandlerId, id: GrantId, userId: nat)
    | FinishRevoke(h: HandlerId)

  function Elements(s: seq<string>): set<string> {
    set t | t in s
  }

  /** `Array.from(new Set(tokens))` */
  function Distinct(tokens: seq<string>): seq<string> {
    if tokens == [] then []
    else
      var before := Distinct(tokens[..|tokens| - 1]);
      if tokens[|tokens| - 1] in before then before else before + [tokens[|tokens| - 1]]
  }

  lemma {:induction false} DistinctKeepsElements(tokens: seq<string>)
    ensures Elements(Distinct(tokens)) == Elements(tokens)
    ensures forall i, j :: 0 <= i < j < |Distinct(tokens)| ==> Distinct(tokens)[i] != Distinct(tokens)[j]
  {
    if tokens != [] {
      var front, last := tokens[..|tokens| - 1], tokens[|tokens| - 1];
      DistinctKeepsElements(front);
      assert tokens == front + [last];
      assert forall t :: t in Distinct(front) <==> t in Elements(front);
    }
  }

  predicate AllIn(tokens: seq<string>, allowed: seq<string>) {
    forall i :: 0 <= i < |tokens| ==> tokens[i] in allowed
  }

  predicate ActiveFor(s: State, id: GrantId, key: Key) {
    id in s.grants && s.grants[id].key == key && !s.grants[id].revoked
  }

  /** select ... where the key matches and revoked_at is null limit 1 */
  ghost predicate Selects(s: State, key: Key, found: Option<GrantId>) {
    if found.Some? then ActiveFor(s, found.value, key) else forall id :: !ActiveFor(s, id, key)
  }

  /** The unrevoked grant of the key; there is one at most while the invariant holds. */
  ghost function ActiveGrant(s: State, key: Key): (r: Option<GrantId>)
    ensures Selects(s, key, r)
  {
    if id :| ActiveFor(s, id, key) then Some(id) else None
  }

  /** The scope a grant has after one more approval. */
  function MergedScope(scope: string, requested: seq<string>): string {
    Join(Distinct(ParseOAuthScopes(scope) + requested))
  }

  function ApprovedFor(s: State, key: Key): set<string> {
    if key in s.approved then s.approved[key] else {}
  }

  /** Handler ids and generated grant ids are new. */
  ghost predicate Enabled(s: State, e: Event) {
    match e
    case BeginConnect(h, key, _, _, found) => h !in s.handlers && Selects(s, key, found)
    case FinishConnect(h, newId) => h in s.handlers && !s.handlers[h].Revoking? && newId !in s.grants
    case BeginRevoke(h, _, _) => h !in s.handlers
    case FinishRevoke(h) => h in s.handlers && s.handlers[h].Revoking?
  }

  function BeginConnectStep(s: State, h: HandlerId, key: Key, requested: seq<string>, found: Option<GrantId>): State
    requires found.Some? ==> found.value in s.grants
  {
    s.(handlers := s.handlers[h := if found.None? then Creating(key, requested)
                                   else Widening(key, requested, found.value, s.grants[found.value].scope)])
  }

  /** The insert, or the update by id. */
  function Written(s: State, handler: Handler, newId: GrantId): map<GrantId, Grant>
    requires !handler.Revoking?
  {
    if handler.Creating? then s.grants[newId := Grant(handler.key, Join(handler.requested), false)]
    else if handler.id in s.grants then
      s.grants[handler.id := s.grants[handler.id].(scope := MergedScope(handler.read, handler.requested))]
    else s.grants
  }

  function FinishConnectStep(s: State, h: HandlerId, newId: GrantId): State
    requires h in s.handlers && !s.handlers[h].Revoking?
  {
    var key := s.handlers[h].key;
    State(Written(s, s.handlers[h], newId),
          s.approved[key := ApprovedFor(s, key) + Elements(s.handlers[h].requested)],
          s.handlers - {h})
  }

  /** The update sets the mark again if it is set already. */
  function FinishRevokeStep(s: State, h: HandlerId): State
    requires h in s.handlers && s.handlers[h].Revoking?
  {
    var id := s.handlers[h].id;
    if id in s.grants && !s.grants[id].revoked then
      State(s.grants[id := s.grants[id].(revoked := true)], s.approved - {s.grants[id].key}, s.handlers - {h})
    else s.(handlers := s.handlers - {h})
  }

  /** The scope of the delegated token, if one is issued; found is the grant the select answers with. */
  function ExchangeOutcome(s: State, found: Option<GrantId>, requestedScope: string, allowed: seq<string>): Option<string>
    requires found.Some? ==> found.value in s.grants
  {
    var requested := ParseOAuthScopes(requestedScope);
    if !AllIn(requested, allowed) || found.None? then None
    else if !AllIn(requested, ParseOAuthScopes(s.grants[found.value].scope)) then None
    else Some(Join(requested))
  }

  ghost function StepOnce(s: State, e: Event): State
    requires Enabled(s, e)
  {
    match e
    case BeginConnect(h, key, requestedScope, allowed, found) =>
      var requested := ParseOAuthScopes(requestedScope);
      if AllIn(requested, allowed) then BeginConnectStep(s, h, key, requested, found) else s
    case FinishConnect(h, newId) => FinishConnectStep(s, h, newId)
    case BeginRevoke(h, id, userId) =>
      if id in s.grants && s.grants[id].key.userId == userId && !s.grants[id].revoked
      then s.(handlers := s.handlers[h := Revoking(id)])
      else s
    case FinishRevoke(h) => FinishRevokeStep(s, h)
  }

  /** An event that cannot happen leaves the state alone, so every list of events is a run. */
  ghost function Step(s: State, e: Event): State {
    if Enabled(s, e) then StepOnce(s, e) else s
  }

  /** Scope texts without percent escapes. */
  predicate NoPercent(s: string) {
    forall i :: 0 <= i < |s| ==> s[i] != '%'
  }

  predicate Plain(e: Event) {
    e.BeginConnect? ==> NoPercent(e.requestedScope)
  }

  predicate AllPlain(events: seq<Event>) {
    forall i :: 0 <= i < |events| ==> Plain(events[i])
  }

  ghost function Run(s: State, events: seq<Event>): State
    decreases |events|
  {
    if events == [] then s else Run(Step(s, events[0]), events[1..])
  }

  ghost predicate OneActive(s: State) {
    forall id, other, key :: ActiveFor(s, id, key) && ActiveFor(s, other, key) ==> id == other
  }

  /** The stored text of an active grant reads back as what was approved since the last revocation. */
  predicate GrantOk(s: State, id: GrantId)
    requires id in s.grants
  {
    var g := s.grants[id];
    CleanTokens(ParseOAuthScopes(g.scope)) &&
    (!g.revoked ==> g.key in s.approved && Elements(ParseOAuthScopes(g.scope)) == s.approved[g.key])
  }

  predicate GrantsOk(s: State) {
    forall id :: id in s.grants ==> GrantOk(s, id)
  }

  ghost predicate ApprovedHasGrant(s: State) {
    forall key :: key in s.approved ==> exists id :: ActiveFor(s, id, key)
  }

  predicate HandlerOk(s: State, handler: Handler) {
    match handler
    case Creating(_, requested) => CleanTokens(requested)
    case Widening(key, requested, id, read) =>
      CleanTokens(requested) && CleanTokens(ParseOAuthScopes(read)) && id in s.grants && s.grants[id].key == key
    case Revoking(id) => id in s.grants
  }

  predicate HandlersOk(s: State) {
    forall h :: h in s.handlers ==> HandlerOk(s, s.handlers[h])
  }

  ghost predicate Inv(s: State) {
    OneActive(s) && GrantsOk(s) && ApprovedHasGrant(s) && HandlersOk(s)
  }

  /** What the key's active grant permits; nothing without one. */
  ghost function Permitted(s: State, key: Key): set<string> {
    var active := ActiveGrant(s, key);
    if active.None? then {} else Elements(ParseOAuthScopes(s.grants[active.value].scope))
  }

  /** The write of an approval still fits: none of the key's grants came, went or changed its scopes meanwhile in a
      way that the write does not allow for. */
  ghost predicate Fits(s: State, handler: Handler)
    requires !handler.Revoking?
  {
    match handler
    case Creating(key, _) => ActiveGrant(s, key).None?
    case Widening(key, requested, id, read) =>
      if ActiveFor(s, id, key) then
        Elements(ParseOAuthScopes(read)) + Elements(requested) == Permitted(s, key) + Elements(requested)
      else ActiveGrant(s, key).Some? && Elements(requested) <= Permitted(s, key)
  }

  ghost predicate Consistent(s: State, e: Event) {
    e.FinishConnect? && Enabled(s, e) ==> Fits(s, s.handlers[e.h])
  }

  lemma {:induction false} WordsHaveNoPercent(s: string, word: string)
    requires NoPercent(s) && NoPercent(word)
    ensures forall k :: 0 <= k < |Words(s, word)| ==> NoPercent(Words(s, word)[k])
    decreases |s|
  {
    if s != "" {
      if s[0] == '+' || IsSpace(s[0]) {
        WordsHaveNoPercent(s[1..], "");
      } else {
        WordsHaveNoPercent(s[1..], word + [s[0]]);
      }
    }
  }

  /** What is parsed from a plain text are clean tokens. */
  lemma ParsedAreClean(scope: string)
    requires NoPercent(scope)
    ensures CleanTokens(ParseOAuthScopes(scope))
  {
    hide Words;
    WordsAreTokens(scope, "");
    WordsHaveNoPercent(scope, "");
  }

  lemma MergedReadsBack(scope: string, requested: seq<string>)
    requires CleanTokens(ParseOAuthScopes(scope)) && CleanTokens(requested)
    ensures CleanTokens(ParseOAuthScopes(MergedScope(scope, requested)))
    ensures Elements(ParseOAuthScopes(MergedScope(scope, requested)))
         == Elements(ParseOAuthScopes(scope)) + Elements(requested)
  {
    hide CleanToken, ParseOAuthScopes, Join;
    var tokens := ParseOAuthScopes(scope) + requested;
    DistinctKeepsElements(tokens);
    assert Elements(tokens) == Elements(ParseOAuthScopes(scope)) + Elements(requested);
    forall i | 0 <= i < |Distinct(tokens)|
      ensures CleanToken(Distinct(tokens)[i])
    {
      assert Distinct(tokens)[i] in Elements(Distinct(tokens));
      assert Distinct(tokens)[i] in tokens;
    }
    ParseOfJoin(Distinct(tokens));
  }

  /** One grant of the key changed or came, and every other one is as before. */
  lemma TargetOnly(s: State, t: State, key: Key, target: GrantId)
    requires Inv(s) && target in t.grants && t.grants == s.grants[target := t.grants[target]]
    requires t.approved.Keys == s.approved.Keys + {key}
    requires forall k :: k in s.approved && k != key ==> t.approved[k] == s.approved[k]
    requires ActiveFor(t, target, key) && GrantOk(t, target)
    requires forall id :: ActiveFor(s, id, key) ==> id == target
    requires target in s.grants ==> ActiveFor(s, target, key)
    ensures OneActive(t) && GrantsOk(t) && ApprovedHasGrant(t)
  {
    hide CleanTokens, ParseOAuthScopes, Elements, HandlersOk;
    forall id, other, k | ActiveFor(t, id, k) && ActiveFor(t, other, k)
      ensures id == other
    {
      assert id != target ==> ActiveFor(s, id, k);
      assert other != target ==> ActiveFor(s, other, k);
    }
    forall id | id in t.grants
      ensures GrantOk(t, id)
    {
      if id != target {
        assert GrantOk(s, id);
        assert s.grants[id].key == key ==> !ActiveFor(s, id, key);
      }
    }
    forall k | k in t.approved
      ensures exists id :: ActiveFor(t, id, k)
    {
      if k != key {
        var id :| ActiveFor(s, id, k);
        assert ActiveFor(t, id, k);
      }
    }
  }

  /** The stored texts and the approvals since the last revocation say the same. */
  lemma PermittedIsApproved(s: State, key: Key)
    requires Inv(s)
    ensures Permitted(s, key) == ApprovedFor(s, key)
    ensures ActiveGrant(s, key).Some? <==> key in s.approved
  {
    hide CleanTokens, ParseOAuthScopes, Elements;
    var active := ActiveGrant(s, key);
    if active.Some? {
      assert GrantOk(s, active.value);
    }
  }

  lemma InitialInv()
    ensures Inv(INITIAL)
  {
  }

  lemma CreatingKeepsInvExactly(s: State, h: HandlerId, newId: GrantId)
    requires Inv(s) && Enabled(s, FinishConnect(h, newId)) && s.handlers[h].Creating?
    ensures Inv(FinishConnectStep(s, h, newId)) <==> Fits(s, s.handlers[h])
  {
    hide CleanTokens, ParseOAuthScopes, Join, MergedScope, Elements;
    var t := FinishConnectStep(s, h, newId);
    var key, requested := s.handlers[h].key, s.handlers[h].requested;
    var active := ActiveGrant(s, key);
    assert ActiveFor(t, newId, key) && HandlerOk(s, s.handlers[h]);
    assert HandlersOk(t) by { HandlersStayOk(s, t, h); }
    if active.None? {
      ParseOfJoin(requested);
      assert key !in s.approved;
      TargetOnly(s, t, key, newId) by { hide HandlersOk; }
    } else {
      assert ActiveFor(t, active.value, key) && active.value != newId;
    }
  }

  lemma HandlersStayOk(s: State, t: State, h: HandlerId)
    requires HandlersOk(s) && t.handlers == s.handlers - {h}
    requires forall id :: id in s.grants ==> id in t.grants && t.grants[id].key == s.grants[id].key
    ensures HandlersOk(t)
  {
    hide CleanTokens, ParseOAuthScopes;
    forall g | g in t.handlers ensures HandlerOk(t, t.handlers[g]) {
      assert HandlerOk(s, s.handlers[g]);
    }
  }

  lemma WideningKeepsInvExactly(s: State, h: HandlerId, newId: GrantId)
    requires Inv(s) && Enabled(s, FinishConnect(h, newId)) && s.handlers[h].Widening?
    requires ActiveFor(s, s.handlers[h].id, s.handlers[h].key)
    ensures Inv(FinishConnectStep(s, h, newId)) <==> Fits(s, s.handlers[h])
  {
    hide CleanTokens, ParseOAuthScopes, Join, MergedScope, Elements;
    var t := FinishConnectStep(s, h, newId);
    var handler := s.handlers[h];
    var key, id := handler.key, handler.id;
    assert ActiveFor(t, id, key) && HandlerOk(s, handler);
    HandlersStayOk(s, t, h);
    MergedReadsBack(handler.read, handler.requested);
    PermittedIsApproved(s, key);
    assert ActiveGrant(s, key) == Some(id);
    assert GrantOk(t, id) <==> Fits(s, handler);
    if Fits(s, handler) {
      TargetOnly(s, t, key, id) by { hide HandlersOk; }
    }
  }

  lemma StaleKeepsInvExactly(s: State, h: HandlerId, newId: GrantId)
    requires Inv(s) && Enabled(s, FinishConnect(h, newId)) && s.handlers[h].Widening?
    requires !ActiveFor(s, s.handlers[h].id, s.handlers[h].key)
    ensures Inv(FinishConnectStep(s, h, newId)) <==> Fits(s, s.handlers[h])
  {
    hide CleanTokens, ParseOAuthScopes, Join, MergedScope, Elements;
    var t := FinishConnectStep(s, h, newId);
    var handler := s.handlers[h];
    var key, id := handler.key, handler.id;
    assert HandlerOk(s, handler);
    HandlersStayOk(s, t, h);
    MergedReadsBack(handler.read, handler.requested);
    PermittedIsApproved(s, key);
    var active := ActiveGrant(s, key);
    assert forall x, k :: ActiveFor(t, x, k) <==> ActiveFor(s, x, k);
    if active.None? {
      assert key in t.approved && forall x :: !ActiveFor(t, x, key);
    } else if Fits(s, handler) {
      assert s.approved[key] + Elements(handler.requested) == s.approved[key];
      assert t.approved == s.approved;
      assert GrantOk(t, id) by { assert GrantOk(s, id); }
      forall x | x in t.grants ensures GrantOk(t, x) {
        assert GrantOk(s, x);
      }
      forall k | k in t.approved ensures exists x :: ActiveFor(t, x, k) {
        var x :| ActiveFor(s, x, k);
        assert ActiveFor(t, x, k);
      }
    } else {
      assert active.value in t.grants && t.grants[active.value] == s.grants[active.value];
      assert GrantOk(s, active.value) && !GrantOk(t, active.value);
    }
  }

  lemma RevokeKeepsInv(s: State, h: HandlerId)
    requires Inv(s) && Enabled(s, FinishRevoke(h))
    ensures Inv(FinishRevokeStep(s, h))
  {
    hide CleanTokens, ParseOAuthScopes, Elements;
    var t := FinishRevokeStep(s, h);
    var id := s.handlers[h].id;
    HandlersStayOk(s, t, h);
    forall a, b, k | ActiveFor(t, a, k) && ActiveFor(t, b, k)
      ensures a == b
    {
      assert ActiveFor(s, a, k) && ActiveFor(s, b, k);
    }
    forall a | a in t.grants
      ensures GrantOk(t, a)
    {
      assert GrantOk(s, a);
      assert a != id && id in s.grants && !s.grants[id].revoked && !s.grants[a].revoked
             && s.grants[a].key == s.grants[id].key ==>
        ActiveFor(s, a, s.grants[id].key) && ActiveFor(s, id, s.grants[id].key);
    }
    forall k | k in t.approved
      ensures exists a :: ActiveFor(t, a, k)
    {
      var a :| ActiveFor(s, a, k);
      assert ActiveFor(t, a, k);
    }
  }

  lemma BeginKeepsInv(s: State, e: Event)
    requires Inv(s) && Plain(e) && Enabled(s, e) && (e.BeginConnect? || e.BeginRevoke?)
    ensures Inv(StepOnce(s, e))
  {
    hide ParseOAuthScopes, CleanTokens, NoPercent, AllIn, Elements;
    var t := StepOnce(s, e);
    assert t.grants == s.grants && t.approved == s.approved;
    if e.BeginConnect? {
      ParsedAreClean(e.requestedScope);
      assert e.found.Some? ==> GrantOk(s, e.found.value);
    }
    assert forall x, k :: ActiveFor(t, x, k) <==> ActiveFor(s, x, k);
    forall x | x in t.grants ensures GrantOk(t, x) {
      assert GrantOk(s, x);
    }
    forall g | g in t.handlers ensures HandlerOk(t, t.handlers[g]) {
      assert g in s.handlers ==> HandlerOk(s, s.handlers[g]);
    }
    forall k | k in t.approved ensures exists x :: ActiveFor(t, x, k) {
      var x :| ActiveFor(s, x, k);
      assert ActiveFor(t, x, k);
    }
  }

  /** A statement keeps the invariant exactly when it is not a write that no longer fits. */
  lemma StepKeepsInvExactly(s: State, e: Event)
    requires Inv(s) && Plain(e)
    ensures Inv(Step(s, e)) <==> Consistent(s, e)
  {
    hide Inv, FinishConnectStep, FinishRevokeStep, Fits, Plain;
    if Enabled(s, e) {
      match e
      case FinishConnect(h, newId) =>
        if s.handlers[h].Creating? {
          CreatingKeepsInvExactly(s, h, newId);
        } else if ActiveFor(s, s.handlers[h].id, s.handlers[h].key) {
          WideningKeepsInvExactly(s, h, newId);
        } else {
          StaleKeepsInvExactly(s, h, newId);
        }
      case FinishRevoke(h) => RevokeKeepsInv(s, h);
      case _ => BeginKeepsInv(s, e);
    }
  }

  ghost predicate InvThroughout(s: State, events: seq<Event>)
    decreases |events|
  {
    Inv(s) && (events == [] || InvThroughout(Step(s, events[0]), events[1..]))
  }

  ghost predicate ConsistentRun(s: State, events: seq<Event>)
    decreases |events|
  {
    events == [] || (Consistent(s, events[0]) && ConsistentRun(Step(s, events[0]), events[1..]))
  }

  /** A run keeps the invariant throughout exactly when every write of an approval fits what it finds. */
  lemma {:induction false} InvThroughoutExactly(s: State, events: seq<Event>)
    requires Inv(s) && AllPlain(events)
    ensures InvThroughout(s, events) <==> ConsistentRun(s, events)
    ensures ConsistentRun(s, events) ==> Inv(Run(s, events))
    decreases |events|
  {
    hide Inv, Step, Plain, Consistent;
    if events != [] {
      StepKeepsInvExactly(s, events[0]);
      if Inv(Step(s, events[0])) {
        InvThroughoutExactly(Step(s, events[0]), events[1..]);
      }
    }
  }

  /** In every such run a key has at most one unrevoked grant, and it permits exactly what was approved for the
      key since its last revocation. */
  lemma OneGrantPerKey(events: seq<Event>, key: Key)
    requires AllPlain(events) && ConsistentRun(INITIAL, events)
    ensures var s := Run(INITIAL, events);
            && (forall id, other :: ActiveFor(s, id, key) && ActiveFor(s, other, key) ==> id == other)
            && Permitted(s, key) == ApprovedFor(s, key)
  {
    hide Run, GrantsOk, ApprovedHasGrant, HandlersOk, ConsistentRun;
    InitialInv();
    InvThroughoutExactly(INITIAL, events);
    PermittedIsApproved(Run(INITIAL, events), key);
  }

  /** A revocation of the key's grant. */
  ghost predicate Revokes(s: State, e: Event, key: Key) {
    e.FinishRevoke? && Enabled(s, e) && ActiveFor(s, s.handlers[e.h].id, key)
  }

  ghost predicate NeverRevokes(s: State, events: seq<Event>, key: Key)
    decreases |events|
  {
    events == [] || (!Revokes(s, events[0], key) && NeverRevokes(Step(s, events[0]), events[1..], key))
  }

  lemma StepOnlyGrows(s: State, e: Event, key: Key)
    requires !Revokes(s, e, key)
    ensures ApprovedFor(s, key) <= ApprovedFor(Step(s, e), key)
  {
    hide ParseOAuthScopes, Elements;
  }

  /** Without a revocation of its grant, what a key permits only grows. */
  lemma {:induction false} ScopeOnlyGrows(s: State, events: seq<Event>, key: Key)
    requires Inv(s) && AllPlain(events) && ConsistentRun(s, events) && NeverRevokes(s, events, key)
    ensures Permitted(s, key) <= Permitted(Run(s, events), key)
    decreases |events|
  {
    hide Inv, Step, Plain, Revokes, Permitted, Consistent;
    if events != [] {
      var t := Step(s, events[0]);
      StepKeepsInvExactly(s, events[0]);
      StepOnlyGrows(s, events[0], key);
      PermittedIsApproved(s, key);
      PermittedIsApproved(t, key);
      ScopeOnlyGrows(t, events[1..], key);
    }
  }

  /** A delegated token is issued exactly when the key has an unrevoked grant and every requested scope is
      one the resource offers and one approved since the last revocation; it then carries those scopes. */
  lemma ExchangedExactly(events: seq<Event>, key: Key, found: Option<GrantId>, requestedScope: string, allowed: seq<string>)
    requires AllPlain(events) && ConsistentRun(INITIAL, events) && NoPercent(requestedScope)
    requires Selects(Run(INITIAL, events), key, found)
    ensures var s := Run(INITIAL, events);
            var requested := ParseOAuthScopes(requestedScope);
            var outcome := ExchangeOutcome(s, found, requestedScope, allowed);
            && (outcome.Some? <==>
                  key in s.approved && Elements(requested) <= s.approved[key] && Elements(requested) <= Elements(allowed))
            && (outcome.Some? ==> ParseOAuthScopes(outcome.value) == requested)
  {
    var s := Run(INITIAL, events);
    var requested := ParseOAuthScopes(requestedScope);
    hide Run, ParseOAuthScopes, Join, CleanTokens, ConsistentRun;
    InitialInv();
    InvThroughoutExactly(INITIAL, events);
    assert found == ActiveGrant(s, key) by { OnlyOneIsFound(s, key, found); }
    hide Inv, NoPercent;
    PermittedIsApproved(s, key);
    ParsedAreClean(requestedScope);
    ParseOfJoin(requested);
    AllInMeansSubset(requested, allowed);
    if found.Some? {
      AllInMeansSubset(requested, ParseOAuthScopes(s.grants[found.value].scope));
    }
  }

  lemma OnlyOneIsFound(s: State, key: Key, found: Option<GrantId>)
    requires OneActive(s) && Selects(s, key, found)
    ensures found == ActiveGrant(s, key)
  {
    var active := ActiveGrant(s, key);
    assert active.Some? ==> ActiveFor(s, active.value, key);
    assert found.Some? ==> ActiveFor(s, found.value, key);
  }

  lemma AllInMeansSubset(tokens: seq<string>, allowed: seq<string>)
    ensures AllIn(tokens, allowed) <==> Elements(tokens) <= Elements(allowed)
  {
    if Elements(tokens) <= Elements(allowed) {
      forall i | 0 <= i < |tokens|
        ensures tokens[i] in allowed
      {
        assert tokens[i] in Elements(tokens);
      }
    }
  }

  /** The table of grants and the handlers that change and read it; every method is one statement. */
  class Grants {
    var grants: map<GrantId, Grant>
    var handlers: map<HandlerId, Handler>
    ghost var approved: map<Key, set<string>>

    ghost function Current(): State
      reads this
    {
      State(grants, approved, handlers)
    }

    constructor ()
      ensures Current() == INITIAL && Inv(Current())
    {
      grants, approved, handlers := map[], map[], map[];
      new;
      InitialInv();
    }

    method FindActive(key: Key) returns (found: Option<GrantId>)
      ensures Selects(Current(), key, found)
    {
      var ids := grants.Keys;
      while ids != {}
        invariant ids <= grants.Keys
        invariant forall id :: ActiveFor(Current(), id, key) ==> id in ids
        decreases |ids|
      {
        var id :| id in ids;
        if grants[id].key == key && !grants[id].revoked {
          assert ActiveFor(Current(), id, key);
          return Some(id);
        }
        ids := ids - {id};
      }
      return None;
    }

    /** The connector part of POST /authorize up to its write: false if a scope is not offered by the resource. */
    method SelectGrant(h: HandlerId, key: Key, requestedScope: string, allowed: seq<string>)
      returns (ok: bool, ghost found: Option<GrantId>)
      requires h !in handlers
      modifies this`handlers
      ensures Selects(old(Current()), key, found)
      ensures Current() == StepOnce(old(Current()), BeginConnect(h, key, requestedScope, allowed, found))
      ensures ok <==> AllIn(ParseOAuthScopes(requestedScope), allowed)
    {
      hide ParseOAuthScopes;
      var requested := ParseOAuthScopes(requestedScope);
      var existing := FindActive(key);
      found := existing;
      ok := AllIn(requested, allowed);
      if ok {
        if existing.None? {
          handlers := handlers[h := Creating(key, requested)];
        } else {
          handlers := handlers[h := Widening(key, requested, existing.value, grants[existing.value].scope)];
        }
      }
    }

    method WriteGrant(h: HandlerId, newId: GrantId)
      requires h in handlers && !handlers[h].Revoking? && newId !in grants
      modifies this
      ensures Current() == StepOnce(old(Current()), FinishConnect(h, newId))
    {
      hide Join, MergedScope, Elements;
      var handler := handlers[h];
      approved := approved[handler.key := ApprovedFor(Current(), handler.key) + Elements(handler.requested)];
      if handler.Creating? {
        grants := grants[newId := Grant(handler.key, Join(handler.requested), false)];
      } else if handler.id in grants {
        grants := grants[handler.id := grants[handler.id].(scope := MergedScope(handler.read, handler.requested))];
      }
      handlers := handlers - {h};
    }

    /** DELETE /delegations/:delegationId: the select */
    method SelectDelegation(h: HandlerId, id: GrantId, userId: nat) returns (found: bool)
      requires h !in handlers
      modifies this`handlers
      ensures Current() == StepOnce(old(Current()), BeginRevoke(h, id, userId))
      ensures found <==> id in grants && grants[id].key.userId == userId && !grants[id].revoked
    {
      found := id in grants && grants[id].key.userId == userId && !grants[id].revoked;
      if found {
        handlers := handlers[h := Revoking(id)];
      }
    }

    method RevokeDelegation(h: HandlerId)
      requires h in handlers && handlers[h].Revoking?
      modifies this
      ensures Current() == StepOnce(old(Current()), FinishRevoke(h))
    {
      var id := handlers[h].id;
      if id in grants {
        if !grants[id].revoked {
          approved := approved - {grants[id].key};
        }
        grants := grants[id := grants[id].(revoked := true)];
      }
      handlers := handlers - {h};
      assert old(id in grants && grants[id].revoked) ==> grants == old(grants);
    }

    /** The grant checks of the token exchange, for a subject token that was accepted. */
    method ExchangeToken(key: Key, requestedScope: string, allowed: seq<string>)
      returns (scope: Option<string>, ghost found: Option<GrantId>)
      ensures Selects(Current(), key, found)
      ensures scope == ExchangeOutcome(Current(), found, requestedScope, allowed)
    {
      hide ParseOAuthScopes, Join;
      var requested := ParseOAuthScopes(requestedScope);
      var grant := FindActive(key);
      found := grant;
      if !AllIn(requested, allowed) || grant.None? || !AllIn(requested, ParseOAuthScopes(grants[grant.value].scope)) {
        return None, found;
      }
      return Some(Join(requested)), found;
    }
  }

  /** The two statements of an approval, with nothing in between. */
  ghost function Connected(s: State, h: HandlerId, key: Key, requestedScope: string, allowed: seq<string>,
                           newId: GrantId): State
  {
    Step(Step(s, BeginConnect(h, key, requestedScope, allowed, ActiveGrant(s, key))), FinishConnect(h, newId))
  }

  lemma FreshWriteFits(s: State, h: HandlerId, key: Key, requestedScope: string, allowed: seq<string>)
    requires Inv(s) && h !in s.handlers && AllIn(ParseOAuthScopes(requestedScope), allowed)
    ensures var next := Step(s, BeginConnect(h, key, requestedScope, allowed, ActiveGrant(s, key)));
            && h in next.handlers && !next.handlers[h].Revoking? && next.handlers[h].key == key
            && next.handlers[h].requested == ParseOAuthScopes(requestedScope) && Fits(next, next.handlers[h])
  {
    hide ParseOAuthScopes, Elements, AllIn, GrantsOk, ApprovedHasGrant, HandlersOk;
    var active := ActiveGrant(s, key);
    var next := Step(s, BeginConnect(h, key, requestedScope, allowed, active));
    assert next.grants == s.grants && forall id, k :: ActiveFor(next, id, k) <==> ActiveFor(s, id, k);
    OnlyOneIsFound(next, key, active);
  }

  /** An undisturbed approval that the resource allows adds exactly the requested scopes to what its key permits;
      one that asks for more changes nothing; no other key is touched. */
  lemma ConnectPermitsExactly(s: State, h: HandlerId, key: Key, requestedScope: string, allowed: seq<string>,
                              newId: GrantId, other: Key)
    requires Inv(s) && NoPercent(requestedScope) && h !in s.handlers && newId !in s.grants
    ensures var requested := ParseOAuthScopes(requestedScope);
            var t := Connected(s, h, key, requestedScope, allowed, newId);
            && Inv(t)
            && Permitted(t, other)
               == Permitted(s, other) + if other == key && AllIn(requested, allowed) then Elements(requested) else {}
  {
    var requested := ParseOAuthScopes(requestedScope);
    var begin := BeginConnect(h, key, requestedScope, allowed, ActiveGrant(s, key));
    var next := Step(s, begin);
    hide ParseOAuthScopes, Elements, AllIn, NoPercent, CleanTokens, Join, MergedScope, Distinct;
    StepKeepsInvExactly(s, begin);
    StepKeepsInvExactly(next, FinishConnect(h, newId));
    if AllIn(requested, allowed) {
      FreshWriteFits(s, h, key, requestedScope, allowed);
    }
    PermittedIsApproved(s, other);
    PermittedIsApproved(Step(next, FinishConnect(h, newId)), other);
    hide Inv, Permitted, Consistent;
  }

  /** Whoever revokes a grant leaves its key nothing, and every other key what it had. */
  lemma RevokePermitsNothing(s: State, h: HandlerId, other: Key)
    requires Inv(s) && Enabled(s, FinishRevoke(h)) && !s.grants[s.handlers[h].id].revoked
    ensures var key := s.grants[s.handlers[h].id].key;
            Permitted(Step(s, FinishRevoke(h)), other) == if other == key then {} else Permitted(s, other)
  {
    hide Permitted;
    StepKeepsInvExactly(s, FinishRevoke(h));
    PermittedIsApproved(s, other);
    PermittedIsApproved(Step(s, FinishRevoke(h)), other);
    hide Inv;
  }

  /** Undisturbed, a user's revocation takes exactly the user's own unrevoked grant out of force; of a grant that is
      somebody else's, revoked or missing, it changes nothing. */
  lemma RevokesExactly(s: State, h: HandlerId, id: GrantId, userId: nat, other: Key)
    requires Inv(s) && h !in s.handlers
    ensures var t := Run(s, [BeginRevoke(h, id, userId), FinishRevoke(h)]);
            var may := id in s.grants && s.grants[id].key.userId == userId && !s.grants[id].revoked;
            && t.handlers == s.handlers
            && t.grants == (if may then s.grants[id := s.grants[id].(revoked := true)] else s.grants)
            && Permitted(t, other) == if may && other == s.grants[id].key then {} else Permitted(s, other)
  {
    var begin, finish := BeginRevoke(h, id, userId), FinishRevoke(h);
    RunTwo(s, begin, finish);
    var begun := s.(handlers := s.handlers[h := Revoking(id)]);
    if id in s.grants && s.grants[id].key.userId == userId && !s.grants[id].revoked {
      assert Step(s, begin) == begun;
      assert begun.handlers - {h} == s.handlers;
      StepKeepsInvExactly(s, begin);
      SamePermissions(s, begun, other) by { hide Inv; }
      hide Permitted, Inv, Run;
      RevokePermitsNothing(begun, h, other);
    } else {
      assert Step(s, begin) == s && Step(s, finish) == s;
    }
  }

  lemma RunTwo(s: State, a: Event, b: Event)
    ensures Run(s, [a, b]) == Step(Step(s, a), b)
  {
    hide Step;
    assert [a, b][1..] == [b] && [b][1..] == [];
    assert Run(Step(s, a), [b]) == Run(Step(Step(s, a), b), []);
  }

  lemma SamePermissions(s: State, t: State, key: Key)
    requires t.grants == s.grants && OneActive(s)
    ensures Permitted(t, key) == Permitted(s, key)
  {
    hide ParseOAuthScopes, Elements;
    assert forall id :: ActiveFor(t, id, key) <==> ActiveFor(s, id, key);
    var active := ActiveGrant(t, key);
    OnlyOneIsFound(s, key, active);
  }

  ghost function FourSteps(s: State, a: Event, b: Event, c: Event, d: Event): State {
    Step(Step(Step(Step(s, a), b), c), d)
  }

  /** Two approvals of a key without a grant both find none, and both insert one. */
  lemma TwoApprovalsDivideTheKey(key: Key, scope: string)
    requires CleanToken(scope)
    ensures var s := FourSteps(INITIAL, BeginConnect(0, key, scope, [scope], None),
                               BeginConnect(1, key, scope, [scope], None), FinishConnect(0, 0), FinishConnect(1, 1));
            ActiveFor(s, 0, key) && ActiveFor(s, 1, key)
  {
    assert ParseOAuthScopes(scope) == [scope] by { ParseOfJoin([scope]); }
    hide CleanToken, ParseOAuthScopes, Join;
    var one := State(map[], map[], map[0 := Creating(key, [scope])]);
    var two := State(map[], map[], map[0 := Creating(key, [scope]), 1 := Creating(key, [scope])]);
    assert forall id :: !ActiveFor(INITIAL, id, key) && !ActiveFor(one, id, key);
    assert Step(INITIAL, BeginConnect(0, key, scope, [scope], None)) == one;
    assert Step(one, BeginConnect(1, key, scope, [scope], None)) == two;
  }

  /** One grant of the key, and handlers at work on it. */
  function Alone(id: GrantId, key: Key, scope: string, approved: set<string>, handlers: map<HandlerId, Handler>): State {
    State(map[id := Grant(key, scope, false)], map[key := approved], handlers)
  }

  lemma WideningReads(id: GrantId, key: Key, read: string, approved: set<string>, handlers: map<HandlerId, Handler>,
                      h: HandlerId, scope: string)
    requires ParseOAuthScopes(scope) == [scope] && h !in handlers
    ensures Step(Alone(id, key, read, approved, handlers), BeginConnect(h, key, scope, [scope], Some(id)))
         == Alone(id, key, read, approved, handlers[h := Widening(key, [scope], id, read)])
  {
    hide ParseOAuthScopes;
    assert ActiveFor(Alone(id, key, read, approved, handlers), id, key);
  }

  lemma WideningWrites(id: GrantId, key: Key, read: string, now: string, approved: set<string>,
                       handlers: map<HandlerId, Handler>, h: HandlerId, scope: string)
    requires h in handlers && handlers[h] == Widening(key, [scope], id, read)
    ensures Step(Alone(id, key, now, approved, handlers), FinishConnect(h, id + 1))
         == Alone(id, key, MergedScope(read, [scope]), approved + Elements([scope]), handlers - {h})
  {
    hide MergedScope, Elements;
  }

  lemma AloneIsOk(id: GrantId, key: Key, read: string)
    requires CleanTokens(ParseOAuthScopes(read))
    ensures Inv(Alone(id, key, read, Elements(ParseOAuthScopes(read)), map[]))
  {
    hide ParseOAuthScopes, Elements, CleanTokens;
    assert ActiveFor(Alone(id, key, read, Elements(ParseOAuthScopes(read)), map[]), id, key);
  }

  /** Both read, then both write. */
  ghost function BothWiden(s: State, id: GrantId, key: Key, scope: string, other: string): State {
    FourSteps(s, BeginConnect(0, key, scope, [scope], Some(id)), BeginConnect(1, key, other, [other], Some(id)),
              FinishConnect(0, id + 1), FinishConnect(1, id + 1))
  }

  lemma WideningsOverlap(id: GrantId, key: Key, read: string, approved: set<string>, scope: string, other: string)
    requires ParseOAuthScopes(scope) == [scope] && ParseOAuthScopes(other) == [other]
    ensures BothWiden(Alone(id, key, read, approved, map[]), id, key, scope, other)
         == Alone(id, key, MergedScope(read, [other]), approved + Elements([scope]) + Elements([other]), map[])
  {
    hide ParseOAuthScopes, MergedScope, Step, Elements, Alone;
    var one, two := Widening(key, [scope], id, read), Widening(key, [other], id, read);
    WideningReads(id, key, read, approved, map[], 0, scope);
    WideningReads(id, key, read, approved, map[0 := one], 1, other);
    var both := map[0 := one][1 := two];
    WideningWrites(id, key, read, read, approved, both, 0, scope);
    WideningWrites(id, key, read, MergedScope(read, [scope]), approved + Elements([scope]), both - {0}, 1, other);
    assert both - {0} - {1} == map[];
    assert map[][0 := one] == map[0 := one];
  }

  /** Two approvals that widen the same reading of a grant: the later write drops what the earlier one added. */
  lemma LaterWriteDropsAScope(id: GrantId, key: Key, read: string, scope: string, other: string)
    requires CleanTokens(ParseOAuthScopes(read)) && CleanToken(scope) && CleanToken(other)
    requires scope !in ParseOAuthScopes(read) && scope != other
    ensures var s := Alone(id, key, read, Elements(ParseOAuthScopes(read)), map[]);
            var t := BothWiden(s, id, key, scope, other);
            && Inv(s) && ActiveFor(t, id, key) && scope in ApprovedFor(t, key)
            && scope !in ParseOAuthScopes(t.grants[id].scope) && other in ParseOAuthScopes(t.grants[id].scope)
  {
    AloneIsOk(id, key, read);
    ParseOfJoin([scope]);
    ParseOfJoin([other]);
    MergedReadsBack(read, [other]);
    assert other in Elements([other]) && scope in Elements([scope]);
    assert scope !in Elements(ParseOAuthScopes(MergedScope(read, [other])));
    hide ParseOAuthScopes, MergedScope, BothWiden, CleanToken, CleanTokens, Inv;
    WideningsOverlap(id, key, read, Elements(ParseOAuthScopes(read)), scope, other);
  }
}
