/**
 * Organization keyrings and the key grants to members: routes/business-keys.ts, with
 * member removal from routes/business.ts and (re)joining from routes/organizations.ts.
 * Every database statement is one event; handlers interleave between their statements.
 */
module OrgKeys {
  import opened Options

  type OrgId = nat
  type IdentityId = nat
  type KeyringId = nat
  type GrantId = nat
  type HandlerId = nat

  datatype Mode = Standard | E2ee | EnterpriseManaged

  datatype Keyring = Keyring(org: OrgId, mode: Mode, epoch: nat, rotatedFrom: Option<KeyringId>, active: bool)

  datatype Grant = Grant(org: OrgId, keyring: KeyringId, identity: IdentityId, active: bool)

  /** A grant as requested; keysOk says whether its three key texts passed their checks. */
  datatype Target = Target(id: GrantId, identity: IdentityId, keysOk: bool)

  /** A handler names its next statement. Creating and Rotating have validated their targets; Revoking has retired
      the keyring, Succeeding has revoked its grants; Granting has inserted the new keyring; Removing has removed
      the member. */
  datatype Handler =
    | Creating(org: OrgId, mode: Mode, targets: seq<Target>)
    | Rotating(keyring: KeyringId, current: Keyring, targets: seq<Target>)
    | Revoking(keyring: KeyringId, current: Keyring, targets: seq<Target>)
    | Succeeding(keyring: KeyringId, current: Keyring, targets: seq<Target>)
    | Granting(org: OrgId, keyring: KeyringId, targets: seq<Target>)
    | Removing(org: OrgId, identity: IdentityId)

  /** members: whether the identity is an active member; a pair of organization and identity has one row. */
  datatype State = State(
    members: map<(OrgId, IdentityId), bool>,
    keyrings: map<KeyringId, Keyring>,
    grants: map<GrantId, Grant>,
    handlers: map<HandlerId, Handler>)

  const INITIAL: State := State(map[], map[], map[], map[])

  datatype Event =
    | AddMember(org: OrgId, identity: IdentityId)
    | BeginRemove(h: HandlerId, org: OrgId, identity: IdentityId)
    | FinishRemove(h: HandlerId)
    | BeginCreate(h: HandlerId, org: OrgId, mode: Mode, kmsReady: bool, targets: seq<Target>)
    | BeginRotate(h: HandlerId, org: OrgId, keyring: KeyringId, targets: seq<Target>)
    | RetireKeyring(h: HandlerId)
    | RevokeGrants(h: HandlerId)
    | InsertKeyring(h: HandlerId, newId: KeyringId)
    | InsertKeyGrants(h: HandlerId)
    | Stop(h: HandlerId)

  predicate IsActiveMember(s: State, org: OrgId, identity: IdentityId) {
    (org, identity) in s.members && s.members[(org, identity)]
  }

  /** validateGrantTargets */
  predicate ValidTargets(s: State, org: OrgId, targets: seq<Target>) {
    forall i :: 0 <= i < |targets| ==> targets[i].keysOk && IsActiveMember(s, org, targets[i].identity)
  }

  /** Ids of new rows are new. */
  predicate FreshTargets(s: State, targets: seq<Target>) {
    && (forall i :: 0 <= i < |targets| ==> targets[i].id !in s.grants)
    && (forall i, j :: 0 <= i < j < |targets| ==> targets[i].id != targets[j].id)
  }

  function InsertGrants(grants: map<GrantId, Grant>, org: OrgId, keyring: KeyringId, targets: seq<Target>)
    : map<GrantId, Grant>
    decreases |targets|
  {
    if targets == [] then grants
    else InsertGrants(grants[targets[0].id := Grant(org, keyring, targets[0].identity, true)], org, keyring, targets[1..])
  }

  predicate DistinctIdentities(targets: seq<Target>) {
    forall i, j :: 0 <= i < j < |targets| ==> targets[i].identity != targets[j].identity
  }

  /** The unique index on keyring and identity admits the rows, whatever their status. */
  predicate IndexAdmits(grants: map<GrantId, Grant>, keyring: KeyringId, targets: seq<Target>) {
    && DistinctIdentities(targets)
    && forall g, i :: g in grants && 0 <= i < |targets| ==>
         grants[g].keyring != keyring || grants[g].identity != targets[i].identity
  }

  function RevokeMemberGrants(grants: map<GrantId, Grant>, org: OrgId, identity: IdentityId): map<GrantId, Grant> {
    map g | g in grants ::
      if grants[g].org == org && grants[g].identity == identity then grants[g].(active := false) else grants[g]
  }

  function RevokeKeyringGrants(grants: map<GrantId, Grant>, keyring: KeyringId): map<GrantId, Grant> {
    map g | g in grants :: if grants[g].keyring == keyring then grants[g].(active := false) else grants[g]
  }

  predicate CanCreate(s: State, org: OrgId, mode: Mode, kmsReady: bool, targets: seq<Target>) {
    && (mode.E2ee? ==> targets != [])
    && (mode.EnterpriseManaged? ==> kmsReady)
    && ValidTargets(s, org, targets)
  }

  /** The status of the keyring is not looked at: a rotated keyring can be rotated again. */
  predicate CanRotate(s: State, org: OrgId, keyring: KeyringId, targets: seq<Target>) {
    && keyring in s.keyrings && s.keyrings[keyring].org == org
    && (s.keyrings[keyring].mode.E2ee? ==> targets != [])
    && ValidTargets(s, org, targets)
  }

  predicate Enabled(s: State, e: Event) {
    match e
    case AddMember(_, _) => true
    case BeginRemove(h, org, identity) => h !in s.handlers && (org, identity) in s.members
    case FinishRemove(h) => h in s.handlers && s.handlers[h].Removing?
    case BeginCreate(h, _, _, _, _) => h !in s.handlers
    case BeginRotate(h, _, _, _) => h !in s.handlers
    case RetireKeyring(h) => h in s.handlers && s.handlers[h].Rotating? && s.handlers[h].keyring in s.keyrings
    case RevokeGrants(h) => h in s.handlers && s.handlers[h].Revoking?
    case InsertKeyring(h, newId) =>
      h in s.handlers && (s.handlers[h].Creating? || s.handlers[h].Succeeding?) && newId !in s.keyrings
    case InsertKeyGrants(h) => h in s.handlers && s.handlers[h].Granting? && FreshTargets(s, s.handlers[h].targets)
    case Stop(h) => h in s.handlers
  }

  /** The keyring a creation inserts, or the successor a rotation inserts. */
  function NewKeyring(handler: Handler): Keyring
    requires handler.Creating? || handler.Succeeding?
  {
    match handler
    case Creating(org, mode, _) => Keyring(org, mode, 1, None, true)
    case Succeeding(keyring, current, _) => Keyring(current.org, current.mode, current.epoch + 1, Some(keyring), true)
  }

  function RetireStep(s: State, h: HandlerId): State
    requires Enabled(s, RetireKeyring(h))
  {
    var r := s.handlers[h];
    s.(keyrings := s.keyrings[r.keyring := s.keyrings[r.keyring].(active := false)],
       handlers := s.handlers[h := Revoking(r.keyring, r.current, r.targets)])
  }

  function RevokeStep(s: State, h: HandlerId): State
    requires Enabled(s, RevokeGrants(h))
  {
    var r := s.handlers[h];
    s.(grants := RevokeKeyringGrants(s.grants, r.keyring),
       handlers := s.handlers[h := Succeeding(r.keyring, r.current, r.targets)])
  }

  function InsertKeyringStep(s: State, h: HandlerId, newId: KeyringId): State
    requires Enabled(s, InsertKeyring(h, newId))
  {
    var next := NewKeyring(s.handlers[h]);
    s.(keyrings := s.keyrings[newId := next],
       handlers := s.handlers[h := Granting(next.org, newId, s.handlers[h].targets)])
  }

  /** One insert for all grants: if the unique index refuses a row it throws, and nothing is inserted. */
  function InsertGrantsStep(s: State, h: HandlerId): State
    requires Enabled(s, InsertKeyGrants(h))
  {
    var r := s.handlers[h];
    s.(grants := if IndexAdmits(s.grants, r.keyring, r.targets) then InsertGrants(s.grants, r.org, r.keyring, r.targets)
                 else s.grants,
       handlers := s.handlers - {h})
  }

  function FinishRemoveStep(s: State, h: HandlerId): State
    requires Enabled(s, FinishRemove(h))
  {
    s.(grants := RevokeMemberGrants(s.grants, s.handlers[h].org, s.handlers[h].identity), handlers := s.handlers - {h})
  }

  function StepOnce(s: State, e: Event): State
    requires Enabled(s, e)
  {
    match e
    case AddMember(org, identity) => s.(members := s.members[(org, identity) := true])
    case BeginRemove(h, org, identity) =>
      s.(members := s.members[(org, identity) := false], handlers := s.handlers[h := Removing(org, identity)])
    case FinishRemove(h) => FinishRemoveStep(s, h)
    case BeginCreate(h, org, mode, kmsReady, targets) =>
      if CanCreate(s, org, mode, kmsReady, targets)
      then s.(handlers := s.handlers[h := Creating(org, mode, targets)])
      else s
    case BeginRotate(h, org, keyring, targets) =>
      if CanRotate(s, org, keyring, targets)
      then s.(handlers := s.handlers[h := Rotating(keyring, s.keyrings[keyring], targets)])
      else s
    case RetireKeyring(h) => RetireStep(s, h)
    case RevokeGrants(h) => RevokeStep(s, h)
    case InsertKeyring(h, newId) => InsertKeyringStep(s, h, newId)
    case InsertKeyGrants(h) => InsertGrantsStep(s, h)
    case Stop(h) => s.(handlers := s.handlers - {h})
  }

  /** An event that cannot happen leaves the state alone, so every list of events is a run. */
  function Step(s: State, e: Event): State {
    if Enabled(s, e) then StepOnce(s, e) else s
  }

  function Run(s: State, events: seq<Event>): State
    decreases |events|
  {
    if events == [] then s else Run(Step(s, events[0]), events[1..])
  }

  /** A handler will revoke the identity's grants, or the keyring's. */
  ghost predicate BeingRemoved(s: State, org: OrgId, identity: IdentityId) {
    exists h :: h in s.handlers && s.handlers[h] == Removing(org, identity)
  }

  ghost predicate BeingRetired(s: State, keyring: KeyringId) {
    exists h :: h in s.handlers && s.handlers[h].Revoking? && s.handlers[h].keyring == keyring
  }

  /** A grant may be in force: its member and its keyring are active, or a handler is about to revoke it. */
  ghost predicate Covered(s: State, org: OrgId, keyring: KeyringId, identity: IdentityId) {
    && (IsActiveMember(s, org, identity) || BeingRemoved(s, org, identity))
    && keyring in s.keyrings && (s.keyrings[keyring].active || BeingRetired(s, keyring))
  }

  ghost predicate GrantOk(s: State, g: Grant) {
    g.keyring in s.keyrings && g.org == s.keyrings[g.keyring].org &&
    (g.active ==> Covered(s, g.org, g.keyring, g.identity))
  }

  ghost predicate GrantsOk(s: State) {
    forall g :: g in s.grants ==> GrantOk(s, s.grants[g])
  }

  /** A rotated keyring counts one epoch more than the one it comes from, which is out of use. */
  predicate KeyringOk(s: State, k: Keyring) {
    if k.rotatedFrom.None? then k.epoch == 1
    else
      && k.rotatedFrom.value in s.keyrings
      && var parent := s.keyrings[k.rotatedFrom.value];
         parent.epoch + 1 == k.epoch && parent.org == k.org && parent.mode == k.mode && !parent.active
  }

  predicate KeyringsOk(s: State) {
    forall k :: k in s.keyrings ==> KeyringOk(s, s.keyrings[k])
  }

  /** What a handler read of a keyring never changes, but for its status. */
  predicate HandlerOk(s: State, handler: Handler) {
    match handler
    case Rotating(keyring, current, _) => keyring in s.keyrings && s.keyrings[keyring].(active := current.active) == current
    case Revoking(keyring, current, _) =>
      keyring in s.keyrings && s.keyrings[keyring].(active := current.active) == current && !s.keyrings[keyring].active
    case Succeeding(keyring, current, _) =>
      keyring in s.keyrings && s.keyrings[keyring].(active := current.active) == current && !s.keyrings[keyring].active
    case Granting(org, keyring, _) => keyring in s.keyrings && s.keyrings[keyring].org == org
    case _ => true
  }

  predicate HandlersOk(s: State) {
    forall h :: h in s.handlers ==> HandlerOk(s, s.handlers[h])
  }

  predicate KeysOk(s: State) {
    KeyringsOk(s) && HandlersOk(s)
  }

  ghost predicate Inv(s: State) {
    GrantsOk(s) && KeysOk(s)
  }

  /** The grants about to be inserted are still for active members and an active keyring, or will be revoked. */
  ghost predicate Fits(s: State, handler: Handler)
    requires handler.Granting?
  {
    forall i :: 0 <= i < |handler.targets| ==> Covered(s, handler.org, handler.keyring, handler.targets[i].identity)
  }

  predicate NoGrant(s: State, org: OrgId, identity: IdentityId) {
    forall g :: g in s.grants && s.grants[g].org == org && s.grants[g].identity == identity ==> !s.grants[g].active
  }

  predicate NoGrantOf(s: State, keyring: KeyringId) {
    forall g :: g in s.grants && s.grants[g].keyring == keyring ==> !s.grants[g].active
  }

  /** A handler that dies leaves no grant behind that it was about to revoke, unless another one will. */
  ghost predicate MayStop(s: State, h: HandlerId)
    requires h in s.handlers
  {
    match s.handlers[h]
    case Removing(org, identity) =>
      || IsActiveMember(s, org, identity) || NoGrant(s, org, identity)
      || exists g :: g in s.handlers && g != h && s.handlers[g] == Removing(org, identity)
    case Revoking(keyring, _, _) =>
      || NoGrantOf(s, keyring)
      || exists g :: g in s.handlers && g != h && s.handlers[g].Revoking? && s.handlers[g].keyring == keyring
    case _ => true
  }

  ghost predicate Consistent(s: State, e: Event) {
    && (e.InsertKeyGrants? && Enabled(s, e) && IndexAdmits(s.grants, s.handlers[e.h].keyring, s.handlers[e.h].targets)
        ==> Fits(s, s.handlers[e.h]))
    && (e.Stop? && Enabled(s, e) ==> MayStop(s, e.h))
  }

  /** The inserted grants are the targets, active; the others are as they were. */
  lemma {:induction false} InsertedGrants(grants: map<GrantId, Grant>, org: OrgId, keyring: KeyringId, targets: seq<Target>)
    requires forall i :: 0 <= i < |targets| ==> targets[i].id !in grants
    requires forall i, j :: 0 <= i < j < |targets| ==> targets[i].id != targets[j].id
    ensures var all := InsertGrants(grants, org, keyring, targets);
            && (forall g :: g in grants ==> g in all && all[g] == grants[g])
            && (forall i :: 0 <= i < |targets| ==>
                  targets[i].id in all && all[targets[i].id] == Grant(org, keyring, targets[i].identity, true))
            && (forall g :: g in all ==> g in grants || exists i :: 0 <= i < |targets| && targets[i].id == g)
    decreases |targets|
  {
    if targets != [] {
      var next := grants[targets[0].id := Grant(org, keyring, targets[0].identity, true)];
      InsertedGrants(next, org, keyring, targets[1..]);
      var all := InsertGrants(grants, org, keyring, targets);
      forall i | 0 <= i < |targets|
        ensures targets[i].id in all && all[targets[i].id] == Grant(org, keyring, targets[i].identity, true)
      {
        assert i > 0 ==> targets[1..][i - 1] == targets[i];
        assert targets[0].id in next;
      }
      forall g | g in all && g !in grants
        ensures exists i :: 0 <= i < |targets| && targets[i].id == g
      {
        if g != targets[0].id {
          assert g !in next;
          var i :| 0 <= i < |targets[1..]| && targets[1..][i].id == g;
          assert targets[i + 1].id == g;
        }
      }
    }
  }

  /** A keyring only ever changes by being retired. */
  lemma KeyringsOnlyRetire(s: State, e: Event)
    requires Enabled(s, e)
    ensures var t := StepOnce(s, e);
            && (forall k :: k in s.keyrings ==>
                  k in t.keyrings && (t.keyrings[k] == s.keyrings[k] || t.keyrings[k] == s.keyrings[k].(active := false)))
            && (forall k :: k in t.keyrings && k !in s.keyrings ==>
                  e.InsertKeyring? && k == e.newId && t.keyrings[k] == NewKeyring(s.handlers[e.h]))
  {
    hide InsertGrants, RevokeMemberGrants, RevokeKeyringGrants, ValidTargets, FreshTargets, NewKeyring;
  }

  lemma StepKeepsKeyringsOk(s: State, e: Event)
    requires KeysOk(s) && Enabled(s, e)
    ensures KeyringsOk(StepOnce(s, e))
  {
    KeyringsOnlyRetire(s, e);
    var t := StepOnce(s, e);
    if e.InsertKeyring? {
      assert HandlerOk(s, s.handlers[e.h]);
    }
    hide StepOnce;
    forall k | k in t.keyrings ensures KeyringOk(t, t.keyrings[k]) {
      assert k in s.keyrings ==> KeyringOk(s, s.keyrings[k]);
    }
  }

  /** Where the handlers of a step come from. */
  lemma HandlersMoveOn(s: State, e: Event, h: HandlerId)
    requires HandlersOk(s) && Enabled(s, e) && h in StepOnce(s, e).handlers
    requires !e.AddMember? && h == e.h
    ensures HandlerOk(StepOnce(s, e), StepOnce(s, e).handlers[h])
  {
    hide InsertGrants, RevokeMemberGrants, RevokeKeyringGrants, ValidTargets, FreshTargets;
    assert h in s.handlers ==> HandlerOk(s, s.handlers[h]);
  }

  lemma StepKeepsKeysOk(s: State, e: Event)
    requires KeysOk(s)
    ensures KeysOk(Step(s, e))
  {
    hide InsertGrants, RevokeMemberGrants, RevokeKeyringGrants, ValidTargets, FreshTargets, KeyringsOk, NewKeyring;
    if Enabled(s, e) {
      var t := StepOnce(s, e);
      StepKeepsKeyringsOk(s, e);
      KeyringsOnlyRetire(s, e);
      assert forall h :: h in t.handlers && (e.AddMember? || h != e.h) ==>
                h in s.handlers && t.handlers[h] == s.handlers[h];
      forall h | h in t.handlers ensures HandlerOk(t, t.handlers[h]) {
        if !e.AddMember? && h == e.h {
          HandlersMoveOn(s, e, h);
        } else {
          assert HandlerOk(s, s.handlers[h]);
        }
      }
    }
  }

  lemma {:induction false} RunKeepsKeysOk(s: State, events: seq<Event>)
    requires KeysOk(s)
    ensures KeysOk(Run(s, events))
    decreases |events|
  {
    hide KeysOk, Step;
    if events != [] {
      StepKeepsKeysOk(s, events[0]);
      RunKeepsKeysOk(Step(s, events[0]), events[1..]);
    }
  }

  /** A keyring that waits for its grants has none, and waits for one handler's. */
  predicate Ungranted(s: State) {
    && (forall g :: g in s.grants ==> s.grants[g].keyring in s.keyrings)
    && (forall h, g :: h in s.handlers && s.handlers[h].Granting? && g in s.grants ==>
          s.grants[g].keyring != s.handlers[h].keyring)
    && (forall h, i :: h in s.handlers && i in s.handlers && s.handlers[h].Granting? && s.handlers[i].Granting? ==>
          s.handlers[h].keyring != s.handlers[i].keyring || h == i)
  }

  lemma InsertKeepsUngranted(s: State, h: HandlerId)
    requires KeysOk(s) && Ungranted(s) && Enabled(s, InsertKeyGrants(h))
    ensures Ungranted(InsertGrantsStep(s, h))
  {
    var r := s.handlers[h];
    var t := InsertGrantsStep(s, h);
    InsertedGrants(s.grants, r.org, r.keyring, r.targets);
    assert HandlerOk(s, r);
    hide InsertGrants, IndexAdmits;
    forall g | g in t.grants ensures g in s.grants || t.grants[g].keyring == r.keyring {
      if g !in s.grants {
        var i :| 0 <= i < |r.targets| && r.targets[i].id == g;
        assert t.grants[r.targets[i].id] == Grant(r.org, r.keyring, r.targets[i].identity, true);
      }
    }
  }

  lemma StepKeepsUngranted(s: State, e: Event)
    requires KeysOk(s) && Ungranted(s)
    ensures Ungranted(Step(s, e))
  {
    hide InsertGrants, ValidTargets, FreshTargets, KeyringsOk, IndexAdmits;
    if Enabled(s, e) {
      if e.InsertKeyGrants? {
        InsertKeepsUngranted(s, e.h);
      } else if e.InsertKeyring? {
        forall h | h in s.handlers && s.handlers[h].Granting? ensures s.handlers[h].keyring in s.keyrings {
          assert HandlerOk(s, s.handlers[h]);
        }
      }
    }
  }

  lemma {:induction false} RunKeepsUngranted(s: State, events: seq<Event>)
    requires KeysOk(s) && Ungranted(s)
    ensures KeysOk(Run(s, events)) && Ungranted(Run(s, events))
    decreases |events|
  {
    hide KeysOk, Ungranted, Step;
    if events != [] {
      StepKeepsKeysOk(s, events[0]);
      StepKeepsUngranted(s, events[0]);
      RunKeepsUngranted(Step(s, events[0]), events[1..]);
    }
  }

  /** In every run an insert of grants is refused by the unique index exactly when the request names an identity twice. */
  lemma IndexRefusesExactly(events: seq<Event>, h: HandlerId)
    requires Enabled(Run(INITIAL, events), InsertKeyGrants(h))
    ensures var s := Run(INITIAL, events);
            var targets := s.handlers[h].targets;
            IndexAdmits(s.grants, s.handlers[h].keyring, targets) <==> DistinctIdentities(targets)
  {
    hide Run;
    RunKeepsUngranted(INITIAL, events);
  }

  /** Nothing that covers a grant goes away but by the statements that revoke it. */
  lemma StaysCovered(s: State, e: Event, org: OrgId, keyring: KeyringId, identity: IdentityId)
    requires Enabled(s, e) && Covered(s, org, keyring, identity)
    requires e.FinishRemove? ==> s.handlers[e.h] != Removing(org, identity)
    requires e.RevokeGrants? ==> s.handlers[e.h].keyring != keyring
    requires !e.Stop?
    ensures Covered(StepOnce(s, e), org, keyring, identity)
  {
    hide InsertGrants, RevokeMemberGrants, RevokeKeyringGrants, ValidTargets, FreshTargets;
    var t := StepOnce(s, e);
    if BeingRemoved(s, org, identity) {
      var h :| h in s.handlers && s.handlers[h] == Removing(org, identity);
      assert t.handlers[h] == Removing(org, identity);
    }
    if e.BeginRemove? {
      assert t.handlers[e.h] == Removing(e.org, e.identity);
    }
    if BeingRetired(s, keyring) {
      var h :| h in s.handlers && s.handlers[h].Revoking? && s.handlers[h].keyring == keyring;
      assert t.handlers[h] == s.handlers[h];
    }
    if e.RetireKeyring? {
      assert t.handlers[e.h].Revoking?;
    }
  }

  lemma OldGrantsStayOk(s: State, e: Event)
    requires GrantsOk(s) && Enabled(s, e) && !e.InsertKeyGrants? && !e.Stop?
    ensures GrantsOk(StepOnce(s, e))
  {
    var t := StepOnce(s, e);
    hide InsertGrants, Covered, ValidTargets, FreshTargets;
    forall g | g in t.grants ensures GrantOk(t, t.grants[g]) {
      assert GrantOk(s, s.grants[g]);
      if t.grants[g].active {
        StaysCovered(s, e, s.grants[g].org, s.grants[g].keyring, s.grants[g].identity);
      }
    }
  }

  lemma NewGrantsOkExactly(s: State, h: HandlerId)
    requires Inv(s) && Enabled(s, InsertKeyGrants(h))
    ensures GrantsOk(InsertGrantsStep(s, h)) <==> Consistent(s, InsertKeyGrants(h))
  {
    var r := s.handlers[h];
    var t := InsertGrantsStep(s, h);
    InsertedGrants(s.grants, r.org, r.keyring, r.targets);
    assert HandlerOk(s, r);
    hide InsertGrants, IndexAdmits;
    forall org, keyring, identity ensures Covered(t, org, keyring, identity) <==> Covered(s, org, keyring, identity) {
      SameCover(s, h, org, keyring, identity);
    }
    hide Covered;
    if Consistent(s, InsertKeyGrants(h)) {
      forall g | g in t.grants ensures GrantOk(t, t.grants[g]) {
        if g in s.grants {
          assert GrantOk(s, s.grants[g]);
        } else {
          var i :| 0 <= i < |r.targets| && r.targets[i].id == g;
          assert t.grants[r.targets[i].id] == Grant(r.org, r.keyring, r.targets[i].identity, true);
        }
      }
    } else {
      var i :| 0 <= i < |r.targets| && !Covered(s, r.org, r.keyring, r.targets[i].identity);
      assert !GrantOk(t, t.grants[r.targets[i].id]);
    }
  }

  lemma StopKeepsGrantsOkExactly(s: State, h: HandlerId)
    requires Inv(s) && Enabled(s, Stop(h))
    ensures GrantsOk(StepOnce(s, Stop(h))) <==> MayStop(s, h)
  {
    var t := StepOnce(s, Stop(h));
    assert HandlerOk(s, s.handlers[h]);
    assert forall g :: g in s.handlers && g != h ==> g in t.handlers && t.handlers[g] == s.handlers[g];
    if MayStop(s, h) {
      forall g | g in t.grants ensures GrantOk(t, t.grants[g]) {
        assert GrantOk(s, s.grants[g]);
      }
    } else {
      StoppedTooEarly(s, h);
    }
  }

  lemma StoppedTooEarly(s: State, h: HandlerId)
    requires Inv(s) && Enabled(s, Stop(h)) && !MayStop(s, h)
    ensures !GrantsOk(StepOnce(s, Stop(h)))
  {
    var t := StepOnce(s, Stop(h));
    assert HandlerOk(s, s.handlers[h]);
    match s.handlers[h] {
      case Removing(org, identity) =>
        var g :| g in s.grants && s.grants[g].org == org && s.grants[g].identity == identity && s.grants[g].active;
        assert !BeingRemoved(t, org, identity);
        assert !GrantOk(t, t.grants[g]);
      case Revoking(keyring, _, _) =>
        var g :| g in s.grants && s.grants[g].keyring == keyring && s.grants[g].active;
        assert !BeingRetired(t, keyring);
        assert !GrantOk(t, t.grants[g]);
      case _ =>
    }
  }

  lemma SameCover(s: State, h: HandlerId, org: OrgId, keyring: KeyringId, identity: IdentityId)
    requires Enabled(s, InsertKeyGrants(h))
    ensures Covered(InsertGrantsStep(s, h), org, keyring, identity) <==> Covered(s, org, keyring, identity)
  {
    hide InsertGrants;
    var t := InsertGrantsStep(s, h);
    assert forall g :: g in t.handlers ==> g in s.handlers && t.handlers[g] == s.handlers[g];
    assert forall g :: g in s.handlers && !s.handlers[g].Granting? ==> g in t.handlers && t.handlers[g] == s.handlers[g];
  }

  /** A statement keeps the invariant exactly when it inserts no grant for somebody who left or on a retired keyring;
      the death of a handler exactly when it leaves no grant that only this handler would have revoked. */
  lemma StepKeepsInvExactly(s: State, e: Event)
    requires Inv(s)
    ensures Inv(Step(s, e)) <==> Consistent(s, e)
  {
    StepKeepsKeysOk(s, e);
    if Enabled(s, e) {
      if e.InsertKeyGrants? {
        NewGrantsOkExactly(s, e.h);
      } else if e.Stop? {
        StopKeepsGrantsOkExactly(s, e.h);
      } else {
        OldGrantsStayOk(s, e);
      }
    }
    hide GrantsOk, KeysOk, Fits, MayStop;
  }

  ghost predicate InvThroughout(s: State, events: seq<Event>)
    decreases |events|
  {
    Inv(s) && (events == [] || InvThroughout(Step(s, events[0]), events[1..]))
  }

  ghost predicate ConsistentRun(s: State, events: seq<Event>)
    decreases |events|
  {
    events == [] || (Consistent(s, events[0]) && ConsistentRun(Step(s, events[0]), events[1..]))
  }

  /** A run keeps the invariant throughout exactly when all its inserts of grants still fit and no handler dies early. */
  lemma {:induction false} InvThroughoutExactly(s: State, events: seq<Event>)
    requires Inv(s)
    ensures InvThroughout(s, events) <==> ConsistentRun(s, events)
    ensures ConsistentRun(s, events) ==> Inv(Run(s, events))
    decreases |events|
  {
    hide Inv, Step, Consistent;
    if events != [] {
      StepKeepsInvExactly(s, events[0]);
      if Inv(Step(s, events[0])) {
        InvThroughoutExactly(Step(s, events[0]), events[1..]);
      }
    }
  }

  /** In every such run each active grant targets an active member and hangs on an active keyring of its
      organization, but for grants that a handler is about to revoke. */
  lemma ActiveGrantsAreCurrent(events: seq<Event>, g: GrantId)
    requires ConsistentRun(INITIAL, events)
    requires g in Run(INITIAL, events).grants && Run(INITIAL, events).grants[g].active
    ensures var s := Run(INITIAL, events);
            var grant := s.grants[g];
            && (IsActiveMember(s, grant.org, grant.identity) || BeingRemoved(s, grant.org, grant.identity))
            && grant.keyring in s.keyrings && s.keyrings[grant.keyring].org == grant.org
            && (s.keyrings[grant.keyring].active || BeingRetired(s, grant.keyring))
  {
    assert Inv(INITIAL);
    hide Run, ConsistentRun, KeysOk, BeingRemoved, BeingRetired;
    InvThroughoutExactly(INITIAL, events);
    var s := Run(INITIAL, events);
    assert GrantOk(s, s.grants[g]);
  }

  /** The keyring reached by following rotatedFrom n times. */
  function Ancestor(keyrings: map<KeyringId, Keyring>, k: KeyringId, n: nat): Option<KeyringId>
    decreases n
  {
    if n == 0 then if k in keyrings then Some(k) else None
    else if k in keyrings && keyrings[k].rotatedFrom.Some? then Ancestor(keyrings, keyrings[k].rotatedFrom.value, n - 1)
    else None
  }

  lemma {:induction false} AncestorEpoch(s: State, k: KeyringId, n: nat)
    requires KeyringsOk(s) && k in s.keyrings
    ensures s.keyrings[k].epoch >= 1
    ensures Ancestor(s.keyrings, k, n).Some? <==> n < s.keyrings[k].epoch
    ensures Ancestor(s.keyrings, k, n).Some? ==>
              var a := Ancestor(s.keyrings, k, n).value;
              && a in s.keyrings && s.keyrings[a].epoch == s.keyrings[k].epoch - n
              && s.keyrings[a].org == s.keyrings[k].org && s.keyrings[a].mode == s.keyrings[k].mode
              && (n > 0 ==> !s.keyrings[a].active)
    decreases s.keyrings[k].epoch
  {
    assert KeyringOk(s, s.keyrings[k]);
    if s.keyrings[k].rotatedFrom.Some? {
      var parent := s.keyrings[k].rotatedFrom.value;
      AncestorEpoch(s, parent, if n > 0 then n - 1 else 0);
    }
  }

  /** In every run the epoch of a keyring is one plus the number of its ancestors, none of which is the
      keyring itself or still active. */
  lemma EpochCountsAncestors(events: seq<Event>, k: KeyringId)
    requires k in Run(INITIAL, events).keyrings
    ensures var keyrings := Run(INITIAL, events).keyrings;
            forall n: nat :: n > 0 ==>
              && (Ancestor(keyrings, k, n).Some? <==> n <= keyrings[k].epoch - 1)
              && (Ancestor(keyrings, k, n).Some? ==>
                    && Ancestor(keyrings, k, n) != Some(k)
                    && Ancestor(keyrings, k, n).value in keyrings && !keyrings[Ancestor(keyrings, k, n).value].active)
  {
    hide Run, Ancestor;
    RunKeepsKeysOk(INITIAL, events);
    var s := Run(INITIAL, events);
    forall n: nat | n > 0
      ensures Ancestor(s.keyrings, k, n).Some? <==> n <= s.keyrings[k].epoch - 1
      ensures Ancestor(s.keyrings, k, n).Some? ==>
                && Ancestor(s.keyrings, k, n) != Some(k)
                && Ancestor(s.keyrings, k, n).value in s.keyrings && !s.keyrings[Ancestor(s.keyrings, k, n).value].active
    {
      AncestorEpoch(s, k, n);
    }
  }

  lemma StepKeepsRetired(s: State, e: Event, keyring: KeyringId)
    requires keyring in s.keyrings && !s.keyrings[keyring].active
    ensures keyring in Step(s, e).keyrings && !Step(s, e).keyrings[keyring].active
  {
    hide InsertGrants, ValidTargets;
  }

  lemma {:induction false} RunKeepsRetired(s: State, events: seq<Event>, keyring: KeyringId)
    requires keyring in s.keyrings && !s.keyrings[keyring].active
    ensures keyring in Run(s, events).keyrings && !Run(s, events).keyrings[keyring].active
    decreases |events|
  {
    hide Step;
    if events != [] {
      StepKeepsRetired(s, events[0], keyring);
      RunKeepsRetired(Step(s, events[0]), events[1..], keyring);
    }
  }

  /** A rotation takes the old keyring out of force for good, and all its grants, unless another rotation of it is
      about to revoke them once more. */
  lemma RotationIsFinal(s: State, h: HandlerId, events: seq<Event>)
    requires Inv(s) && Enabled(s, RevokeGrants(h)) && ConsistentRun(Step(s, RevokeGrants(h)), events)
    ensures var keyring := s.handlers[h].keyring;
            var t := Run(Step(s, RevokeGrants(h)), events);
            && keyring in t.keyrings && !t.keyrings[keyring].active
            && forall g :: g in t.grants && t.grants[g].keyring == keyring && t.grants[g].active ==> BeingRetired(t, keyring)
  {
    var keyring := s.handlers[h].keyring;
    var next := Step(s, RevokeGrants(h));
    assert HandlerOk(s, s.handlers[h]);
    StepKeepsInvExactly(s, RevokeGrants(h));
    hide ConsistentRun, Run, RevokeStep, KeysOk, InsertGrants;
    RunKeepsRetired(next, events, keyring);
    InvThroughoutExactly(next, events);
    hide Step;
    var t := Run(next, events);
    forall g | g in t.grants && t.grants[g].keyring == keyring && t.grants[g].active ensures BeingRetired(t, keyring) {
      assert GrantOk(t, t.grants[g]);
    }
  }

  predicate Targets(targets: seq<Target>, identity: IdentityId) {
    exists i :: 0 <= i < |targets| && targets[i].identity == identity
  }

  /** A handler that may still insert a grant for the identity in the organization. */
  predicate Promises(handler: Handler, org: OrgId, identity: IdentityId) {
    match handler
    case Creating(o, _, targets) => o == org && Targets(targets, identity)
    case Rotating(_, current, targets) => current.org == org && Targets(targets, identity)
    case Revoking(_, current, targets) => current.org == org && Targets(targets, identity)
    case Succeeding(_, current, targets) => current.org == org && Targets(targets, identity)
    case Granting(o, _, targets) => o == org && Targets(targets, identity)
    case Removing(_, _) => false
  }

  predicate NothingPromised(s: State, org: OrgId, identity: IdentityId) {
    forall h :: h in s.handlers ==> !Promises(s.handlers[h], org, identity)
  }

  /** A creation or rotation in the organization with a grant for the identity begins. */
  predicate Names(e: Event, org: OrgId, identity: IdentityId) {
    (e.BeginCreate? || e.BeginRotate?) && e.org == org && Targets(e.targets, identity)
  }

  lemma StepKeepsNoGrant(s: State, e: Event, org: OrgId, identity: IdentityId)
    requires NoGrant(s, org, identity) && NothingPromised(s, org, identity) && !Names(e, org, identity)
    ensures NoGrant(Step(s, e), org, identity) && NothingPromised(Step(s, e), org, identity)
  {
    hide InsertGrants, ValidTargets, FreshTargets, Targets;
    if Enabled(s, e) {
      var t := StepOnce(s, e);
      forall h | h in t.handlers ensures !Promises(t.handlers[h], org, identity) {
        assert h in s.handlers ==> !Promises(s.handlers[h], org, identity);
      }
      if e.InsertKeyGrants? {
        InsertKeepsNoGrant(s, e.h, org, identity);
      }
    }
  }

  lemma InsertKeepsNoGrant(s: State, h: HandlerId, org: OrgId, identity: IdentityId)
    requires NoGrant(s, org, identity) && NothingPromised(s, org, identity) && Enabled(s, InsertKeyGrants(h))
    ensures NoGrant(InsertGrantsStep(s, h), org, identity)
  {
    var r := s.handlers[h];
    assert !Promises(r, org, identity);
    InsertedGrants(s.grants, r.org, r.keyring, r.targets);
    hide InsertGrants;
    var t := InsertGrantsStep(s, h);
    forall g | g in t.grants ensures t.grants[g].org == org && t.grants[g].identity == identity ==> !t.grants[g].active {
      if g !in s.grants {
        var i :| 0 <= i < |r.targets| && r.targets[i].id == g;
        assert r.org == org ==> r.targets[i].identity != identity;
      }
    }
  }

  lemma {:induction false} NoGrantStays(s: State, events: seq<Event>, org: OrgId, identity: IdentityId)
    requires NoGrant(s, org, identity) && NothingPromised(s, org, identity)
    requires forall i :: 0 <= i < |events| ==> !Names(events[i], org, identity)
    ensures NoGrant(Run(s, events), org, identity)
    decreases |events|
  {
    hide NoGrant, NothingPromised, Step, Names;
    if events != [] {
      StepKeepsNoGrant(s, events[0], org, identity);
      NoGrantStays(Step(s, events[0]), events[1..], org, identity);
    }
  }

  /** When a removal ends its member holds no grant in force, and joining again brings none back: only a key that is
      created or rotated with a grant for the identity does, one whose handler is on its way included. */
  lemma RemovalIsFinal(s: State, h: HandlerId, events: seq<Event>)
    requires Enabled(s, FinishRemove(h)) && NothingPromised(s, s.handlers[h].org, s.handlers[h].identity)
    requires forall i :: 0 <= i < |events| ==> !Names(events[i], s.handlers[h].org, s.handlers[h].identity)
    ensures NoGrant(Run(Step(s, FinishRemove(h)), events), s.handlers[h].org, s.handlers[h].identity)
  {
    hide Run, InsertGrants;
    NoGrantStays(Step(s, FinishRemove(h)), events, s.handlers[h].org, s.handlers[h].identity);
  }

  /** The tables of members, keyrings and grants, and the handlers that change them; every method is one statement. */
  class Organizations {
    var members: map<(OrgId, IdentityId), bool>
    var keyrings: map<KeyringId, Keyring>
    var grants: map<GrantId, Grant>
    var handlers: map<HandlerId, Handler>

    ghost function Current(): State
      reads this
    {
      State(members, keyrings, grants, handlers)
    }

    constructor ()
      ensures Current() == INITIAL && Inv(Current())
    {
      members, keyrings, grants, handlers := map[], map[], map[], map[];
    }

    method Join(org: OrgId, identity: IdentityId)
      modifies this`members
      ensures Current() == StepOnce(old(Current()), AddMember(org, identity))
    {
      members := members[(org, identity) := true];
    }

    /** DELETE /organizations/:organizationId/identities/:memberId up to the first update */
    method RemoveMember(h: HandlerId, org: OrgId, identity: IdentityId) returns (found: bool)
      requires h !in handlers
      modifies this
      ensures found <==> (org, identity) in old(members)
      ensures Current() == Step(old(Current()), BeginRemove(h, org, identity))
    {
      found := (org, identity) in members;
      if found {
        members := members[(org, identity) := false];
        handlers := handlers[h := Removing(org, identity)];
      }
    }

    method RevokeGrantsOfMember(h: HandlerId)
      requires h in handlers && handlers[h].Removing?
      modifies this
      ensures Current() == StepOnce(old(Current()), FinishRemove(h))
    {
      grants := RevokeMemberGrants(grants, handlers[h].org, handlers[h].identity);
      handlers := handlers - {h};
    }

    /** The loop over the key texts, then the look-up of the targets among the active members. */
    method ValidateGrantTargets(org: OrgId, targets: seq<Target>) returns (ok: bool)
      ensures ok <==> ValidTargets(Current(), org, targets)
      ensures ok <==> forall i :: 0 <= i < |targets| ==>
                targets[i].keysOk && (org, targets[i].identity) in members && members[(org, targets[i].identity)]
    {
      for i := 0 to |targets|
        invariant forall j :: 0 <= j < i ==> targets[j].keysOk
      {
        if !targets[i].keysOk {
          return false;
        }
      }
      for i := 0 to |targets|
        invariant forall j :: 0 <= j < i ==> IsActiveMember(Current(), org, targets[j].identity)
      {
        var member := (org, targets[i].identity);
        if member !in members || !members[member] {
          assert !IsActiveMember(Current(), org, targets[i].identity);
          return false;
        }
      }
      return true;
    }

    /** POST /organizations/:organizationId/keys up to the look-up of the members */
    method CheckCreation(h: HandlerId, org: OrgId, mode: Mode, kmsReady: bool, targets: seq<Target>) returns (ok: bool)
      requires h !in handlers
      modifies this`handlers
      ensures ok <==> CanCreate(old(Current()), org, mode, kmsReady, targets)
      ensures Current() == StepOnce(old(Current()), BeginCreate(h, org, mode, kmsReady, targets))
    {
      if (mode.E2ee? && targets == []) || (mode.EnterpriseManaged? && !kmsReady) {
        return false;
      }
      ok := ValidateGrantTargets(org, targets);
      if ok {
        handlers := handlers[h := Creating(org, mode, targets)];
      }
    }

    /** POST /organizations/:organizationId/keys/:keyringId/rotate up to the look-up of the members */
    method CheckRotation(h: HandlerId, org: OrgId, keyring: KeyringId, targets: seq<Target>) returns (ok: bool)
      requires h !in handlers
      modifies this`handlers
      ensures ok <==> CanRotate(old(Current()), org, keyring, targets)
      ensures Current() == StepOnce(old(Current()), BeginRotate(h, org, keyring, targets))
    {
      if keyring !in keyrings || keyrings[keyring].org != org {
        return false;
      }
      var current := keyrings[keyring];
      if current.mode.E2ee? && targets == [] {
        return false;
      }
      ok := ValidateGrantTargets(org, targets);
      if ok {
        handlers := handlers[h := Rotating(keyring, current, targets)];
      }
    }

    method Retire(h: HandlerId)
      requires h in handlers && handlers[h].Rotating? && handlers[h].keyring in keyrings
      modifies this
      ensures Current() == StepOnce(old(Current()), RetireKeyring(h))
    {
      var r := handlers[h];
      keyrings := keyrings[r.keyring := keyrings[r.keyring].(active := false)];
      handlers := handlers[h := Revoking(r.keyring, r.current, r.targets)];
    }

    method RevokeGrantsOfKeyring(h: HandlerId)
      requires h in handlers && handlers[h].Revoking?
      modifies this
      ensures Current() == StepOnce(old(Current()), RevokeGrants(h))
    {
      var r := handlers[h];
      grants := RevokeKeyringGrants(grants, r.keyring);
      handlers := handlers[h := Succeeding(r.keyring, r.current, r.targets)];
    }

    /** The insert of a creation, or of the successor in a rotation */
    method AddKeyring(h: HandlerId, newId: KeyringId)
      requires h in handlers && (handlers[h].Creating? || handlers[h].Succeeding?) && newId !in keyrings
      modifies this
      ensures Current() == StepOnce(old(Current()), InsertKeyring(h, newId))
    {
      var r := handlers[h];
      var next;
      if r.Creating? {
        next := Keyring(r.org, r.mode, 1, None, true);
      } else {
        next := Keyring(r.current.org, r.current.mode, r.current.epoch + 1, Some(r.keyring), true);
      }
      keyrings := keyrings[newId := next];
      handlers := handlers[h := Granting(next.org, newId, r.targets)];
    }

    /** The insert of all grants of the new keyring; false if it throws */
    method AddGrants(h: HandlerId) returns (inserted: bool)
      requires h in handlers && handlers[h].Granting? && FreshTargets(Current(), handlers[h].targets)
      modifies this
      ensures inserted <==> IndexAdmits(old(grants), old(handlers[h].keyring), old(handlers[h].targets))
      ensures Current() == StepOnce(old(Current()), InsertKeyGrants(h))
    {
      var r := handlers[h];
      var org, keyring, targets := r.org, r.keyring, r.targets;
      handlers := handlers - {h};
      inserted := IndexAdmits(grants, keyring, targets);
      if !inserted {
        return;
      }
      hide IndexAdmits;
      for i := 0 to |targets|
        invariant members == old(members) && keyrings == old(keyrings) && handlers == old(handlers) - {h}
        invariant InsertGrants(grants, org, keyring, targets[i..]) == InsertGrants(old(grants), org, keyring, targets)
      {
        assert targets[i..][1..] == targets[i + 1..];
        grants := grants[targets[i].id := Grant(org, keyring, targets[i].identity, true)];
      }
    }
  }

  /** Who holds an active grant of the keyring. */
  function Holders(s: State, keyring: KeyringId): set<IdentityId> {
    set g | g in s.grants && s.grants[g].active && s.grants[g].keyring == keyring :: s.grants[g].identity
  }

  function Named(targets: seq<Target>): set<IdentityId> {
    set i | 0 <= i < |targets| :: targets[i].identity
  }

  lemma InsertedHolders(s: State, t: State, kept: map<GrantId, Grant>, org: OrgId, newId: KeyringId, targets: seq<Target>)
    requires FreshTargets(s, targets) && kept.Keys == s.grants.Keys && t.grants == InsertGrants(kept, org, newId, targets)
    requires forall g :: g in kept ==> kept[g].keyring != newId
    ensures Holders(t, newId) == Named(targets)
  {
    hide InsertGrants;
    InsertedGrants(kept, org, newId, targets);
    forall identity | identity in Holders(t, newId)
      ensures identity in Named(targets)
    {
      var g :| g in t.grants && t.grants[g].active && t.grants[g].keyring == newId && t.grants[g].identity == identity;
      var i :| 0 <= i < |targets| && targets[i].id == g;
      assert targets[i].identity == identity;
    }
    forall identity | identity in Named(targets)
      ensures identity in Holders(t, newId)
    {
      var i :| 0 <= i < |targets| && targets[i].identity == identity;
      assert t.grants[targets[i].id].identity == identity;
    }
  }

  /** The grants after the insert of a new keyring's. */
  function Admitted(grants: map<GrantId, Grant>, org: OrgId, newId: KeyringId, targets: seq<Target>): map<GrantId, Grant> {
    if DistinctIdentities(targets) then InsertGrants(grants, org, newId, targets) else grants
  }

  lemma AdmittedHolders(s: State, t: State, kept: map<GrantId, Grant>, org: OrgId, newId: KeyringId, targets: seq<Target>)
    requires FreshTargets(s, targets) && kept.Keys == s.grants.Keys && t.grants == Admitted(kept, org, newId, targets)
    requires forall g :: g in kept ==> kept[g].keyring != newId
    ensures Holders(t, newId) == if DistinctIdentities(targets) then Named(targets) else {}
    ensures Holders(t, newId) == Named(targets) <==> DistinctIdentities(targets)
  {
    if DistinctIdentities(targets) {
      InsertedHolders(s, t, kept, org, newId, targets);
    } else {
      assert targets[0].identity in Named(targets);
    }
  }

  /** The statements of a creation, with nothing in between. */
  function CreationOf(h: HandlerId, org: OrgId, mode: Mode, kmsReady: bool, targets: seq<Target>, newId: KeyringId)
    : seq<Event>
  {
    [BeginCreate(h, org, mode, kmsReady, targets)] + ([InsertKeyring(h, newId)] + ([InsertKeyGrants(h)] + []))
  }

  /** The statements of a rotation, with nothing in between. */
  function RotationOf(h: HandlerId, org: OrgId, keyring: KeyringId, targets: seq<Target>, newId: KeyringId): seq<Event> {
    [BeginRotate(h, org, keyring, targets)] + ([RetireKeyring(h)] + ([RevokeGrants(h)] + Succession(h, newId)))
  }

  function Succession(h: HandlerId, newId: KeyringId): seq<Event> {
    [InsertKeyring(h, newId)] + ([InsertKeyGrants(h)] + [])
  }

  lemma RunOne(s: State, a: Event, rest: seq<Event>)
    ensures Run(s, [a] + rest) == Run(Step(s, a), rest)
  {
    hide Step;
    assert ([a] + rest)[1..] == rest;
  }

  lemma {:induction false} RunConcat(s: State, a: seq<Event>, b: seq<Event>)
    ensures Run(s, a + b) == Run(Run(s, a), b)
    decreases |a|
  {
    hide Step;
    if a == [] {
      assert a + b == b;
    } else {
      assert (a + b)[1..] == a[1..] + b;
      RunConcat(Step(s, a[0]), a[1..], b);
    }
  }

  lemma SameFreshness(s: State, t: State, targets: seq<Target>)
    requires FreshTargets(s, targets) && t.grants.Keys == s.grants.Keys
    ensures FreshTargets(t, targets)
  {
  }

  /** The insert of a new keyring, and then of its grants. */
  lemma KeyringAndGrants(s: State, h: HandlerId, newId: KeyringId)
    requires h in s.handlers && (s.handlers[h].Creating? || s.handlers[h].Succeeding?)
    requires newId !in s.keyrings && FreshTargets(s, s.handlers[h].targets)
    requires forall g :: g in s.grants ==> s.grants[g].keyring != newId
    ensures var next, targets := NewKeyring(s.handlers[h]), s.handlers[h].targets;
            Step(Step(s, InsertKeyring(h, newId)), InsertKeyGrants(h))
            == State(s.members, s.keyrings[newId := next], Admitted(s.grants, next.org, newId, targets), s.handlers - {h})
  {
    hide InsertGrants, FreshTargets;
    var targets := s.handlers[h].targets;
    var next := Step(s, InsertKeyring(h, newId));
    SameFreshness(s, next, targets);
    assert IndexAdmits(s.grants, newId, targets) <==> DistinctIdentities(targets);
    assert next.handlers - {h} == s.handlers - {h};
  }

  lemma GrantsHaveKeyrings(s: State, newId: KeyringId)
    requires GrantsOk(s) && newId !in s.keyrings
    ensures forall g :: g in s.grants ==> s.grants[g].keyring != newId
  {
    forall g | g in s.grants ensures s.grants[g].keyring != newId {
      assert GrantOk(s, s.grants[g]);
    }
  }

  /** The tables after an undisturbed creation. */
  lemma CreatedTables(s: State, h: HandlerId, org: OrgId, mode: Mode, kmsReady: bool, targets: seq<Target>, newId: KeyringId)
    requires forall g :: g in s.grants ==> s.grants[g].keyring != newId
    requires h !in s.handlers && newId !in s.keyrings && FreshTargets(s, targets)
    requires CanCreate(s, org, mode, kmsReady, targets)
    ensures Run(s, CreationOf(h, org, mode, kmsReady, targets, newId))
         == State(s.members, s.keyrings[newId := Keyring(org, mode, 1, None, true)],
                  Admitted(s.grants, org, newId, targets), s.handlers)
  {
    var begin := BeginCreate(h, org, mode, kmsReady, targets);
    var begun := s.(handlers := s.handlers[h := Creating(org, mode, targets)]);
    assert Step(s, begin) == begun;
    SameFreshness(s, begun, targets);
    assert begun.handlers - {h} == s.handlers;
    hide Step, FreshTargets, Admitted;
    KeyringAndGrants(begun, h, newId);
    RunOne(s, begin, [InsertKeyring(h, newId)] + ([InsertKeyGrants(h)] + []));
    RunOne(begun, InsertKeyring(h, newId), [InsertKeyGrants(h)] + []);
    RunOne(Step(begun, InsertKeyring(h, newId)), InsertKeyGrants(h), []);
  }

  /** After an undisturbed creation the keyring is held by exactly the identities its grants name, if and only if they
      name none twice; otherwise it is held by nobody. */
  lemma CreateGrantsExactly(s: State, h: HandlerId, org: OrgId, mode: Mode, kmsReady: bool, targets: seq<Target>,
                            newId: KeyringId)
    requires Inv(s) && h !in s.handlers && newId !in s.keyrings && FreshTargets(s, targets)
    requires CanCreate(s, org, mode, kmsReady, targets)
    ensures var t := Run(s, CreationOf(h, org, mode, kmsReady, targets, newId));
            && newId in t.keyrings && t.keyrings[newId].active
            && (Holders(t, newId) == Named(targets) <==> DistinctIdentities(targets))
            && (!DistinctIdentities(targets) ==> Holders(t, newId) == {})
  {
    GrantsHaveKeyrings(s, newId);
    CreatedTables(s, h, org, mode, kmsReady, targets, newId);
    hide CreationOf, Admitted, Run, KeysOk, GrantsOk;
    AdmittedHolders(s, Run(s, CreationOf(h, org, mode, kmsReady, targets, newId)), s.grants, org, newId, targets);
  }

  /** A rotation up to the insert of the successor. */
  lemma RotationRevokes(s: State, h: HandlerId, org: OrgId, keyring: KeyringId, targets: seq<Target>)
    requires h !in s.handlers && CanRotate(s, org, keyring, targets)
    ensures var current := s.keyrings[keyring];
            Step(Step(Step(s, BeginRotate(h, org, keyring, targets)), RetireKeyring(h)), RevokeGrants(h))
            == State(s.members, s.keyrings[keyring := current.(active := false)], RevokeKeyringGrants(s.grants, keyring),
                     s.handlers[h := Succeeding(keyring, current, targets)])
  {
    hide InsertGrants, FreshTargets, ValidTargets, RevokeKeyringGrants;
    var current := s.keyrings[keyring];
    var begun := s.(handlers := s.handlers[h := Rotating(keyring, current, targets)]);
    assert Step(s, BeginRotate(h, org, keyring, targets)) == begun;
    var retired := s.(keyrings := s.keyrings[keyring := current.(active := false)],
                      handlers := s.handlers[h := Revoking(keyring, current, targets)]);
    assert Step(begun, RetireKeyring(h)) == retired;
  }

  lemma RotationRuns(s: State, h: HandlerId, org: OrgId, keyring: KeyringId, targets: seq<Target>, newId: KeyringId)
    ensures var revoked := Step(Step(Step(s, BeginRotate(h, org, keyring, targets)), RetireKeyring(h)), RevokeGrants(h));
            Run(s, RotationOf(h, org, keyring, targets, newId))
            == Step(Step(revoked, InsertKeyring(h, newId)), InsertKeyGrants(h))
  {
    hide Step;
    var begun := Step(s, BeginRotate(h, org, keyring, targets));
    var retired := Step(begun, RetireKeyring(h));
    var revoked := Step(retired, RevokeGrants(h));
    RunOne(s, BeginRotate(h, org, keyring, targets), [RetireKeyring(h)] + ([RevokeGrants(h)] + Succession(h, newId)));
    RunOne(begun, RetireKeyring(h), [RevokeGrants(h)] + Succession(h, newId));
    RunOne(retired, RevokeGrants(h), Succession(h, newId));
    RunOne(revoked, InsertKeyring(h, newId), [InsertKeyGrants(h)] + []);
    RunOne(Step(revoked, InsertKeyring(h, newId)), InsertKeyGrants(h), []);
  }

  lemma SuccessorAndGrants(s: State, h: HandlerId, keyring: KeyringId, current: Keyring, targets: seq<Target>,
                           newId: KeyringId)
    requires h in s.handlers && s.handlers[h] == Succeeding(keyring, current, targets)
    requires newId !in s.keyrings && FreshTargets(s, targets)
    requires forall g :: g in s.grants ==> s.grants[g].keyring != newId
    ensures var next := Keyring(current.org, current.mode, current.epoch + 1, Some(keyring), true);
            Step(Step(s, InsertKeyring(h, newId)), InsertKeyGrants(h))
            == State(s.members, s.keyrings[newId := next], Admitted(s.grants, next.org, newId, targets), s.handlers - {h})
  {
    hide Step, FreshTargets, Admitted;
    KeyringAndGrants(s, h, newId);
  }

  lemma RevokedKeyrings(grants: map<GrantId, Grant>, keyring: KeyringId)
    ensures var kept := RevokeKeyringGrants(grants, keyring);
            kept.Keys == grants.Keys && forall g :: g in kept ==> kept[g].keyring == grants[g].keyring
  {
  }

  /** The tables after an undisturbed rotation. */
  lemma RotatedTables(s: State, h: HandlerId, org: OrgId, keyring: KeyringId, targets: seq<Target>, newId: KeyringId)
    requires forall g :: g in s.grants ==> s.grants[g].keyring != newId
    requires h !in s.handlers && newId !in s.keyrings && FreshTargets(s, targets)
    requires CanRotate(s, org, keyring, targets)
    ensures var current := s.keyrings[keyring];
            Run(s, RotationOf(h, org, keyring, targets, newId))
            == State(s.members,
                     s.keyrings[keyring := current.(active := false)]
                               [newId := Keyring(org, current.mode, current.epoch + 1, Some(keyring), true)],
                     Admitted(RevokeKeyringGrants(s.grants, keyring), org, newId, targets), s.handlers)
  {
    var current := s.keyrings[keyring];
    var kept := RevokeKeyringGrants(s.grants, keyring);
    var revoked := State(s.members, s.keyrings[keyring := current.(active := false)], kept,
                         s.handlers[h := Succeeding(keyring, current, targets)]);
    hide *;
    RevokedKeyrings(s.grants, keyring);
    SameFreshness(s, revoked, targets);
    RotationRevokes(s, h, org, keyring, targets);
    RotationRuns(s, h, org, keyring, targets, newId);
    SuccessorAndGrants(revoked, h, keyring, current, targets, newId);
    assert revoked.handlers - {h} == s.handlers;
  }

  /** After an undisturbed rotation the new keyring is held by exactly the identities named, if and only if none is
      named twice; the old one is held by nobody either way, so a repeated identity leaves no holder of either. */
  lemma RotateGrantsExactly(s: State, h: HandlerId, org: OrgId, keyring: KeyringId, targets: seq<Target>, newId: KeyringId)
    requires Inv(s) && h !in s.handlers && newId !in s.keyrings && FreshTargets(s, targets)
    requires CanRotate(s, org, keyring, targets)
    ensures var t := Run(s, RotationOf(h, org, keyring, targets, newId));
            && (Holders(t, newId) == Named(targets) <==> DistinctIdentities(targets))
            && (!DistinctIdentities(targets) ==> Holders(t, newId) == {})
            && Holders(t, keyring) == {}
            && newId in t.keyrings && t.keyrings[newId]
               == Keyring(org, s.keyrings[keyring].mode, s.keyrings[keyring].epoch + 1, Some(keyring), true)
            && keyring in t.keyrings && !t.keyrings[keyring].active
  {
    var t := Run(s, RotationOf(h, org, keyring, targets, newId));
    var kept := RevokeKeyringGrants(s.grants, keyring);
    GrantsHaveKeyrings(s, newId);
    RotatedTables(s, h, org, keyring, targets, newId);
    assert forall g :: g in kept ==> kept[g].keyring != newId;
    hide Run, ValidTargets, KeysOk, GrantsOk, RotationOf;
    AdmittedHolders(s, t, kept, org, newId, targets);
    OldHolders(s, t, org, keyring, targets, newId);
  }

  lemma OldHolders(s: State, t: State, org: OrgId, keyring: KeyringId, targets: seq<Target>, newId: KeyringId)
    requires FreshTargets(s, targets) && keyring != newId
    requires t.grants == Admitted(RevokeKeyringGrants(s.grants, keyring), org, newId, targets)
    ensures Holders(t, keyring) == {}
  {
    hide InsertGrants;
    InsertedGrants(RevokeKeyringGrants(s.grants, keyring), org, newId, targets);
  }

  const KEPT: Target := Target(0, 0, true)
  const AGAIN: seq<Target> := [Target(1, 0, true), Target(2, 0, true)]

  /** A creation that has validated its target and inserted its keyring, and has yet to insert the grant. */
  const CREATING: seq<Event> :=
    [AddMember(0, 0)] + ([BeginCreate(0, 0, Standard, true, [KEPT])] + ([InsertKeyring(0, 0)] + []))

  const FIRST_KEYRING: Keyring := Keyring(0, Standard, 1, None, true)

  const CREATED: State :=
    State(map[(0, 0) := true], map[0 := FIRST_KEYRING], map[], map[0 := Granting(0, 0, [KEPT])])

  const GRANTED: State := CREATED.(grants := map[0 := Grant(0, 0, 0, true)], handlers := map[])

  lemma TheCreationWaits()
    ensures Run(INITIAL, CREATING) == CREATED
  {
    var s1 := State(map[(0, 0) := true], map[], map[], map[]);
    var s2 := s1.(handlers := map[0 := Creating(0, Standard, [KEPT])]);
    assert Step(INITIAL, AddMember(0, 0)) == s1;
    assert Step(s1, BeginCreate(0, 0, Standard, true, [KEPT])) == s2;
    assert Step(s2, InsertKeyring(0, 0)) == CREATED;
    hide Step;
    RunOne(INITIAL, AddMember(0, 0), [BeginCreate(0, 0, Standard, true, [KEPT])] + ([InsertKeyring(0, 0)] + []));
    RunOne(s1, BeginCreate(0, 0, Standard, true, [KEPT]), [InsertKeyring(0, 0)] + []);
    RunOne(s2, InsertKeyring(0, 0), []);
  }

  lemma LateGrant(s: State)
    requires s.handlers == map[0 := Granting(0, 0, [KEPT])] && s.grants == map[]
    ensures Step(s, InsertKeyGrants(0)) == s.(grants := map[0 := Grant(0, 0, 0, true)], handlers := map[])
    ensures Run(s, [InsertKeyGrants(0)]) == s.(grants := map[0 := Grant(0, 0, 0, true)], handlers := map[])
  {
    assert [KEPT][1..] == [];
    assert InsertGrants(map[], 0, 0, [KEPT]) == map[0 := Grant(0, 0, 0, true)];
    assert [InsertKeyGrants(0)] + [] == [InsertKeyGrants(0)];
    RunOne(s, InsertKeyGrants(0), []);
  }

  lemma TheGrantIsInserted()
    ensures Run(INITIAL, CREATING + [InsertKeyGrants(0)]) == GRANTED
  {
    hide Run, Step, CREATING;
    TheCreationWaits();
    LateGrant(CREATED);
    RunConcat(INITIAL, CREATING, [InsertKeyGrants(0)]);
  }

  /** The member is removed and its grants are revoked before the creation inserts its grant: that one stays in force
      although its member is gone and no handler is left. */
  lemma RemovalMissesALateGrant()
    ensures var s := Run(INITIAL, CREATING + ([BeginRemove(1, 0, 0)] + ([FinishRemove(1)] + [InsertKeyGrants(0)])));
            0 in s.grants && s.grants[0].active && !IsActiveMember(s, 0, 0) && s.handlers == map[]
  {
    var s1 := CREATED.(members := map[(0, 0) := false], handlers := map[0 := Granting(0, 0, [KEPT]), 1 := Removing(0, 0)]);
    var s2 := CREATED.(members := map[(0, 0) := false]);
    assert Step(CREATED, BeginRemove(1, 0, 0)) == s1;
    assert Step(s1, FinishRemove(1)) == s2;
    hide Step, Run, CREATING;
    TheCreationWaits();
    LateGrant(s2);
    RunOne(CREATED, BeginRemove(1, 0, 0), [FinishRemove(1)] + [InsertKeyGrants(0)]);
    RunOne(s1, FinishRemove(1), [InsertKeyGrants(0)]);
    RunConcat(INITIAL, CREATING, [BeginRemove(1, 0, 0)] + ([FinishRemove(1)] + [InsertKeyGrants(0)]));
  }

  /** The keyring is rotated before it is given its grants: they stay in force on a retired keyring. */
  lemma RotationMissesALateGrant()
    ensures var s := Run(INITIAL, CREATING + (RotationOf(1, 0, 0, [], 1) + [InsertKeyGrants(0)]));
            && 0 in s.grants && s.grants[0].active && s.grants[0].keyring == 0
            && 0 in s.keyrings && !s.keyrings[0].active && s.handlers == map[]
  {
    assert CanRotate(CREATED, 0, 0, []) && FreshTargets(CREATED, []);
    assert RevokeKeyringGrants(map[], 0) == map[] && Admitted(map[], 0, 1, []) == map[];
    hide Run, CREATING, RotationOf, Step;
    TheCreationWaits();
    RotatedTables(CREATED, 1, 0, 0, [], 1);
    LateGrant(Run(CREATED, RotationOf(1, 0, 0, [], 1)));
    RunConcat(CREATED, RotationOf(1, 0, 0, [], 1), [InsertKeyGrants(0)]);
    RunConcat(INITIAL, CREATING, RotationOf(1, 0, 0, [], 1) + [InsertKeyGrants(0)]);
  }

  /** A removal that dies between its two updates leaves a grant in force that nobody is going to revoke. */
  lemma DeadRemovalLeavesAGrant()
    ensures var s := Run(INITIAL, (CREATING + [InsertKeyGrants(0)]) + ([BeginRemove(1, 0, 0)] + ([Stop(1)] + [])));
            0 in s.grants && s.grants[0].active && !IsActiveMember(s, 0, 0) && s.handlers == map[]
  {
    var s1 := GRANTED.(members := map[(0, 0) := false], handlers := map[1 := Removing(0, 0)]);
    assert Step(GRANTED, BeginRemove(1, 0, 0)) == s1;
    assert Step(s1, Stop(1)) == s1.(handlers := map[]);
    hide Step, CREATING;
    TheGrantIsInserted();
    RunOne(GRANTED, BeginRemove(1, 0, 0), [Stop(1)] + []);
    RunOne(s1, Stop(1), []);
    RunConcat(INITIAL, CREATING + [InsertKeyGrants(0)], [BeginRemove(1, 0, 0)] + ([Stop(1)] + []));
  }

  /** A rotation that names its one holder twice: before it the keyring has a holder, after it neither keyring has one. */
  lemma RepeatedIdentityLocksOut()
    ensures Holders(Run(INITIAL, CREATING + [InsertKeyGrants(0)]), 0) == {0}
    ensures var s := Run(INITIAL, (CREATING + [InsertKeyGrants(0)]) + RotationOf(1, 0, 0, AGAIN, 1));
            Holders(s, 0) == {} && Holders(s, 1) == {} && 1 in s.keyrings && s.keyrings[1].active
  {
    assert GRANTED.grants[0].identity == 0;
    assert Holders(GRANTED, 0) == {0};
    assert Inv(GRANTED) && CanRotate(GRANTED, 0, 0, AGAIN) && FreshTargets(GRANTED, AGAIN);
    assert AGAIN[0].identity == AGAIN[1].identity;
    hide Run, CREATING, RotationOf, Inv, Holders;
    TheGrantIsInserted();
    RotateGrantsExactly(GRANTED, 1, 0, 0, AGAIN, 1);
    RunConcat(INITIAL, CREATING + [InsertKeyGrants(0)], RotationOf(1, 0, 0, AGAIN, 1));
  }
}
