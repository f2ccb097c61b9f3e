/** What creations, rotations and removals do to an organization's keys when no other handler comes in between. */
module OrgKeyRuns {
  import opened Options
  import opened OrgKeys

  /** Every key text is valid and every identity an active member of the organization. */
  predicate AllWelcome(s: State, org: OrgId, targets: seq<Target>) {
    forall i :: 0 <= i < |targets| ==>
      targets[i].keysOk && (org, targets[i].identity) in s.members && s.members[(org, targets[i].identity)]
  }

  /** What a creation needs: grants for end-to-end encryption, a key service for a managed key, welcome identities. */
  predicate MayCreate(s: State, org: OrgId, mode: Mode, kmsReady: bool, targets: seq<Target>) {
    && (mode == E2ee ==> |targets| > 0)
    && (mode == EnterpriseManaged ==> kmsReady)
    && AllWelcome(s, org, targets)
  }

  /** A rotation needs a keyring of the organization, of whatever status. */
  predicate MayRotate(s: State, org: OrgId, keyring: KeyringId, targets: seq<Target>) {
    && keyring in s.keyrings && s.keyrings[keyring].org == org
    && (s.keyrings[keyring].mode == E2ee ==> |targets| > 0)
    && AllWelcome(s, org, targets)
  }

  /** Nothing is left of the old grants of the keyring but their rows, and nothing else changed of what was there. */
  predicate OnlyRevoked(s: State, t: State, keyring: KeyringId) {
    forall g :: g in s.grants ==>
      g in t.grants && t.grants[g] == if s.grants[g].keyring == keyring then s.grants[g].(active := false) else s.grants[g]
  }

  /** The new rows are grants of this keyring in force, or there are none. */
  predicate NewGrants(s: State, t: State, org: OrgId, keyring: KeyringId) {
    forall g :: g in t.grants && g !in s.grants ==>
      t.grants[g].org == org && t.grants[g].keyring == keyring && t.grants[g].active
  }

  lemma AdmittedGrants(s: State, kept: map<GrantId, Grant>, org: OrgId, newId: KeyringId, targets: seq<Target>)
    requires FreshTargets(s, targets) && kept.Keys == s.grants.Keys
    ensures var all := Admitted(kept, org, newId, targets);
            && (forall g :: g in kept ==> g in all && all[g] == kept[g])
            && (forall g :: g in all && g !in kept ==>
                  all[g].org == org && all[g].keyring == newId && all[g].active)
  {
    hide InsertGrants;
    if DistinctIdentities(targets) {
      InsertedGrants(kept, org, newId, targets);
      var all := InsertGrants(kept, org, newId, targets);
      forall g | g in all && g !in kept
        ensures all[g].org == org && all[g].keyring == newId && all[g].active
      {
        var i :| 0 <= i < |targets| && targets[i].id == g;
        assert all[targets[i].id] == Grant(org, newId, targets[i].identity, true);
      }
    }
  }

  /** Without a handler the rest of a creation or a rotation cannot happen. */
  lemma NothingFollows(s: State, h: HandlerId, newId: KeyringId)
    requires h !in s.handlers
    ensures Step(s, RetireKeyring(h)) == s && Step(s, RevokeGrants(h)) == s
    ensures Step(s, InsertKeyring(h, newId)) == s && Step(s, InsertKeyGrants(h)) == s
  {
    hide FreshTargets, StepOnce;
  }

  lemma RefusedCreation(s: State, h: HandlerId, org: OrgId, mode: Mode, kmsReady: bool, targets: seq<Target>, newId: KeyringId)
    requires h !in s.handlers && !CanCreate(s, org, mode, kmsReady, targets)
    ensures Run(s, CreationOf(h, org, mode, kmsReady, targets, newId)) == s
  {
    var begin := BeginCreate(h, org, mode, kmsReady, targets);
    assert Step(s, begin) == s;
    hide Step, Run, CanCreate;
    NothingFollows(s, h, newId);
    RunOne(s, begin, [InsertKeyring(h, newId)] + ([InsertKeyGrants(h)] + []));
    RunOne(s, InsertKeyring(h, newId), [InsertKeyGrants(h)] + []);
    RunOne(s, InsertKeyGrants(h), []);
    NoEvents(s);
  }

  lemma NoEvents(s: State)
    ensures Run(s, []) == s
  {
  }

  lemma RefusedRotation(s: State, h: HandlerId, org: OrgId, keyring: KeyringId, targets: seq<Target>, newId: KeyringId)
    requires h !in s.handlers && !CanRotate(s, org, keyring, targets)
    ensures Run(s, RotationOf(h, org, keyring, targets, newId)) == s
  {
    assert Step(s, BeginRotate(h, org, keyring, targets)) == s;
    hide Step, Run, CanRotate;
    NothingFollows(s, h, newId);
    RotationRuns(s, h, org, keyring, targets, newId);
  }

  lemma MayCreateExactly(s: State, org: OrgId, mode: Mode, kmsReady: bool, targets: seq<Target>)
    ensures CanCreate(s, org, mode, kmsReady, targets) <==> MayCreate(s, org, mode, kmsReady, targets)
  {
  }

  lemma MayRotateExactly(s: State, org: OrgId, keyring: KeyringId, targets: seq<Target>)
    ensures CanRotate(s, org, keyring, targets) <==> MayRotate(s, org, keyring, targets)
  {
  }

  /** Undisturbed, a creation adds the keyring, with the grants of exactly the identities it names unless it names one
      twice, exactly if its mode allows it, every key text is valid and every identity is an active member of the
      organization; otherwise it changes nothing. */
  lemma CreatesExactly(s: State, h: HandlerId, org: OrgId, mode: Mode, kmsReady: bool, targets: seq<Target>, newId: KeyringId)
    requires Inv(s) && h !in s.handlers && newId !in s.keyrings && FreshTargets(s, targets)
    ensures var t := Run(s, CreationOf(h, org, mode, kmsReady, targets, newId));
            if MayCreate(s, org, mode, kmsReady, targets) then
              && t.keyrings == s.keyrings[newId := Keyring(org, mode, 1, None, true)]
              && t.members == s.members && t.handlers == s.handlers
              && Holders(t, newId) == (if DistinctIdentities(targets) then Named(targets) else {})
              && (forall g :: g in s.grants ==> g in t.grants && t.grants[g] == s.grants[g])
              && NewGrants(s, t, org, newId)
            else t == s
  {
    MayCreateExactly(s, org, mode, kmsReady, targets);
    hide CreationOf, Run, MayCreate;
    if CanCreate(s, org, mode, kmsReady, targets) {
      GrantsHaveKeyrings(s, newId);
      hide CanCreate, Admitted, GrantsOk, KeysOk;
      CreatedTables(s, h, org, mode, kmsReady, targets, newId);
      AdmittedHolders(s, Run(s, CreationOf(h, org, mode, kmsReady, targets, newId)), s.grants, org, newId, targets);
      AdmittedGrants(s, s.grants, org, newId, targets);
    } else {
      RefusedCreation(s, h, org, mode, kmsReady, targets, newId);
    }
  }

  /** Undisturbed, a rotation retires the keyring, revokes its grants and adds its successor, exactly if the keyring is
      the organization's, its mode allows it, every key text is valid and every identity is an active member of the
      organization; otherwise it changes nothing. */
  lemma RotatesExactly(s: State, h: HandlerId, org: OrgId, keyring: KeyringId, targets: seq<Target>, newId: KeyringId)
    requires Inv(s) && h !in s.handlers && newId !in s.keyrings && FreshTargets(s, targets)
    ensures var t := Run(s, RotationOf(h, org, keyring, targets, newId));
            if MayRotate(s, org, keyring, targets) then
              var current := s.keyrings[keyring];
              && t.keyrings == s.keyrings[keyring := current.(active := false)]
                                         [newId := Keyring(org, current.mode, current.epoch + 1, Some(keyring), true)]
              && t.members == s.members && t.handlers == s.handlers
              && Holders(t, newId) == (if DistinctIdentities(targets) then Named(targets) else {})
              && OnlyRevoked(s, t, keyring) && NewGrants(s, t, org, newId)
            else t == s
  {
    MayRotateExactly(s, org, keyring, targets);
    hide RotationOf, Run, MayRotate;
    if CanRotate(s, org, keyring, targets) {
      var kept := RevokeKeyringGrants(s.grants, keyring);
      RevokedKeyrings(s.grants, keyring);
      GrantsHaveKeyrings(s, newId);
      hide CanRotate, Admitted, GrantsOk, KeysOk;
      RotatedTables(s, h, org, keyring, targets, newId);
      AdmittedHolders(s, Run(s, RotationOf(h, org, keyring, targets, newId)), kept, org, newId, targets);
      AdmittedGrants(s, kept, org, newId, targets);
    } else {
      RefusedRotation(s, h, org, keyring, targets, newId);
    }
  }

  lemma ConsistentOne(s: State, e: Event, rest: seq<Event>)
    ensures ConsistentRun(s, [e] + rest) <==> Consistent(s, e) && ConsistentRun(Step(s, e), rest)
  {
    hide Step, Consistent;
    assert ([e] + rest)[1..] == rest;
  }

  lemma OtherEventsAreConsistent(s: State, e: Event)
    requires !e.InsertKeyGrants? && !e.Stop?
    ensures Consistent(s, e)
  {
  }

  /** The insert of a keyring and then of its grants fits if the targets are active members. */
  lemma InsertsFit(s: State, h: HandlerId, newId: KeyringId)
    requires h in s.handlers && (s.handlers[h].Creating? || s.handlers[h].Succeeding?)
    requires AllWelcome(s, NewKeyring(s.handlers[h]).org, s.handlers[h].targets)
    ensures ConsistentRun(s, Succession(h, newId))
  {
    hide InsertGrants, IndexAdmits, FreshTargets, BeingRemoved, BeingRetired;
    var t := Step(s, InsertKeyring(h, newId));
    assert Consistent(t, InsertKeyGrants(h));
    hide Step;
    OtherEventsAreConsistent(s, InsertKeyring(h, newId));
    ConsistentOne(s, InsertKeyring(h, newId), [InsertKeyGrants(h)] + []);
    ConsistentOne(t, InsertKeyGrants(h), []);
    hide Consistent;
  }

  lemma RefusedIsConsistent(s: State, h: HandlerId, newId: KeyringId)
    requires h !in s.handlers
    ensures ConsistentRun(s, Succession(h, newId))
    ensures ConsistentRun(s, [RetireKeyring(h)] + ([RevokeGrants(h)] + Succession(h, newId)))
  {
    NothingFollows(s, h, newId);
    assert Consistent(s, InsertKeyGrants(h)) by { hide FreshTargets; }
    hide *;
    OtherEventsAreConsistent(s, InsertKeyring(h, newId));
    OtherEventsAreConsistent(s, RetireKeyring(h));
    OtherEventsAreConsistent(s, RevokeGrants(h));
    NothingInconsistent(s);
    ConsistentOne(s, InsertKeyGrants(h), []);
    ConsistentOne(s, InsertKeyring(h, newId), [InsertKeyGrants(h)] + []);
    SuccessionIs(h, newId);
    ConsistentOne(s, RevokeGrants(h), Succession(h, newId));
    ConsistentOne(s, RetireKeyring(h), [RevokeGrants(h)] + Succession(h, newId));
  }

  lemma NothingInconsistent(s: State)
    ensures ConsistentRun(s, [])
  {
  }

  lemma SuccessionIs(h: HandlerId, newId: KeyringId)
    ensures Succession(h, newId) == [InsertKeyring(h, newId)] + ([InsertKeyGrants(h)] + [])
  {
  }

  /** Undisturbed, a creation and a rotation of whatever targets keep the invariant, so that grants in force belong to
      active members and active keyrings. */
  lemma UndisturbedCreationIsConsistent(s: State, h: HandlerId, org: OrgId, mode: Mode, kmsReady: bool,
                                        targets: seq<Target>, newId: KeyringId)
    requires Inv(s) && h !in s.handlers
    ensures var events := CreationOf(h, org, mode, kmsReady, targets, newId);
            ConsistentRun(s, events) && Inv(Run(s, events))
  {
    var begin := BeginCreate(h, org, mode, kmsReady, targets);
    var begun := Step(s, begin);
    MayCreateExactly(s, org, mode, kmsReady, targets);
    OtherEventsAreConsistent(s, begin);
    if CanCreate(s, org, mode, kmsReady, targets) {
      assert begun == s.(handlers := s.handlers[h := Creating(org, mode, targets)]);
      InsertsFit(begun, h, newId) by { hide Inv; }
    } else {
      assert begun == s;
      RefusedIsConsistent(s, h, newId);
    }
    ConsistentOne(s, begin, Succession(h, newId));
    hide Inv, Run, ConsistentRun, Step, Consistent, CanCreate;
    InvThroughoutExactly(s, CreationOf(h, org, mode, kmsReady, targets, newId));
  }

  lemma UndisturbedRotationIsConsistent(s: State, h: HandlerId, org: OrgId, keyring: KeyringId, targets: seq<Target>,
                                        newId: KeyringId)
    requires Inv(s) && h !in s.handlers
    ensures var events := RotationOf(h, org, keyring, targets, newId);
            ConsistentRun(s, events) && Inv(Run(s, events))
  {
    var begin := BeginRotate(h, org, keyring, targets);
    var begun := Step(s, begin);
    MayRotateExactly(s, org, keyring, targets);
    OtherEventsAreConsistent(s, begin);
    if CanRotate(s, org, keyring, targets) {
      RotationRevokes(s, h, org, keyring, targets) by { hide Inv; }
      var current := s.keyrings[keyring];
      var retired := Step(begun, RetireKeyring(h));
      var revoked := Step(retired, RevokeGrants(h));
      InsertsFit(revoked, h, newId) by { hide Inv; }
      OtherEventsAreConsistent(begun, RetireKeyring(h));
      OtherEventsAreConsistent(retired, RevokeGrants(h));
      ConsistentOne(retired, RevokeGrants(h), Succession(h, newId));
      ConsistentOne(begun, RetireKeyring(h), [RevokeGrants(h)] + Succession(h, newId));
    } else {
      assert begun == s;
      RefusedIsConsistent(s, h, newId);
    }
    ConsistentOne(s, begin, [RetireKeyring(h)] + ([RevokeGrants(h)] + Succession(h, newId)));
    hide Inv, Run, ConsistentRun, Step, Consistent, CanRotate;
    InvThroughoutExactly(s, RotationOf(h, org, keyring, targets, newId));
  }

  /** Undisturbed, a removal ends the membership and takes exactly the identity's grants in the organization out of
      force; joining again brings the membership back and no grant. */
  lemma RemovesExactly(s: State, h: HandlerId, org: OrgId, identity: IdentityId)
    requires h !in s.handlers
    ensures var t := Run(s, [BeginRemove(h, org, identity)] + ([FinishRemove(h)] + []));
            var u := Run(t, [AddMember(org, identity)] + []);
            && t.keyrings == s.keyrings && t.handlers == s.handlers && t.grants.Keys == s.grants.Keys
            && t.members == (if (org, identity) in s.members then s.members[(org, identity) := false] else s.members)
            && (forall g :: g in s.grants ==>
                  t.grants[g] == if (org, identity) in s.members && s.grants[g].org == org && s.grants[g].identity == identity
                                 then s.grants[g].(active := false) else s.grants[g])
            && u == t.(members := t.members[(org, identity) := true])
  {
    var begin, finish := BeginRemove(h, org, identity), FinishRemove(h);
    var begun := s.(members := s.members[(org, identity) := false], handlers := s.handlers[h := Removing(org, identity)]);
    var t := Run(s, [begin] + ([finish] + []));
    RunOne(s, begin, [finish] + []);
    RunOne(Step(s, begin), finish, []);
    RunOne(t, AddMember(org, identity), []);
    hide FreshTargets, InsertGrants, CanCreate, CanRotate;
    if (org, identity) in s.members {
      assert Step(s, begin) == begun;
      assert begun.handlers - {h} == s.handlers;
    } else {
      assert Step(s, begin) == s && Step(s, finish) == s;
    }
  }
}
