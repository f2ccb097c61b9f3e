/** What becomes of the app key of a session while tabs sign in, refresh and hear of each other. */
module SessionKeys {
  import opened Options
  import opened TokenServer
  import opened AveSession
  import opened SessionSystem
  import opened SessionRuns
  import RefreshErrors

  /** Every snapshot a tab has, is about to store or to take, satisfies this on its key. */
  ghost predicate TabKeys(tab: Tab, keys: set<Option<string>>) {
    && KeyIn(tab.snapshot, keys)
    && (!tab.write.NotWriting? ==> KeyIn(tab.write.next, keys))
    && match tab.refresh
       case Resting => true
       case WaitingForLock => true
       case ReadingDisk(mem) => KeyIn(mem, keys)
       case Deciding(mem, disk) => KeyIn(mem, keys) && KeyIn(disk, keys)
       case AwaitingReply(_, prev) => prev.appKey in keys
       case Saving(next) => next.appKey in keys
       case Saved(next) => next.appKey in keys
  }

  predicate KeyIn(x: Option<Snapshot>, keys: set<Option<string>>) {
    x.Some? ==> x.value.appKey in keys
  }

  ghost predicate KeysAre(s: System, keys: set<Option<string>>) {
    KeyIn(s.storage, keys) && forall t :: t in s.tabs ==> TabKeys(s.tabs[t], keys)
  }

  /** The key of the snapshot that a sign-in of the tab or a new key is about to store. */
  function NewKey(s: System, e: Event): Option<string>
    requires (e.SetTokens? || e.SetAppKey?) && e.tab in s.tabs
  {
    match e
    case SetAppKey(_, key) => key
    case SetTokens(t, tr) =>
      if tr.appKey.Some? then tr.appKey
      else if tr.appKeyReset || s.tabs[t].snapshot.None? then None
      else s.tabs[t].snapshot.value.appKey
  }

  ghost predicate StoresOneOf(s: System, e: Event, keys: set<Option<string>>) {
    CanHappen(s, e) && (e.SetTokens? || e.SetAppKey?) ==> NewKey(s, e) in keys
  }

  lemma ChangedTab(s: System, u: System, t: TabId, keys: set<Option<string>>)
    requires KeysAre(s, keys) && KeyIn(u.storage, keys) && t in u.tabs && u.tabs == s.tabs[t := u.tabs[t]]
    ensures KeysAre(u, keys) <==> TabKeys(u.tabs[t], keys)
  {
    hide TabKeys;
  }

  predicate Quiet(e: Event) {
    !e.ServerStep? && !e.DecideRefresh? && !e.ReceiveReply? && !e.LoseReply? && !e.OpenTab?
  }

  lemma QuietKeepsKeysExactly(s: System, e: Event, keys: set<Option<string>>)
    requires KeysAre(s, keys) && CanHappen(s, e) && Quiet(e)
    ensures KeysAre(Advance(s, e), keys) <==> StoresOneOf(s, e, keys)
  {
    var u := Advance(s, e);
    assert TabKeys(s.tabs[e.tab], keys);
    hide Step, Enabled, DecideStep, ReceiveStep, FailStep, FamiliesOf, TokenOf, RefreshErrors.IsStatusText, CanHappen,
         KeysAre;
    assert u.tabs == s.tabs[e.tab := u.tabs[e.tab]];
    StorageKey(s, e, keys);
    ChangedTab(s, u, e.tab, keys);
  }

  lemma StorageKey(s: System, e: Event, keys: set<Option<string>>)
    requires KeysAre(s, keys) && CanHappen(s, e) && Quiet(e)
    ensures KeyIn(Advance(s, e).storage, keys)
  {
    assert TabKeys(s.tabs[e.tab], keys);
    hide Step, Enabled, DecideStep, ReceiveStep, FailStep, FamiliesOf, TokenOf, RefreshErrors.IsStatusText;
  }

  lemma DecisionKeepsKeys(s: System, e: Event, keys: set<Option<string>>)
    requires KeysAre(s, keys) && CanHappen(s, e) && e.DecideRefresh?
    ensures KeysAre(Advance(s, e), keys)
  {
    var u := Advance(s, e);
    assert TabKeys(s.tabs[e.tab], keys);
    hide Step, Enabled, ReceiveStep, FailStep, FamiliesOf, TokenOf, RefreshErrors.IsStatusText, CanHappen, DiskFresh;
    assert u == DecideStep(s, e.tab, e.h, e.appId, e.authenticated, e.now);
    ChangedTab(s, u, e.tab, keys);
  }

  lemma FailureKeepsKeys(s: System, t: TabId, failure: RefreshErrors.Failure, keys: set<Option<string>>)
    requires KeysAre(s, keys) && t in s.tabs && s.tabs[t].refresh.AwaitingReply?
    ensures KeysAre(FailStep(s, t, failure), keys)
  {
    hide RefreshErrors.ShouldSignOut;
    assert TabKeys(s.tabs[t], keys);
    ChangedTab(s, FailStep(s, t, failure), t, keys);
  }

  lemma ReplyKeepsKeys(s: System, t: TabId, accessToken: nat, expiresAtMs: Time, failure: RefreshErrors.Failure,
                       keys: set<Option<string>>)
    requires KeysAre(s, keys) && t in s.tabs && s.tabs[t].refresh.AwaitingReply? && ReplyReady(s, t)
    ensures KeysAre(ReceiveStep(s, t, accessToken, expiresAtMs, failure), keys)
  {
    hide FailStep, TokenOf;
    assert TabKeys(s.tabs[t], keys);
    var u := ReceiveStep(s, t, accessToken, expiresAtMs, failure);
    FailureKeepsKeys(s, t, failure, keys);
    if s.server.handlers[s.tabs[t].refresh.h].reply.Refreshed? {
      ChangedTab(s, u, t, keys);
    }
  }

  /** A step keeps the keys among these exactly when it does not begin to store another one. */
  lemma StepKeepsKeysExactly(s: System, e: Event, keys: set<Option<string>>)
    requires KeysAre(s, keys)
    ensures KeysAre(Do(s, e), keys) <==> StoresOneOf(s, e, keys)
  {
    if CanHappen(s, e) {
      if Quiet(e) {
        QuietKeepsKeysExactly(s, e, keys);
      } else {
        OthersKeepKeys(s, e, keys);
      }
    }
    hide KeysAre, CanHappen, Advance;
  }

  lemma OthersKeepKeys(s: System, e: Event, keys: set<Option<string>>)
    requires KeysAre(s, keys) && CanHappen(s, e) && !Quiet(e)
    ensures KeysAre(Advance(s, e), keys)
  {
    match e
    case DecideRefresh(_, _, _, _, _) => DecisionKeepsKeys(s, e, keys);
    case ReceiveReply(t, accessToken, expiresAtMs, refusal, statusText) =>
      hide KeysAre, DecideStep, SaveWriteStep, FailStep, ReceiveStep, RefreshErrors.Refuse, RefreshErrors.IsStatusText;
      ReplyKeepsKeys(s, t, accessToken, expiresAtMs, RefreshErrors.Refuse(refusal, statusText, ""), keys);
    case LoseReply(t, failure) =>
      hide KeysAre, DecideStep, SaveWriteStep, FailStep, ReceiveStep, RefreshErrors.Refuse, RefreshErrors.IsStatusText;
      FailureKeepsKeys(s, t, failure, keys);
    case OpenTab(t) =>
      hide DecideStep, SaveWriteStep, FailStep, ReceiveStep, RefreshErrors.Refuse, RefreshErrors.IsStatusText;
      ChangedTab(s, Put(s, t, NEW_TAB), t, keys);
    case ServerStep(_) =>
      hide Step, Enabled;
  }

  ghost predicate KeysThroughout(s: System, events: seq<Event>, keys: set<Option<string>>)
    decreases |events|
  {
    KeysAre(s, keys) && (events == [] || KeysThroughout(Do(s, events[0]), events[1..], keys))
  }

  ghost predicate StoresOnly(s: System, events: seq<Event>, keys: set<Option<string>>)
    decreases |events|
  {
    events == [] || (StoresOneOf(s, events[0], keys) && StoresOnly(Do(s, events[0]), events[1..], keys))
  }

  /** Whatever tabs, storage and server do, the snapshots have keys among these throughout exactly when no sign-in and
      no page sets another one: no refresh, adoption, reload or hydration loses or exchanges a key. A sign-in sets
      the key of its response; one without a key keeps the tab's, unless it says that the key was reset. */
  lemma {:induction false} KeysThroughoutExactly(s: System, events: seq<Event>, keys: set<Option<string>>)
    requires KeysAre(s, keys)
    ensures KeysThroughout(s, events, keys) <==> StoresOnly(s, events, keys)
    ensures StoresOnly(s, events, keys) ==> KeysAre(After(s, events), keys)
    decreases |events|
  {
    hide KeysAre, Do, StoresOneOf;
    if events != [] {
      StepKeepsKeysExactly(s, events[0], keys);
      if StoresOneOf(s, events[0], keys) {
        KeysThroughoutExactly(Do(s, events[0]), events[1..], keys);
      }
    }
  }

  /** What a refresh leaves in its tab, whatever else went on meanwhile. */
  lemma RefreshOutcome(s: System, e: Event)
    requires CanHappen(s, e) && (e.DecideRefresh? || e.ReceiveReply? || e.AfterRefresh?)
    ensures var refresh, u := s.tabs[e.tab].refresh, Advance(s, e);
            e.tab in u.tabs &&
            match e
            case DecideRefresh(t, _, _, _, _) =>
              refresh.Deciding? && (refresh.mem.Some? && Newer(refresh.disk, refresh.mem.value) ==>
                u.tabs[t].snapshot.Some? && Adopted(refresh.mem.value, refresh.disk.value, u.tabs[t].snapshot.value))
            case ReceiveReply(t, accessToken, expiresAtMs, _, _) =>
              var reply := s.server.handlers[refresh.h].reply;
              reply.Refreshed? ==>
                u.tabs[t].refresh == Saving(Snapshot(accessToken, Some(reply.token), refresh.prev.appKey, false, expiresAtMs))
            case AfterRefresh(t) => refresh.Saved? && u.tabs[t].snapshot == Some(refresh.next)
            case _ => true
  {
    hide Step, Enabled, FailStep, FamiliesOf, TokenOf, RefreshErrors.IsStatusText, RefreshErrors.Refuse, SaveWriteStep;
    match e
    case DecideRefresh(t, h, appId, authenticated, now) =>
      var refresh := s.tabs[t].refresh;
      assert refresh.mem.Some? ==> (Newer(refresh.disk, refresh.mem.value) <==> AveSession.Decide(s.tabs[t]).Adopt?);
      assert Advance(s, e) == DecideStep(s, t, h, appId, authenticated, now);
    case ReceiveReply(t, accessToken, expiresAtMs, refusal, statusText) =>
      var failure := RefreshErrors.Refuse(refusal, statusText, "");
      assert Advance(s, e) == ReceiveStep(s, t, accessToken, expiresAtMs, failure);
      FailureKeepsTabs(s, t, failure);
    case AfterRefresh(t) =>
      assert Advance(s, e).tabs[t] == FinishRefresh(s.tabs[t]);
  }

  lemma FailureKeepsTabs(s: System, t: TabId, failure: RefreshErrors.Failure)
    requires t in s.tabs && s.tabs[t].refresh.AwaitingReply?
    ensures t in FailStep(s, t, failure).tabs
  {
    hide RefreshErrors.ShouldSignOut;
  }

  /** While no other key than this one is set, a refresh saves the key of the snapshot it refreshes, and a tab that
      adopts the stored snapshot keeps the key if it has it, and otherwise takes the stored one. */
  lemma RefreshNeverLosesTheKey(s: System, events: seq<Event>, e: Event, key: string)
    requires KeysAre(s, {None, Some(key)}) && StoresOnly(s, events, {None, Some(key)})
    requires CanHappen(After(s, events), e) && (e.DecideRefresh? || e.ReceiveReply? || e.AfterRefresh?)
    ensures var t := After(s, events);
            var refresh, u := t.tabs[e.tab].refresh, Advance(t, e);
            e.tab in u.tabs &&
            match e
            case DecideRefresh(i, _, _, _, _) =>
              refresh.Deciding? && (refresh.mem.Some? && Newer(refresh.disk, refresh.mem.value) ==>
                && u.tabs[i].snapshot.Some?
                && u.tabs[i].snapshot.value.appKey
                   == if refresh.mem.value.appKey == Some(key) then Some(key) else refresh.disk.value.appKey)
            case ReceiveReply(i, _, _, _, _) =>
              t.server.handlers[refresh.h].reply.Refreshed? ==>
                u.tabs[i].refresh.Saving? && u.tabs[i].refresh.next.appKey == refresh.prev.appKey
            case AfterRefresh(i) => refresh.Saved? && u.tabs[i].snapshot == Some(refresh.next)
            case _ => true
  {
    var t := After(s, events);
    hide Advance, CanHappen, After, StoresOnly, KeysThroughout, Newer, Adopted;
    KeysThroughoutExactly(s, events, {None, Some(key)});
    RefreshOutcome(t, e);
    assert e.tab in t.tabs by { hide KeysAre; TabExists(t, e); }
    assert TabKeys(t.tabs[e.tab], {None, Some(key)});
    hide KeysAre;
    if e.DecideRefresh? {
      AdoptedKey(t.tabs[e.tab].refresh, Advance(t, e).tabs[e.tab].snapshot, key);
    }
  }

  lemma TabExists(s: System, e: Event)
    requires CanHappen(s, e) && !e.ServerStep? && !e.OpenTab?
    ensures e.tab in s.tabs
  {
    hide Step, Enabled, RefreshErrors.IsStatusText;
  }

  lemma AdoptedKey(refresh: RefreshPhase, snapshot: Option<Snapshot>, key: string)
    requires refresh.Deciding?
    ensures refresh.mem.Some? && refresh.disk.Some? && snapshot.Some?
            && KeyIn(refresh.mem, {None, Some(key)}) && KeyIn(refresh.disk, {None, Some(key)})
            && Adopted(refresh.mem.value, refresh.disk.value, snapshot.value)
            ==> snapshot.value.appKey == if refresh.mem.value.appKey == Some(key) then Some(key) else refresh.disk.value.appKey
    ensures forall mem :: Newer(refresh.disk, mem) ==> refresh.disk.Some?
  {
  }

  /** A tab that adopts the stored snapshot ends with the stored key exactly if there is one or the tab had none, and
      with the key it had exactly if no other one is stored. */
  lemma AdoptsTheStoredKeyExactly(s: System, t: TabId, h: HandlerId, appId: nat, now: Time)
    requires CanRefresh(s, t) && h !in s.server.handlers && Newer(s.storage, s.tabs[t].snapshot.value)
    ensures var u := After(s, [BeginRefresh(t), AcquireLock(t), LoadInLock(t, false), DecideRefresh(t, h, appId, true, now)]);
            && u.storage == s.storage && s.storage.Some? && t in u.tabs && u.tabs[t].snapshot.Some?
            && u.tabs[t].snapshot.value.appEncryptionWasReset == s.storage.value.appEncryptionWasReset
            && (u.tabs[t].snapshot.value.appKey == s.storage.value.appKey
                <==> s.storage.value.appKey.Some? || s.tabs[t].snapshot.value.appKey.None?)
            && (u.tabs[t].snapshot.value.appKey == s.tabs[t].snapshot.value.appKey
                <==> s.storage.value.appKey.None? || s.storage.value.appKey == s.tabs[t].snapshot.value.appKey)
  {
    hide After, TokenServer.Apply;
    RefreshDecidesExactly(s, t, false, h, appId, true, now);
  }

  /** So a reset does not reach a tab that missed it: another tab signs in, the app key is reset and none comes with the
      response; the tab adopts that snapshot at its next refresh, the mark of the reset included, and keeps the old key. */
  lemma AdoptionUndoesAReset(s: System, t: TabId, o: TabId, tr: TokenResponse, h: HandlerId, appId: nat, now: Time)
    requires CanRefresh(s, t) && h !in s.server.handlers && s.tabs[t].snapshot.value.appKey.Some?
    requires o in s.tabs && o != t && s.tabs[o].write.NotWriting?
    requires tr.appKeyReset && tr.appKey.None? && tr.expiresAtMs > s.tabs[t].snapshot.value.expiresAtMs
    ensures var u := After(s, [SetTokens(o, tr), SaveWrite(o), AfterWrite(o)]);
            var v := After(u, [BeginRefresh(t), AcquireLock(t), LoadInLock(t, false), DecideRefresh(t, h, appId, true, now)]);
            && v.storage.Some? && v.storage.value.appKey == None && v.storage.value.appEncryptionWasReset
            && t in v.tabs && v.tabs[t].snapshot.Some? && v.tabs[t].snapshot.value.appEncryptionWasReset
            && v.tabs[t].snapshot.value.appKey == s.tabs[t].snapshot.value.appKey
  {
    hide After, Do, TokenServer.Apply;
    SignInReachesAllTabs(s, o, tr, o);
    var u := After(s, [SetTokens(o, tr), SaveWrite(o), AfterWrite(o)]);
    assert CanRefresh(u, t) && Newer(u.storage, u.tabs[t].snapshot.value);
    RefreshDecidesExactly(u, t, false, h, appId, true, now);
  }
}
