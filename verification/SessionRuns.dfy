/** What the operations of a tab do from their first await to their last: sign-in, sign-out and refresh. */
module SessionRuns {
  import opened Options
  import opened TokenServer
  import opened RefreshChains
  import opened RefreshTheorems
  import opened AveSession
  import opened SessionSystem
  import RefreshErrors

  /** The snapshot that follows one when a token response arrives: tokens and expiry are the response's; a refresh
      token that is missing stays; a key that is missing stays unless the response says it was reset. */
  ghost predicate Follows(previous: Option<Snapshot>, tr: TokenResponse, next: Snapshot) {
    && next.accessToken == tr.accessToken && next.expiresAtMs == tr.expiresAtMs
    && next.appEncryptionWasReset == tr.appKeyReset
    && (tr.refreshToken.Some? ==> next.refreshToken == tr.refreshToken)
    && (tr.refreshToken.None? && previous.Some? ==> next.refreshToken == previous.value.refreshToken)
    && (tr.refreshToken.None? && previous.None? ==> next.refreshToken == None)
    && (tr.appKey.Some? ==> next.appKey == tr.appKey)
    && (tr.appKey.None? && tr.appKeyReset ==> next.appKey == None)
    && (tr.appKey.None? && !tr.appKeyReset && previous.Some? ==> next.appKey == previous.value.appKey)
    && (tr.appKey.None? && previous.None? ==> next.appKey == None)
  }

  /** The snapshot a tab adopts: the stored one, but for a refresh token or a key that only the memory has. */
  ghost predicate Adopted(mem: Snapshot, disk: Snapshot, next: Snapshot) {
    && next.accessToken == disk.accessToken && next.expiresAtMs == disk.expiresAtMs
    && next.appEncryptionWasReset == disk.appEncryptionWasReset
    && next.refreshToken == (if disk.refreshToken.Some? then disk.refreshToken else mem.refreshToken)
    && next.appKey == (if disk.appKey.Some? then disk.appKey else mem.appKey)
  }

  lemma AfterOne(s: System, a: Event)
    ensures After(s, [a]) == Do(s, a)
  {
    hide Do;
    assert [a][1..] == [];
    assert After(s, [a]) == After(Do(s, a), []);
  }

  lemma AfterMore(s: System, a: Event, rest: seq<Event>)
    ensures After(s, [a] + rest) == After(Do(s, a), rest)
  {
    hide Do;
    assert ([a] + rest)[1..] == rest;
  }

  lemma AfterThree(s: System, a: Event, b: Event, c: Event)
    ensures After(s, [a, b, c]) == Do(Do(Do(s, a), b), c)
  {
    hide Do;
    assert [a, b, c] == [a] + ([b] + [c]);
    AfterMore(s, a, [b] + [c]);
    AfterMore(Do(s, a), b, [c]);
    AfterOne(Do(Do(s, a), b), c);
  }

  lemma AfterFour(s: System, a: Event, b: Event, c: Event, d: Event)
    ensures After(s, [a, b, c, d]) == Do(Do(Do(Do(s, a), b), c), d)
  {
    hide Do;
    assert [a, b, c, d] == [a] + [b, c, d];
    AfterMore(s, a, [b, c, d]);
    AfterThree(Do(s, a), b, c, d);
  }

  /** One tab and the storage of the system changed; for the rest, only what is recorded about tokens may have. */
  ghost predicate OnlyTab(s: System, u: System, t: TabId) {
    && u.server == s.server && u.lock == s.lock && u.presented == s.presented && u.refused == s.refused
    && u.tabs.Keys == s.tabs.Keys && t in s.tabs && u.tabs[t].refresh == s.tabs[t].refresh
    && forall o :: o in s.tabs && o != t ==> u.tabs[o] == s.tabs[o]
  }

  lemma WritesAndFinishes(s: System, t: TabId, next: Option<Snapshot>)
    requires t in s.tabs && s.tabs[t].write.Writing? && s.tabs[t].write.next == next
    ensures var u := Do(Do(s, SaveWrite(t)), AfterWrite(t));
            && OnlyTab(s, u, t) && u.storage == next && u.tabs[t].write.NotWriting?
            && (s.tabs[t].write.kind.SettingTokens? ==>
                  u.tabs[t].snapshot == next && u.tabs[t].status.SignedIn? && u.tabs[t].hydrated)
            && (s.tabs[t].write.kind.SettingAppKey? ==>
                  && u.tabs[t].snapshot == next && u.tabs[t].status == s.tabs[t].status
                  && u.tabs[t].hydrated == s.tabs[t].hydrated)
            && (s.tabs[t].write.kind.SigningOut? ==>
                  u.tabs[t].snapshot == s.tabs[t].snapshot && u.tabs[t].status.SignedOut? && u.tabs[t].hydrated)
  {
    hide Step, Enabled, DecideStep, ReceiveStep, FailStep, FamiliesOf, TokenOf, RefreshErrors.IsStatusText;
    var saved := Do(s, SaveWrite(t));
    assert saved.tabs[t] == s.tabs[t].(write := Written(s.tabs[t].write.kind, next)) && saved.storage == next;
    var u := Do(saved, AfterWrite(t));
    assert u == Put(saved, t, FinishWrite(saved.tabs[t]));
  }

  /** Undisturbed, a sign-in stores the snapshot that follows the tab's one, and the tab and every tab that hears of it
      have it. */
  lemma SignInReachesAllTabs(s: System, t: TabId, tr: TokenResponse, o: TabId)
    requires t in s.tabs && s.tabs[t].write.NotWriting? && o in s.tabs
    ensures var u := After(s, [SetTokens(t, tr), SaveWrite(t), AfterWrite(t)]);
            var v := Do(u, ReloadTab(o));
            && OnlyTab(s, u, t) && u.storage.Some? && Follows(s.tabs[t].snapshot, tr, u.storage.value)
            && u.tabs[t].snapshot == u.storage && u.tabs[t].status.SignedIn? && u.tabs[t].hydrated
            && v.storage == u.storage && v.server == s.server
            && v.tabs == u.tabs[o := u.tabs[o].(snapshot := u.storage, status := SignedIn)]
  {
    var next := SnapshotFromTokenResponse(tr, s.tabs[t].snapshot);
    assert Follows(s.tabs[t].snapshot, tr, next);
    SetTokensBegins(s, t, tr);
    AfterThree(s, SetTokens(t, tr), SaveWrite(t), AfterWrite(t));
    var begun := Do(s, SetTokens(t, tr));
    hide SnapshotFromTokenResponse, After, Follows, Do;
    WritesAndFinishes(begun, t, Some(next));
    Reloads(Do(Do(begun, SaveWrite(t)), AfterWrite(t)), o);
  }

  lemma SetTokensBegins(s: System, t: TabId, tr: TokenResponse)
    requires t in s.tabs && s.tabs[t].write.NotWriting?
    ensures var u := Do(s, SetTokens(t, tr));
            && OnlyTab(s, u, t) && u.storage == s.storage
            && u.tabs[t] == s.tabs[t].(
                 write := Writing(SettingTokens, Some(SnapshotFromTokenResponse(tr, s.tabs[t].snapshot))))
  {
    hide Step, Enabled, DecideStep, ReceiveStep, FailStep, FamiliesOf, TokenOf, RefreshErrors.IsStatusText,
         SnapshotFromTokenResponse;
  }

  lemma Reloads(s: System, t: TabId)
    requires t in s.tabs
    ensures Do(s, ReloadTab(t)) ==
            if s.storage.Some? then s.(tabs := s.tabs[t := s.tabs[t].(snapshot := s.storage, status := SignedIn)]) else s
  {
    hide Step, Enabled, DecideStep, ReceiveStep, FailStep, FamiliesOf, TokenOf, RefreshErrors.IsStatusText;
    assert s.tabs[t := s.tabs[t]] == s.tabs;
  }

  /** Undisturbed, a sign-out empties the storage, and the tab and every tab that hears of it are signed out. */
  lemma SignOutReachesAllTabs(s: System, t: TabId, o: TabId)
    requires t in s.tabs && s.tabs[t].write.NotWriting? && o in s.tabs
    ensures var u := After(s, [SignOut(t), SaveWrite(t), AfterWrite(t)]);
            var v := Do(u, PeerSignOut(o));
            && OnlyTab(s, u, t) && u.storage == None
            && u.tabs[t].snapshot == None && u.tabs[t].status.SignedOut? && u.tabs[t].hydrated
            && v == u.(tabs := u.tabs[o := u.tabs[o].(snapshot := None, status := SignedOut, hydrated := true)])
  {
    SignOutBegins(s, t);
    AfterThree(s, SignOut(t), SaveWrite(t), AfterWrite(t));
    var begun := Do(s, SignOut(t));
    hide After, Do;
    WritesAndFinishes(begun, t, None);
    HearsSignOut(Do(Do(begun, SaveWrite(t)), AfterWrite(t)), o);
  }

  lemma SignOutBegins(s: System, t: TabId)
    requires t in s.tabs && s.tabs[t].write.NotWriting?
    ensures var u := Do(s, SignOut(t));
            && OnlyTab(s, u, t) && u.storage == s.storage
            && u.tabs[t] == s.tabs[t].(snapshot := None, write := Writing(SigningOut, None))
  {
    hide Step, Enabled, DecideStep, ReceiveStep, FailStep, FamiliesOf, TokenOf, RefreshErrors.IsStatusText;
  }

  lemma HearsSignOut(s: System, t: TabId)
    requires t in s.tabs
    ensures Do(s, PeerSignOut(t))
         == s.(tabs := s.tabs[t := s.tabs[t].(snapshot := None, status := SignedOut, hydrated := true)])
  {
    hide Step, Enabled, DecideStep, ReceiveStep, FailStep, FamiliesOf, TokenOf, RefreshErrors.IsStatusText;
  }

  /** Undisturbed, a key that is set replaces the key of the stored snapshot and of the tab's, and nothing else; a tab
      without a snapshot cannot set one. */
  lemma AppKeyReplacesTheKey(s: System, t: TabId, key: Option<string>)
    requires t in s.tabs && s.tabs[t].write.NotWriting?
    ensures var u := After(s, [SetAppKey(t, key), SaveWrite(t), AfterWrite(t)]);
            if s.tabs[t].snapshot.None? then u == s
            else
              && OnlyTab(s, u, t) && u.storage == Some(s.tabs[t].snapshot.value.(appKey := key))
              && u.tabs[t] == s.tabs[t].(snapshot := u.storage)
  {
    AfterThree(s, SetAppKey(t, key), SaveWrite(t), AfterWrite(t));
    SetAppKeyBegins(s, t, key);
    hide After;
    if s.tabs[t].snapshot.None? {
      NothingToWrite(s, t);
    } else {
      var begun := Do(s, SetAppKey(t, key));
      hide Do;
      WritesAndFinishes(begun, t, Some(s.tabs[t].snapshot.value.(appKey := key)));
    }
  }

  lemma SetAppKeyBegins(s: System, t: TabId, key: Option<string>)
    requires t in s.tabs && s.tabs[t].write.NotWriting?
    ensures var u := Do(s, SetAppKey(t, key));
            if s.tabs[t].snapshot.None? then u == s
            else
              && OnlyTab(s, u, t) && u.storage == s.storage
              && u.tabs[t] == s.tabs[t].(write := Writing(SettingAppKey, Some(s.tabs[t].snapshot.value.(appKey := key))))
  {
    hide Step, Enabled, DecideStep, ReceiveStep, FailStep, FamiliesOf, TokenOf, RefreshErrors.IsStatusText;
  }

  lemma NothingToWrite(s: System, t: TabId)
    requires t in s.tabs && s.tabs[t].write.NotWriting?
    ensures Do(s, SaveWrite(t)) == s && Do(s, AfterWrite(t)) == s
  {
    hide Advance, Step, Enabled, RefreshErrors.IsStatusText;
  }

  /** A new tab takes what is stored once; hydrating again changes nothing, whatever is stored by then. */
  lemma HydratesOnce(s: System, t: TabId, fails: bool, stored: Option<Snapshot>, again: bool)
    requires t !in s.tabs
    ensures var u := Do(Do(s, OpenTab(t)), HydrateTab(t, fails));
            var found := if fails then None else s.storage;
            && u == s.(tabs := s.tabs[t := Tab(found, if found.Some? then SignedIn else SignedOut, true, Resting, NotWriting)])
            && Do(u.(storage := stored), HydrateTab(t, again)) == u.(storage := stored)
  {
    hide Step, Enabled, DecideStep, ReceiveStep, FailStep, FamiliesOf, TokenOf, RefreshErrors.IsStatusText;
    var begun := Do(s, OpenTab(t));
    assert begun == Put(s, t, NEW_TAB);
    var u := Do(begun, HydrateTab(t, fails));
    var v := u.(storage := stored);
    assert v.tabs[t := v.tabs[t]] == v.tabs;
  }

  /** A tab at rest that can refresh, with the lock free. */
  ghost predicate CanRefresh(s: System, t: TabId) {
    t in s.tabs && s.tabs[t].refresh.Resting? && s.tabs[t].hydrated && s.tabs[t].snapshot.Some? && s.lock.None?
  }

  /** What the storage has is newer than the tab's snapshot. */
  ghost predicate Newer(disk: Option<Snapshot>, mem: Snapshot) {
    disk.Some? && (disk.value.expiresAtMs > mem.expiresAtMs
                   || (disk.value.refreshToken.Some? && disk.value.refreshToken != mem.refreshToken))
  }

  lemma Locks(s: System, t: TabId, fails: bool)
    requires CanRefresh(s, t)
    ensures Do(Do(Do(s, BeginRefresh(t)), AcquireLock(t)), LoadInLock(t, fails))
         == Put(s, t, s.tabs[t].(refresh := Deciding(s.tabs[t].snapshot, if fails then None else s.storage))).(lock := Some(t))
  {
    hide Step, Enabled, DecideStep, ReceiveStep, FailStep, FamiliesOf, TokenOf, RefreshErrors.IsStatusText;
    var waiting := Put(s, t, s.tabs[t].(refresh := WaitingForLock));
    var reading := Put(s, t, s.tabs[t].(refresh := ReadingDisk(s.tabs[t].snapshot))).(lock := Some(t));
    assert Do(s, BeginRefresh(t)) == waiting;
    assert Do(waiting, AcquireLock(t)) == reading;
  }

  lemma DecisionExactly(s: System, t: TabId, mem: Snapshot, disk: Option<Snapshot>, h: HandlerId, appId: nat,
                        authenticated: bool, now: Time)
    requires t in s.tabs && s.tabs[t].refresh == Deciding(Some(mem), disk) && s.tabs[t].snapshot == Some(mem)
    requires h !in s.server.handlers
    ensures var u := Do(s, DecideRefresh(t, h, appId, authenticated, now));
            var tab := s.tabs[t];
            if Newer(disk, mem) then
              && t in u.tabs && u.tabs[t].snapshot.Some? && Adopted(mem, disk.value, u.tabs[t].snapshot.value)
              && u == s.(lock := None,
                         tabs := s.tabs[t := tab.(snapshot := u.tabs[t].snapshot, status := SignedIn, refresh := Resting)])
            else if mem.refreshToken.None? then
              u == s.(lock := None, storage := None,
                      tabs := s.tabs[t := tab.(snapshot := None, status := SignedOut, hydrated := true, refresh := Resting)])
            else
              u == s.(tabs := s.tabs[t := tab.(refresh := AwaitingReply(h, mem))],
                      server := TokenServer.Apply(s.server, ReadRefresh(h, mem.refreshToken.value, appId, authenticated, now)),
                      presented := s.presented + [mem.refreshToken.value])
  {
    hide Step, ReceiveStep, FailStep, FamiliesOf, TokenOf, RefreshErrors.IsStatusText, SaveWriteStep;
    var e := DecideRefresh(t, h, appId, authenticated, now);
    assert Do(s, e) == DecideStep(s, t, h, appId, authenticated, now);
    assert Newer(disk, mem) <==> AveSession.Decide(s.tabs[t]).Adopt?;
  }

  /** Undisturbed, a refresh that holds the lock adopts what is stored exactly if it is newer than the tab's snapshot;
      otherwise it signs out without a refresh token, and presents it if there is one. */
  lemma RefreshDecidesExactly(s: System, t: TabId, fails: bool, h: HandlerId, appId: nat, authenticated: bool, now: Time)
    requires CanRefresh(s, t) && h !in s.server.handlers
    ensures var u := After(s, [BeginRefresh(t), AcquireLock(t), LoadInLock(t, fails),
                               DecideRefresh(t, h, appId, authenticated, now)]);
            var tab, mem := s.tabs[t], s.tabs[t].snapshot.value;
            if !fails && Newer(s.storage, mem) then
              && t in u.tabs && u.tabs[t].snapshot.Some? && Adopted(mem, s.storage.value, u.tabs[t].snapshot.value)
              && u == s.(tabs := s.tabs[t := tab.(snapshot := u.tabs[t].snapshot, status := SignedIn)])
            else if mem.refreshToken.None? then
              u == s.(storage := None, tabs := s.tabs[t := tab.(snapshot := None, status := SignedOut)])
            else
              u == s.(lock := Some(t), tabs := s.tabs[t := tab.(refresh := AwaitingReply(h, mem))],
                      server := TokenServer.Apply(s.server, ReadRefresh(h, mem.refreshToken.value, appId, authenticated, now)),
                      presented := s.presented + [mem.refreshToken.value])
  {
    var disk := if fails then None else s.storage;
    var mem := s.tabs[t].snapshot.value;
    var deciding := Put(s, t, s.tabs[t].(refresh := Deciding(s.tabs[t].snapshot, disk))).(lock := Some(t));
    hide After, Do, Newer, Adopted, TokenServer.Apply;
    AfterFour(s, BeginRefresh(t), AcquireLock(t), LoadInLock(t, fails), DecideRefresh(t, h, appId, authenticated, now));
    Locks(s, t, fails);
    DecisionExactly(deciding, t, mem, disk, h, appId, authenticated, now);
    assert !Newer(None, mem) by { NothingIsNotNewer(mem); }
  }

  lemma PresentsTheToken(s: System, t: TabId, fails: bool, h: HandlerId, appId: nat, now: Time, mem: Snapshot, token: Token)
    requires CanRefresh(s, t) && h !in s.server.handlers && (fails || !Newer(s.storage, mem))
    requires s.tabs[t].snapshot == Some(mem) && mem.refreshToken == Some(token)
    ensures After(s, [BeginRefresh(t), AcquireLock(t), LoadInLock(t, fails), DecideRefresh(t, h, appId, true, now)])
         == s.(lock := Some(t), tabs := s.tabs[t := s.tabs[t].(refresh := AwaitingReply(h, mem))],
               server := TokenServer.Apply(s.server, ReadRefresh(h, token, appId, true, now)),
               presented := s.presented + [token])
  {
    hide After, Newer, Adopted, TokenServer.Apply;
    RefreshDecidesExactly(s, t, fails, h, appId, true, now);
  }

  lemma NothingIsNotNewer(mem: Snapshot)
    ensures !Newer(None, mem)
  {
  }

  /** A refresh whose request fails frees the lock; it signs the tab out and empties the storage exactly if the error
      says so, and otherwise leaves both as they were. */
  lemma FailedRefreshExactly(s: System, t: TabId, failure: RefreshErrors.Failure)
    requires t in s.tabs && s.tabs[t].refresh.AwaitingReply?
    ensures After(s, [LoseReply(t, failure)]) ==
            if RefreshErrors.ShouldSignOut(failure) then
              s.(lock := None, storage := None,
                 tabs := s.tabs[t := s.tabs[t].(snapshot := None, status := SignedOut, hydrated := true, refresh := Resting)])
            else s.(lock := None, tabs := s.tabs[t := s.tabs[t].(refresh := Resting)])
  {
    LosesTheReply(s, t, failure);
    AfterOne(s, LoseReply(t, failure));
    hide Do, RefreshErrors.ShouldSignOut, After;
  }

  lemma LosesTheReply(s: System, t: TabId, failure: RefreshErrors.Failure)
    requires t in s.tabs && s.tabs[t].refresh.AwaitingReply?
    ensures Do(s, LoseReply(t, failure)) == FailStep(s, t, failure)
  {
    hide Step, Enabled, DecideStep, ReceiveStep, FailStep, FamiliesOf, TokenOf, RefreshErrors.IsStatusText;
  }

  lemma AfterFive(s: System, a: Event, b: Event, c: Event, d: Event, e: Event)
    ensures After(s, [a, b, c, d, e]) == Do(Do(Do(Do(Do(s, a), b), c), d), e)
  {
    hide Do;
    assert [a, b, c, d, e] == [a] + [b, c, d, e];
    AfterMore(s, a, [b, c, d, e]);
    AfterFour(Do(s, a), b, c, d, e);
  }

  lemma Serves(s: System, a: Action)
    ensures Do(s, ServerStep(a)) == s.(server := TokenServer.Apply(s.server, a))
  {
    hide Step, Enabled, DecideStep, ReceiveStep, FailStep, FamiliesOf, TokenOf, RefreshErrors.IsStatusText;
  }

  lemma SuccessorArrives(s: System, t: TabId, h: HandlerId, prev: Snapshot, token: Token, accessToken: nat,
                         expiresAtMs: Time, refusal: RefreshErrors.Refusal, statusText: string)
    requires t in s.tabs && s.tabs[t].refresh == AwaitingReply(h, prev)
    requires h in s.server.handlers && s.server.handlers[h] == Answered(Refreshed(token))
    requires RefreshErrors.IsStatusText(refusal, statusText)
    ensures Do(s, ReceiveReply(t, accessToken, expiresAtMs, refusal, statusText))
         == s.(tabs := s.tabs[t := s.tabs[t].(
                 refresh := Saving(Snapshot(accessToken, Some(token), prev.appKey, false, expiresAtMs)))],
               exposed := s.exposed + {token})
  {
    hide Step, Enabled, DecideStep, FailStep, FamiliesOf, TokenOf, RefreshErrors.IsStatusText, RefreshErrors.Refuse,
         Advance;
    ReplyIsReceived(s, ReceiveReply(t, accessToken, expiresAtMs, refusal, statusText));
  }

  lemma SavesRefreshed(s: System, t: TabId, next: Snapshot)
    requires t in s.tabs && s.tabs[t].refresh == Saving(next)
    ensures Do(Do(s, SaveRefreshed(t)), AfterRefresh(t))
         == s.(tabs := s.tabs[t := s.tabs[t].(snapshot := Some(next), refresh := Resting)], storage := Some(next), lock := None)
  {
    hide Step, Enabled, DecideStep, ReceiveStep, FailStep, FamiliesOf, TokenOf, RefreshErrors.IsStatusText;
    var saved := Put(s, t, s.tabs[t].(refresh := Saved(next))).(storage := Some(next));
    assert Do(s, SaveRefreshed(t)) == saved;
  }

  /** The successor has been inserted: the tab receives it, stores it and takes it, and frees the lock. */
  lemma ReplyIsTaken(s: System, t: TabId, h: HandlerId, prev: Snapshot, token: Token, accessToken: nat, expiresAtMs: Time,
                     refusal: RefreshErrors.Refusal, statusText: string)
    requires t in s.tabs && s.tabs[t].refresh == AwaitingReply(h, prev)
    requires h in s.server.handlers && s.server.handlers[h] == Answered(Refreshed(token))
    requires RefreshErrors.IsStatusText(refusal, statusText)
    ensures var received := Do(s, ReceiveReply(t, accessToken, expiresAtMs, refusal, statusText));
            var u := Do(Do(received, SaveRefreshed(t)), AfterRefresh(t));
            var next := Snapshot(accessToken, Some(token), prev.appKey, false, expiresAtMs);
            u == s.(tabs := s.tabs[t := s.tabs[t].(snapshot := Some(next), refresh := Resting)], storage := Some(next),
                    lock := None, exposed := s.exposed + {token})
  {
    hide *;
    SuccessorArrives(s, t, h, prev, token, accessToken, expiresAtMs, refusal, statusText);
    SavesRefreshed(Do(s, ReceiveReply(t, accessToken, expiresAtMs, refusal, statusText)), t,
                   Snapshot(accessToken, Some(token), prev.appKey, false, expiresAtMs));
  }

  /** The rotation on the server, and the tab and the storage with its outcome. */
  lemma RotationComesHome(s: System, t: TabId, fails: bool, mem: Snapshot, token: Token, appId: nat, h: HandlerId,
                          now: Time, insert: Action, accessToken: nat, expiresAtMs: Time,
                          refusal: RefreshErrors.Refusal, statusText: string)
    requires CanRefresh(s, t) && h !in s.server.handlers && (fails || !Newer(s.storage, mem))
    requires s.tabs[t].snapshot == Some(mem) && mem.refreshToken == Some(token) && insert.InsertSuccessor?
    requires var served := Run(s.server, [ReadRefresh(h, token, appId, true, now), Claim(h, now), insert]);
             h in served.handlers && served.handlers[h] == Answered(Refreshed(insert.newToken))
    requires RefreshErrors.IsStatusText(refusal, statusText)
    ensures var asked := After(s, [BeginRefresh(t), AcquireLock(t), LoadInLock(t, fails),
                                   DecideRefresh(t, h, appId, true, now)]);
            var next := Snapshot(accessToken, Some(insert.newToken), mem.appKey, false, expiresAtMs);
            After(asked, [ServerStep(Claim(h, now)), ServerStep(insert),
                          ReceiveReply(t, accessToken, expiresAtMs, refusal, statusText), SaveRefreshed(t),
                          AfterRefresh(t)])
            == s.(tabs := s.tabs[t := s.tabs[t].(snapshot := Some(next))], storage := Some(next), lock := None,
                  server := Run(s.server, [ReadRefresh(h, token, appId, true, now), Claim(h, now), insert]),
                  presented := s.presented + [token], exposed := s.exposed + {insert.newToken})
  {
    var read, claim := ReadRefresh(h, token, appId, true, now), Claim(h, now);
    var asked := s.(lock := Some(t), tabs := s.tabs[t := s.tabs[t].(refresh := AwaitingReply(h, mem))],
                    server := TokenServer.Apply(s.server, read), presented := s.presented + [token]);
    var receive := ReceiveReply(t, accessToken, expiresAtMs, refusal, statusText);
    var tab := s.tabs[t].(snapshot := Some(Snapshot(accessToken, Some(insert.newToken), mem.appKey, false, expiresAtMs)));
    assert s.tabs[t].refresh.Resting?;
    hide *;
    PresentsTheToken(s, t, fails, h, appId, now, mem, token);
    RotationIsServed(asked, s.server, read, claim, insert);
    AfterFive(asked, ServerStep(claim), ServerStep(insert), receive, SaveRefreshed(t), AfterRefresh(t));
    ReplyIsTaken(asked.(server := Run(s.server, [read, claim, insert])), t, h, mem, insert.newToken, accessToken,
                 expiresAtMs, refusal, statusText);
    assert asked.tabs[t := tab] == s.tabs[t := tab];
  }

  /** Undisturbed, the refresh of a tab with a live token, that finds nothing newer stored, rotates the token, and
      leaves tab and storage with the response's tokens and expiry and the key the tab had. */
  lemma RefreshRotatesTheToken(s: System, t: TabId, fails: bool, r: RowId, h: HandlerId, now: Time, newId: RowId,
                               newToken: Token, expiresAt: Time, accessToken: nat, expiresAtMs: Time,
                               refusal: RefreshErrors.Refusal, statusText: string)
    requires CanRefresh(s, t) && h !in s.server.handlers && (fails || !Newer(s.storage, s.tabs[t].snapshot.value))
    requires ChainInv(s.server) && r in s.server.rows && s.server.rows[r].Live() && now <= s.server.rows[r].expiresAt
    requires s.tabs[t].snapshot.value.refreshToken == Some(s.server.rows[r].token) && FreshRow(s.server, newId, newToken)
    requires RefreshErrors.IsStatusText(refusal, statusText)
    ensures var row, mem := s.server.rows[r], s.tabs[t].snapshot.value;
            var asked := After(s, [BeginRefresh(t), AcquireLock(t), LoadInLock(t, fails),
                                   DecideRefresh(t, h, row.appId, true, now)]);
            var u := After(asked, [ServerStep(Claim(h, now)), ServerStep(InsertSuccessor(h, newId, newToken, expiresAt)),
                                   ReceiveReply(t, accessToken, expiresAtMs, refusal, statusText), SaveRefreshed(t),
                                   AfterRefresh(t)]);
            var next := Snapshot(accessToken, Some(newToken), mem.appKey, false, expiresAtMs);
            && u.tabs == s.tabs[t := s.tabs[t].(snapshot := Some(next))] && u.storage == Some(next) && u.lock == None
            && u.server.handlers == s.server.handlers[h := Answered(Refreshed(newToken))]
            && u.server.rows == s.server.rows[r := row.(revokedAt := Some(now))]
                 [newId := RefreshRow(row.familyId, Some(r), row.userId, row.identityId, row.appId, row.scope,
                                      newToken, expiresAt, None, None)]
  {
    var row, mem := s.server.rows[r], s.tabs[t].snapshot.value;
    hide *;
    LiveTokenIsRotated(s.server, r, h, now, newId, newToken, expiresAt);
    RotationComesHome(s, t, fails, mem, row.token, row.appId, h, now, InsertSuccessor(h, newId, newToken, expiresAt),
                      accessToken, expiresAtMs, refusal, statusText);
  }

  lemma RotationIsServed(s: System, server: Server, read: Action, claim: Action, insert: Action)
    requires s.server == TokenServer.Apply(server, read)
    ensures Do(Do(s, ServerStep(claim)), ServerStep(insert)) == s.(server := Run(server, [read, claim, insert]))
  {
    hide *;
    Serves(s, claim);
    Serves(s.(server := TokenServer.Apply(s.server, claim)), insert);
    ThreeSteps(server, read, claim, insert);
  }
}
