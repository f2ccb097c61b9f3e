/** Disciplined tabs never present a spent refresh token, so reuse detection never reaches them. */
module SessionSafety {
  import opened Options
  import opened TokenServer
  import opened RefreshChains
  import opened AveSession
  import opened SessionSystem
  import RefreshErrors
  import opened SessionServer

  predicate Good(x: Option<Snapshot>, exposed: set<Token>) {
    x.Some? && x.value.refreshToken.Some? && x.value.refreshToken.value in exposed
  }

  predicate GoodAndLive(x: Option<Snapshot>, exposed: set<Token>, live: set<Token>) {
    Good(x, exposed) && x.value.refreshToken.value in live
  }

  predicate WriteOk(write: WritePhase, exposed: set<Token>, live: set<Token>) {
    match write
    case NotWriting => true
    case Writing(kind, next) =>
      && kind.SettingTokens? && next.Some? && next.value.refreshToken.Some?
      && next.value.refreshToken.value in live && next.value.refreshToken.value !in exposed
    case Written(kind, next) => kind.SettingTokens? && Good(next, exposed)
  }

  predicate RefreshOk(refresh: RefreshPhase, exposed: set<Token>) {
    match refresh
    case ReadingDisk(mem) => Good(mem, exposed)
    case Deciding(mem, disk) => Good(mem, exposed) && Good(disk, exposed)
    case AwaitingReply(_, prev) => Good(Some(prev), exposed)
    case Saving(next) => Good(Some(next), exposed)
    case Saved(next) => Good(Some(next), exposed)
    case _ => true
  }

  /** Whatever a tab holds carries an exposed token, except a sign-in it has not saved yet. */
  predicate TabOk(tab: Tab, exposed: set<Token>, live: set<Token>) {
    && (tab.snapshot.Some? ==> Good(tab.snapshot, exposed))
    && (!tab.refresh.Resting? ==> tab.hydrated && tab.snapshot.Some? && tab.write.NotWriting?)
    && WriteOk(tab.write, exposed, live)
    && RefreshOk(tab.refresh, exposed)
  }

  predicate InLock(refresh: RefreshPhase) {
    !refresh.Resting? && !refresh.WaitingForLock?
  }

  function PendingOf(tab: Tab): set<Token> {
    if tab.write.Writing? then TokenOf(tab.write.next) else {}
  }

  ghost function LiveOf(s: System): set<Token> {
    Live(s.server, s.mine)
  }

  function Requesting(s: System): Option<(HandlerId, Token)> {
    if s.lock.Some? && s.lock.value in s.tabs && s.tabs[s.lock.value].refresh.AwaitingReply?
       && s.tabs[s.lock.value].refresh.prev.refreshToken.Some?
    then
      var phase := s.tabs[s.lock.value].refresh;
      Some((phase.h, phase.prev.refreshToken.value))
    else None
  }

  function AwaitedOf(s: System): Option<HandlerId> {
    if Requesting(s).Some? then Some(Requesting(s).value.0) else None
  }

  ghost predicate TabsOk(s: System) {
    forall t :: t in s.tabs ==> TabOk(s.tabs[t], s.exposed, LiveOf(s))
  }

  predicate LockOk(s: System) {
    && (forall t :: t in s.tabs ==> (InLock(s.tabs[t].refresh) <==> s.lock == Some(t)))
    && (s.lock.Some? ==> s.lock.value in s.tabs)
  }

  predicate PendingDistinct(s: System) {
    forall t, u :: t in s.tabs && u in s.tabs && t != u ==> PendingOf(s.tabs[t]) !! PendingOf(s.tabs[u])
  }

  predicate StorageGood(s: System) {
    if s.storage.Some? then Good(s.storage, s.exposed) else s.exposed == {}
  }

  ghost predicate StorageLive(s: System) {
    s.storage.Some? ==> GoodAndLive(s.storage, s.exposed, LiveOf(s))
  }

  /** What the stored token is while a tab refreshes: live, or the one that is being rotated. */
  ghost predicate HolderOk(s: System) {
    if s.lock.None? || s.lock.value !in s.tabs then StorageLive(s)
    else
      var tab := s.tabs[s.lock.value];
      match tab.refresh
      case ReadingDisk(mem) =>
        StorageLive(s) && (tab.snapshot == mem || GoodAndLive(tab.snapshot, s.exposed, LiveOf(s)))
      case Deciding(mem, disk) =>
        && StorageLive(s) && GoodAndLive(disk, s.exposed, LiveOf(s))
        && (tab.snapshot == mem || GoodAndLive(tab.snapshot, s.exposed, LiveOf(s)))
      case AwaitingReply(h, prev) =>
        && prev.refreshToken.Some?
        && InService(s.server, s.mine, h, prev.refreshToken.value)
        && (s.storage.Some? && s.storage.value.refreshToken != prev.refreshToken ==>
              GoodAndLive(s.storage, s.exposed, LiveOf(s)))
      case Saving(next) => GoodAndLive(Some(next), s.exposed, LiveOf(s))
      case Saved(next) => StorageLive(s) && GoodAndLive(Some(next), s.exposed, LiveOf(s))
      case _ => StorageLive(s)
  }

  /** The successor in a reply on its way is known to no tab. */
  ghost predicate ReplyPrivate(s: System) {
    Requesting(s).Some? ==>
      var h := Requesting(s).value.0;
      h in s.server.handlers && s.server.handlers[h].Answered? && s.server.handlers[h].reply.Refreshed? ==>
        && s.server.handlers[h].reply.token !in s.exposed
        && forall t :: t in s.tabs ==> s.server.handlers[h].reply.token !in PendingOf(s.tabs[t])
  }

  /** A presented token is spent, or being served, or was refused untouched. */
  ghost predicate PresentedOk(s: System) {
    && (forall token :: token in s.presented ==> token in s.exposed)
    && (forall token :: token in s.presented ==>
          token in s.refused || token !in LiveOf(s)
          || (Requesting(s).Some? && Requesting(s).value.1 == token))
  }

  predicate PresentedOnce(s: System) {
    forall i, j :: 0 <= i < j < |s.presented| && s.presented[i] == s.presented[j] ==> s.presented[i] in s.refused
  }

  ghost predicate ServerOk(s: System) {
    ChainInv(s.server) && Quiet(s.server, s.mine, AwaitedOf(s)) && s.exposed <= Known(s.server, s.mine)
  }

  ghost predicate TabsInv(s: System) {
    && TabsOk(s) && LockOk(s) && PendingDistinct(s) && StorageGood(s) && HolderOk(s) && ReplyPrivate(s)
    && PresentedOk(s) && PresentedOnce(s)
  }

  ghost predicate SafetyInv(s: System) {
    ServerOk(s) && TabsInv(s)
  }

  lemma StartIsSafe()
    ensures SafetyInv(START)
  {
    InitialChainInv();
  }

  lemma SafeIsNotTripped(s: System)
    requires SafetyInv(s)
    ensures !Tripped(s)
  {
    hide ChainInv, TabsInv;
    forall h | h in s.server.handlers && s.server.handlers[h].Marking?
      ensures s.server.handlers[h].familyId !in s.mine
    {
      var f := s.server.handlers[h].familyId;
      assert WorksOn(s.server, h, f);
    }
  }

  /** A tab changed by itself: its lock phase and its pending sign-in are as before. */
  lemma TabChanges(s: System, t: TabId, tab: Tab)
    requires SafetyInv(s) && TabOk(tab, s.exposed, LiveOf(s))
    requires PendingOf(tab) <= if t in s.tabs then PendingOf(s.tabs[t]) else {}
    requires if t in s.tabs && InLock(s.tabs[t].refresh) then tab.refresh == s.tabs[t].refresh else !InLock(tab.refresh)
    requires t in s.tabs ==> tab.snapshot == s.tabs[t].snapshot || GoodAndLive(tab.snapshot, s.exposed, LiveOf(s))
                             || !(tab.refresh.ReadingDisk? || tab.refresh.Deciding?)
    ensures SafetyInv(Put(s, t, tab))
  {
    hide ChainInv, Quiet, Known, Live, Good, InService, TabOk;
  }

  predicate TabEvent(e: Event) {
    e.OpenTab? || e.HydrateTab? || e.ReloadTab? || e.AfterWrite? || e.BeginRefresh?
  }

  lemma TabEventIsSafe(s: System, e: Event)
    requires SafetyInv(s) && TabEvent(e) && CanHappen(s, e) && Disciplined(s, e)
    ensures SafetyInv(Advance(s, e))
  {
    hide Step, Enabled, FirstDelivery, BeforeExpiry, FamiliesOf, DecideStep, ReceiveStep, SaveWriteStep;
    hide ChainInv, Quiet, Known, Live, InService, PresentedOk, PresentedOnce, PendingDistinct, ReplyPrivate;
    var t := e.tab;
    var tab := Advance(s, e).tabs[t];
    assert t in s.tabs ==> TabOk(s.tabs[t], s.exposed, LiveOf(s));
    TabChanges(s, t, tab) by { hide SafetyInv, TabOk; }
  }

  /** The lock is granted to a waiting tab. */
  lemma LockIsSafe(s: System, t: TabId)
    requires SafetyInv(s) && CanHappen(s, AcquireLock(t))
    ensures SafetyInv(Advance(s, AcquireLock(t)))
  {
    hide Step, Enabled, FirstDelivery, BeforeExpiry, FamiliesOf, DecideStep, ReceiveStep, SaveWriteStep;
    hide ChainInv, Quiet, Known, Live, InService;
    assert TabOk(s.tabs[t], s.exposed, LiveOf(s));
  }

  lemma LoadIsSafe(s: System, t: TabId)
    requires SafetyInv(s) && CanHappen(s, LoadInLock(t, false))
    ensures SafetyInv(Advance(s, LoadInLock(t, false)))
  {
    hide Step, Enabled, FirstDelivery, BeforeExpiry, FamiliesOf, DecideStep, ReceiveStep, SaveWriteStep;
    hide ChainInv, Quiet, Known, Live, InService;
    assert TabOk(s.tabs[t], s.exposed, LiveOf(s));
  }

  lemma SaveWriteIsSafe(s: System, t: TabId)
    requires SafetyInv(s) && CanHappen(s, SaveWrite(t))
    ensures SafetyInv(Advance(s, SaveWrite(t)))
  {
    hide Step, Enabled, FirstDelivery, BeforeExpiry, FamiliesOf, DecideStep, ReceiveStep;
    hide ChainInv, Quiet, InService, Known, Live;
    var after := SaveWriteStep(s, t);
    var token := s.tabs[t].write.next.value.refreshToken.value;
    assert TabOk(s.tabs[t], s.exposed, LiveOf(s)) && PendingOf(s.tabs[t]) == {token};
    LiveIsKnown(s.server, s.mine, token);
    SavedTabsOk(s, t, token);
    SavedReplyPrivate(s, t, token);
    hide TabOk, TabsOk, ReplyPrivate;
  }

  lemma SavedTabsOk(s: System, t: TabId, token: Token)
    requires TabsOk(s) && PendingDistinct(s) && t in s.tabs && s.tabs[t].write.Writing? && PendingOf(s.tabs[t]) == {token}
    ensures TabsOk(SaveWriteStep(s, t))
  {
    hide Live;
    var after := SaveWriteStep(s, t);
    assert after.exposed == s.exposed + {token} && LiveOf(after) == LiveOf(s);
    forall u | u in after.tabs
      ensures TabOk(after.tabs[u], after.exposed, LiveOf(after))
    {
      assert TabOk(s.tabs[u], s.exposed, LiveOf(s));
      assert u != t ==> token !in PendingOf(s.tabs[u]);
    }
  }

  lemma SavedReplyPrivate(s: System, t: TabId, token: Token)
    requires ReplyPrivate(s) && t in s.tabs && s.tabs[t].write.Writing? && PendingOf(s.tabs[t]) == {token}
    ensures ReplyPrivate(SaveWriteStep(s, t))
  {
  }

  lemma LiveIsKnown(server: Server, mine: set<RowId>, token: Token)
    requires token in Live(server, mine)
    ensures token in Known(server, mine)
  {
  }

  lemma SaveRefreshedIsSafe(s: System, t: TabId)
    requires SafetyInv(s) && CanHappen(s, SaveRefreshed(t))
    ensures SafetyInv(Advance(s, SaveRefreshed(t)))
  {
    hide Step, Enabled, FirstDelivery, BeforeExpiry, FamiliesOf, DecideStep, ReceiveStep, SaveWriteStep;
    hide ChainInv, Quiet, Known, Live, InService;
    assert TabOk(s.tabs[t], s.exposed, LiveOf(s));
  }

  lemma AfterRefreshIsSafe(s: System, t: TabId)
    requires SafetyInv(s) && CanHappen(s, AfterRefresh(t))
    ensures SafetyInv(Advance(s, AfterRefresh(t)))
  {
    hide Step, Enabled, FirstDelivery, BeforeExpiry, FamiliesOf, DecideStep, ReceiveStep, SaveWriteStep;
    hide ChainInv, Quiet, Known, Live, InService;
    assert TabOk(s.tabs[t], s.exposed, LiveOf(s));
  }

  /** The comparison found newer tokens on disk, which are live: the tab takes them and asks for none. */
  lemma AdoptIsSafe(s: System, t: TabId, e: Event)
    requires SafetyInv(s) && e.DecideRefresh? && e.tab == t && CanHappen(s, e) && AveSession.Decide(s.tabs[t]).Adopt?
    ensures SafetyInv(Advance(s, e))
  {
    hide Step, Enabled, FirstDelivery, BeforeExpiry, FamiliesOf, ReceiveStep, SaveWriteStep;
    hide ChainInv, Quiet, Known, Live, InService;
    assert TabOk(s.tabs[t], s.exposed, LiveOf(s));
  }

  /** Otherwise the token in memory is the one on disk or was taken from a live one, so it is live. */
  lemma PresentsLiveToken(s: System, t: TabId)
    requires SafetyInv(s) && t in s.tabs && s.tabs[t].refresh.Deciding? && !AveSession.Decide(s.tabs[t]).Adopt?
    ensures GoodAndLive(s.tabs[t].snapshot, s.exposed, LiveOf(s))
    ensures AveSession.Decide(s.tabs[t]) == Present(s.tabs[t].snapshot.value.refreshToken.value)
  {
    hide ChainInv, Quiet, Known, Live, InService;
    assert TabOk(s.tabs[t], s.exposed, LiveOf(s));
  }

  lemma TabsAfterPresent(s: System, after: System, t: TabId, h: HandlerId, token: Token, server: Server)
    requires TabsInv(s) && t in s.tabs && s.tabs[t].refresh.Deciding?
    requires GoodAndLive(s.tabs[t].snapshot, s.exposed, LiveOf(s)) && s.tabs[t].snapshot.value.refreshToken == Some(token)
    requires after == Put(s, t, s.tabs[t].(refresh := AwaitingReply(h, s.tabs[t].snapshot.value)))
                        .(server := server, presented := s.presented + [token])
    requires LiveOf(after) == LiveOf(s) && InService(server, s.mine, h, token)
    requires server.handlers[h].Claiming? || server.handlers[h] == Answered(Refused)
    ensures TabsInv(after)
  {
    hide Live, InService;
    assert TabOk(s.tabs[t], s.exposed, LiveOf(s));
    assert PresentedOnce(after) by {
      hide TabsOk, LockOk, HolderOk;
    }
  }

  lemma PresentIsSafe(s: System, e: Event)
    requires SafetyInv(s) && e.DecideRefresh? && CanHappen(s, e) && Disciplined(s, e)
    requires !AveSession.Decide(s.tabs[e.tab]).Adopt?
    ensures SafetyInv(Advance(s, e))
  {
    hide ReceiveStep, SaveWriteStep, FirstDelivery, FamiliesOf, CheckRequest, ClaimStep, InsertStep, FinishStep,
         MarkRows, RevokeStep, ConsumeStep, CleanupStep;
    hide ChainInv, Quiet, InService, TabsInv, AfterRead;
    PresentsLiveToken(s, e.tab);
    var tab := s.tabs[e.tab];
    var token := tab.snapshot.value.refreshToken.value;
    var read := ReadRefresh(e.h, token, e.appId, e.authenticated, e.now);
    NotYetAwaited(s, e.tab);
    PresentLiveToken(s.server, s.mine, e.h, token, e.appId, e.authenticated, e.now);
    StepKeepsChains(s.server, read);
    var server := Step(s.server, read);
    var after := Advance(s, e);
    assert LiveOf(after) == LiveOf(s) && Known(server, s.mine) == Known(s.server, s.mine);
    hide Known, Live;
    TabsAfterPresent(s, after, e.tab, e.h, token, server) by { hide Step, Enabled; }
    NowAwaited(after, e.tab, e.h);
  }

  lemma NotYetAwaited(s: System, t: TabId)
    requires TabsInv(s) && t in s.tabs && InLock(s.tabs[t].refresh) && !s.tabs[t].refresh.AwaitingReply?
    ensures AwaitedOf(s) == None && s.lock == Some(t)
  {
    hide TabsOk, HolderOk;
  }

  lemma NowAwaited(s: System, t: TabId, h: HandlerId)
    requires TabsInv(s) && t in s.tabs && s.tabs[t].refresh.AwaitingReply? && s.tabs[t].refresh.h == h
    ensures AwaitedOf(s) == Some(h) && s.lock == Some(t)
    ensures s.tabs[t].refresh.prev.refreshToken.Some?
    ensures Requesting(s) == Some((h, s.tabs[t].refresh.prev.refreshToken.value))
    ensures InService(s.server, s.mine, h, s.tabs[t].refresh.prev.refreshToken.value)
  {
    hide InService, Live;
  }

  /** A refused request leaves the presented token live, and the lock is free again. */
  lemma RefusalIsSafe(s: System, t: TabId, e: Event)
    requires SafetyInv(s) && e.ReceiveReply? && e.tab == t && CanHappen(s, e)
    requires s.server.handlers[s.tabs[t].refresh.h].reply == Refused
    ensures SafetyInv(Advance(s, e))
  {
    hide Step, Enabled, FirstDelivery, BeforeExpiry, FamiliesOf, DecideStep, SaveWriteStep;
    hide ChainInv, Quiet, Known, Live;
    assert TabOk(s.tabs[t], s.exposed, LiveOf(s));
    NowAwaited(s, t, s.tabs[t].refresh.h);
    AnsweredIsQuiet(s.server, s.mine, s.tabs[t].refresh.h);
    RefusalArrives(s, e);
    hide RefreshErrors.IsStatusText, Advance;
  }

  /** The successor arrives: it is live, its predecessor is spent, and only this tab knows it. */
  lemma SuccessorIsSafe(s: System, t: TabId, e: Event)
    requires SafetyInv(s) && e.ReceiveReply? && e.tab == t && CanHappen(s, e)
    requires s.server.handlers[s.tabs[t].refresh.h].reply.Refreshed?
    ensures SafetyInv(Advance(s, e))
  {
    hide Step, Enabled, FirstDelivery, BeforeExpiry, FamiliesOf, DecideStep, SaveWriteStep;
    hide ChainInv, Quiet, Known, Live;
    assert TabOk(s.tabs[t], s.exposed, LiveOf(s));
    NowAwaited(s, t, s.tabs[t].refresh.h);
    AnsweredIsQuiet(s.server, s.mine, s.tabs[t].refresh.h);
    var token := s.server.handlers[s.tabs[t].refresh.h].reply.token;
    LiveIsKnown(s.server, s.mine, token);
    ReceivedTabsOk(s, t, e, token);
    hide TabsOk, TabOk;
  }

  lemma ReceivedTabsOk(s: System, t: TabId, e: Event, token: Token)
    requires TabsOk(s) && ReplyPrivate(s) && e.ReceiveReply? && e.tab == t && CanHappen(s, e)
    requires Requesting(s).Some? && Requesting(s).value.0 == s.tabs[t].refresh.h
    requires s.server.handlers[s.tabs[t].refresh.h].reply == Refreshed(token)
    ensures TabsOk(Advance(s, e))
  {
    hide Step, Enabled, FirstDelivery, BeforeExpiry, FamiliesOf, DecideStep, SaveWriteStep;
    hide Live;
    var after := Advance(s, e);
    assert after.exposed == s.exposed + {token} && LiveOf(after) == LiveOf(s);
    forall u | u in after.tabs
      ensures TabOk(after.tabs[u], after.exposed, LiveOf(after))
    {
      assert TabOk(s.tabs[u], s.exposed, LiveOf(s)) && token !in PendingOf(s.tabs[u]);
    }
  }

  /** The server moved: tokens died at most by the tabs' own request, and new live ones are unknown to the tabs. */
  lemma TabsAfterServer(s: System, server: Server, mine: set<RowId>)
    requires TabsInv(s) && s.exposed <= Known(s.server, s.mine)
    requires forall x :: x in LiveOf(s) ==> x in Live(server, mine) || (Requesting(s).Some? && x == Requesting(s).value.1)
    requires forall x :: x in Live(server, mine) ==> x in LiveOf(s) || x !in Known(s.server, s.mine)
    requires Requesting(s).Some? ==> InService(server, mine, Requesting(s).value.0, Requesting(s).value.1)
    requires ReplyPrivate(s.(server := server, mine := mine))
    ensures TabsInv(s.(server := server, mine := mine))
  {
    hide Known, Live, InService;
    var after := s.(server := server, mine := mine);
    assert Requesting(after) == Requesting(s);
    assert TabsOk(after) by { ServedTabsOk(s, after); }
    hide TabsOk;
  }

  lemma ServedTabsOk(s: System, after: System)
    requires TabsOk(s) && LockOk(s) && after.tabs == s.tabs && after.exposed == s.exposed
    requires forall x :: x in LiveOf(s) ==> x in LiveOf(after) || (Requesting(s).Some? && x == Requesting(s).value.1)
    ensures TabsOk(after)
  {
    hide Live;
    assert Requesting(s).Some? ==> TabOk(s.tabs[s.lock.value], s.exposed, LiveOf(s));
  }

  lemma SetTokensIsSafe(s: System, t: TabId, tr: TokenResponse)
    requires SafetyInv(s) && CanHappen(s, SetTokens(t, tr)) && Disciplined(s, SetTokens(t, tr))
    ensures SafetyInv(Advance(s, SetTokens(t, tr)))
  {
    hide ChainInv, Quiet, Known, Live, InService, TabsInv, Undisturbed;
    var token := tr.refreshToken.value;
    var r :| StartsFamily(s.server, r, token) && r !in s.mine;
    FamilyJoins(s.server, s.mine, AwaitedOf(s), r, token);
    JoinedStaysQuiet(s.server, s.mine, AwaitedOf(s), r, token);
    var joined := s.(mine := s.mine + {r});
    JoinIsSafe(s, r, token);
    assert token !in s.exposed && token in LiveOf(joined);
    PendingElsewhere(s, token);
    TabSignsIn(joined, t, SnapshotFromTokenResponse(tr, s.tabs[t].snapshot), token);
  }

  /** Nothing the tabs have or wait for is a token they never knew. */
  lemma PendingElsewhere(s: System, token: Token)
    requires SafetyInv(s) && token !in Known(s.server, s.mine)
    ensures forall t :: t in s.tabs ==> token !in PendingOf(s.tabs[t])
    ensures Requesting(s).Some? ==>
              var h := Requesting(s).value.0;
              h in s.server.handlers && s.server.handlers[h] != Answered(Refreshed(token))
  {
    hide ChainInv, Quiet, Known, Live, PendingDistinct, PresentedOk, PresentedOnce;
    if token in Live(s.server, s.mine) {
      LiveIsKnown(s.server, s.mine, token);
    }
    forall t | t in s.tabs
      ensures token !in PendingOf(s.tabs[t])
    {
      assert TabOk(s.tabs[t], s.exposed, LiveOf(s));
    }
  }

  lemma JoinIsSafe(s: System, r: RowId, token: Token)
    requires SafetyInv(s) && token !in Known(s.server, s.mine)
    requires Known(s.server, s.mine) <= Known(s.server, s.mine + {r})
    requires LiveOf(s) <= Live(s.server, s.mine + {r}) <= LiveOf(s) + {token}
    requires Quiet(s.server, s.mine + {r}, AwaitedOf(s))
    ensures SafetyInv(s.(mine := s.mine + {r}))
  {
    hide ChainInv, Quiet, Known, Live, TabsInv;
    if Requesting(s).Some? {
      RequestIsServed(s);
    }
    assert ReplyPrivate(s) by { RevealsReplyPrivate(s); }
    TabsAfterServer(s, s.server, s.mine + {r});
  }

  lemma RevealsReplyPrivate(s: System)
    requires TabsInv(s)
    ensures ReplyPrivate(s)
  {
  }

  lemma RequestIsServed(s: System)
    requires TabsInv(s) && Requesting(s).Some?
    ensures InService(s.server, s.mine, Requesting(s).value.0, Requesting(s).value.1)
    ensures Requesting(s).value.1 in s.exposed
  {
    hide InService, Live;
    assert TabOk(s.tabs[s.lock.value], s.exposed, LiveOf(s));
  }

  lemma TabSignsIn(s: System, t: TabId, next: Snapshot, token: Token)
    requires SafetyInv(s) && t in s.tabs && s.tabs[t].refresh.Resting? && s.tabs[t].write.NotWriting?
    requires next.refreshToken == Some(token) && token !in s.exposed && token in LiveOf(s)
    requires forall u :: u in s.tabs ==> token !in PendingOf(s.tabs[u])
    requires Requesting(s).Some? ==>
               var h := Requesting(s).value.0;
               h in s.server.handlers && s.server.handlers[h] != Answered(Refreshed(token))
    ensures SafetyInv(Put(s, t, s.tabs[t].(write := Writing(SettingTokens, Some(next)))))
  {
    hide ChainInv, Quiet, Known, Live, InService;
  }

  lemma OutsideKeepsService(server: Server, next: Server, mine: set<RowId>, h: HandlerId, token: Token)
    requires InService(server, mine, h, token) && OnlyOutside(server, next, mine)
    requires h in next.handlers && next.handlers[h] == server.handlers[h]
    requires server.handlers[h].Inserting? ==> server.rows[server.handlers[h].id].familyId in mine
    ensures InService(next, mine, h, token)
  {
    OutsideKeepsTokens(server, next, mine);
    hide Live;
  }

  /** A step of a handler the tabs do not wait for. */
  lemma OutsideStepIsSafe(s: System, a: Action)
    requires SafetyInv(s) && Enabled(s.server, a)
    requires a.ReadRefresh? ==> FamiliesOf(s.server.rows, {a.token}) !! s.mine
    requires AwaitedOf(s).Some? ==> HandlerOf(a) != AwaitedOf(s)
    ensures SafetyInv(s.(server := Step(s.server, a)))
  {
    hide ChainInv, Quiet, Known, Live, TabsInv, InService, OnlyOutside, FamiliesOf, Step, Enabled;
    var next := Step(s.server, a);
    StepKeepsChains(s.server, a);
    ActsOutside(s.server, a, s.mine, AwaitedOf(s));
    OutsideStaysQuiet(s.server, a, s.mine, AwaitedOf(s));
    OutsideKeepsTokens(s.server, next, s.mine);
    RevealsReplyPrivate(s);
    if Requesting(s).Some? {
      var h, token := Requesting(s).value.0, Requesting(s).value.1;
      RequestIsServed(s);
      AwaitedUnmoved(s.server, a, h, s.mine, token);
      ServedFamily(s.server, h, s.mine, token);
      OutsideKeepsService(s.server, next, s.mine, h, token);
    }
    TabsAfterServer(s, next, s.mine);
  }

  lemma AwaitedUnmoved(server: Server, a: Action, h: HandlerId, mine: set<RowId>, token: Token)
    requires Enabled(server, a) && HandlerOf(a) != Some(h) && InService(server, mine, h, token)
    ensures h in server.handlers && h in Step(server, a).handlers
    ensures Step(server, a).handlers[h] == server.handlers[h]
  {
    hide CheckRequest, AfterRead;
  }

  lemma ServedFamily(server: Server, h: HandlerId, mine: set<RowId>, token: Token)
    requires ChainInv(server) && InService(server, mine, h, token)
    ensures server.handlers[h].Inserting? ==> server.rows[server.handlers[h].id].familyId in mine
  {
    hide IsChain, ChainsOk, OneRotation, RowsListed, TokensDistinct;
    assert HandlerOk(server, server.handlers[h]);
  }

  /** A step of the handler that serves the tab holding the lock. */
  lemma AwaitedStepIsSafe(s: System, a: Action)
    requires SafetyInv(s) && Enabled(s.server, a) && AwaitedOf(s).Some? && HandlerOf(a) == AwaitedOf(s) && !a.Stop?
    ensures SafetyInv(s.(server := Step(s.server, a)))
  {
    hide ChainInv, Quiet, Known, Live, TabsInv, CheckRequest, AfterRead, ClaimStep, InsertStep, RevokeStep,
         ConsumeStep, FinishStep, CleanupStep, MarkRows;
    var h, token := Requesting(s).value.0, Requesting(s).value.1;
    var next := Step(s.server, a);
    RequestIsServed(s);
    StepKeepsChains(s.server, a);
    RevealsReplyPrivate(s);
    match a
    case RejectOrganization(_) =>
      RejectKeepsTokens(s.server, s.mine, h, token);
      ServedIsSafe(s, next, token, token);
    case Claim(_, now) =>
      ClaimTakesToken(s.server, s.mine, h, now, token);
      ClaimStaysQuiet(s.server, s.mine, h, now, token);
      ServedIsSafe(s, next, token, token);
    case InsertSuccessor(_, _, newToken, _) =>
      InsertBringsToken(s.server, s.mine, h, a, token);
      InsertStaysQuiet(s.server, s.mine, h, a, token);
      PendingElsewhere(s, newToken);
      ServedIsSafe(s, next, token, newToken);
    case _ =>
  }

  lemma ServedIsSafe(s: System, next: Server, token: Token, newToken: Token)
    requires SafetyInv(s) && Requesting(s).Some? && Requesting(s).value.1 == token
    requires ChainInv(next) && Quiet(next, s.mine, AwaitedOf(s)) && Known(s.server, s.mine) <= Known(next, s.mine)
    requires LiveOf(s) - {token} <= Live(next, s.mine)
    requires forall x :: x in Live(next, s.mine) ==> x in LiveOf(s) || x !in Known(s.server, s.mine)
    requires InService(next, s.mine, Requesting(s).value.0, token)
    requires ReplyPrivate(s.(server := next))
    ensures SafetyInv(s.(server := next))
  {
    hide ChainInv, Quiet, Known, Live, TabsInv, InService, ReplyPrivate;
    assert Requesting(s.(server := next)) == Requesting(s);
    TabsAfterServer(s, next, s.mine);
    assert s.(server := next, mine := s.mine) == s.(server := next);
  }

  lemma EventIsSafe(s: System, e: Event)
    requires SafetyInv(s) && CanHappen(s, e) && Disciplined(s, e)
    ensures SafetyInv(Advance(s, e))
  {
    if TabEvent(e) {
      TabEventIsSafe(s, e) by { hide SafetyInv; }
      return;
    }
    match e
    case AcquireLock(t) => LockIsSafe(s, t) by { hide SafetyInv; }
    case LoadInLock(t, fails) => LoadIsSafe(s, t) by { hide SafetyInv; }
    case SetTokens(t, tr) => SetTokensIsSafe(s, t, tr) by { hide SafetyInv; }
    case SaveWrite(t) => SaveWriteIsSafe(s, t) by { hide SafetyInv; }
    case SaveRefreshed(t) => SaveRefreshedIsSafe(s, t) by { hide SafetyInv; }
    case AfterRefresh(t) => AfterRefreshIsSafe(s, t) by { hide SafetyInv; }
    case DecideRefresh(t, _, _, _, _) =>
      if AveSession.Decide(s.tabs[t]).Adopt? {
        AdoptIsSafe(s, t, e) by { hide SafetyInv; }
      } else {
        PresentIsSafe(s, e) by { hide SafetyInv; }
      }
    case ReceiveReply(t, _, _, _, _) => ReceiveIsSafe(s, t, e) by { hide SafetyInv; }
    case ServerStep(a) => ServerStepIsSafe(s, a) by { hide SafetyInv; }
  }

  lemma ReceiveIsSafe(s: System, t: TabId, e: Event)
    requires SafetyInv(s) && e.ReceiveReply? && e.tab == t && CanHappen(s, e)
    ensures SafetyInv(Advance(s, e))
  {
    hide Step, Enabled, FirstDelivery, BeforeExpiry, FamiliesOf, DecideStep, ReceiveStep, SaveWriteStep, ServerOk,
         TabsInv, Live;
    NowAwaited(s, t, s.tabs[t].refresh.h);
    hide SafetyInv;
    if s.server.handlers[s.tabs[t].refresh.h].reply == Refused {
      RefusalIsSafe(s, t, e);
    } else {
      SuccessorIsSafe(s, t, e);
    }
  }

  lemma ServerStepIsSafe(s: System, a: Action)
    requires SafetyInv(s) && CanHappen(s, ServerStep(a)) && Disciplined(s, ServerStep(a))
    ensures SafetyInv(Advance(s, ServerStep(a)))
  {
    hide SafetyInv, Step, Enabled;
    if AwaitedOf(s).Some? && HandlerOf(a) == AwaitedOf(s) {
      AwaitedIsServed(s, a);
      AwaitedStepIsSafe(s, a);
    } else {
      OutsideStepIsSafe(s, a);
    }
  }

  lemma AwaitedIsServed(s: System, a: Action)
    requires SafetyInv(s) && Enabled(s.server, a) && AwaitedOf(s).Some? && HandlerOf(a) == AwaitedOf(s)
    requires Disciplined(s, ServerStep(a))
    ensures !a.Stop?
  {
    hide SafetyInv, Enabled, FirstDelivery, BeforeExpiry, FamiliesOf;
  }

  lemma {:induction false} RunIsSafe(s: System, events: seq<Event>)
    requires SafetyInv(s) && DisciplinedRun(s, events)
    ensures SafetyInv(After(s, events))
    decreases |events|
  {
    hide SafetyInv, Disciplined, Advance, CanHappen;
    if events != [] {
      if CanHappen(s, events[0]) {
        EventIsSafe(s, events[0]);
      }
      RunIsSafe(Do(s, events[0]), events[1..]);
    }
  }

  /** In every disciplined run of any number of tabs and the server, reuse detection never reaches a
      family of the tabs: no handler is about to mark one, and no row of one is marked. */
  lemma TabsNeverTripReuseDetection(events: seq<Event>)
    requires DisciplinedRun(START, events)
    ensures !Tripped(After(START, events))
  {
    hide SafetyInv, Tripped, After, DisciplinedRun;
    StartIsSafe();
    RunIsSafe(START, events);
    SafeIsNotTripped(After(START, events));
  }

  /** In every disciplined run a token is presented again only if the server had refused it unclaimed. */
  lemma EachTokenIsPresentedOnce(events: seq<Event>)
    requires DisciplinedRun(START, events)
    ensures PresentedOnce(After(START, events))
  {
    hide ServerOk, After, DisciplinedRun;
    StartIsSafe();
    RunIsSafe(START, events);
  }

  /** The end of a refresh, by adopting the stored snapshot or by saving a new one. */
  predicate EndsRefresh(s: System, e: Event) {
    && CanHappen(s, e)
    && (e.AfterRefresh? || (e.DecideRefresh? && AveSession.Decide(s.tabs[e.tab]).Adopt?))
  }

  lemma EndOfRefreshIsLive(s: System, e: Event)
    requires SafetyInv(s) && EndsRefresh(s, e)
    ensures var t := Advance(s, e);
            GoodAndLive(t.tabs[e.tab].snapshot, t.exposed, LiveOf(t)) && t.lock.None?
  {
    hide Step, Enabled, FirstDelivery, BeforeExpiry, FamiliesOf, ReceiveStep, SaveWriteStep, Known, Live, Quiet, ChainInv,
         InService, PendingDistinct, ReplyPrivate, PresentedOk, PresentedOnce;
    assert TabOk(s.tabs[e.tab], s.exposed, LiveOf(s));
  }

  /** In every disciplined run a refresh that ends leaves its tab with a token that is live on the server. */
  lemma RefreshEndsWithALiveToken(events: seq<Event>, e: Event)
    requires DisciplinedRun(START, events) && EndsRefresh(After(START, events), e)
    ensures var s := After(START, events);
            var t := Advance(s, e);
            GoodAndLive(t.tabs[e.tab].snapshot, t.exposed, LiveOf(t)) && t.lock.None?
  {
    hide After, DisciplinedRun, SafetyInv, Advance, CanHappen, GoodAndLive, LiveOf;
    StartIsSafe();
    RunIsSafe(START, events);
    EndOfRefreshIsLive(After(START, events), e);
  }
}
