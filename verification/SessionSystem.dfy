/** Any number of tabs with one storage and one refresh lock, interleaved with the token endpoint. */
module SessionSystem {
  import opened Options
  import opened TokenServer
  import opened AveSession
  import RefreshErrors

  type TabId = nat

  /** mine: the refresh-token families whose first token came to a tab; exposed: the tokens that left
      the tab that received them; presented and refused: what the tabs sent to the token endpoint. */
  datatype System = System(
    tabs: map<TabId, Tab>,
    storage: Option<Snapshot>,
    lock: Option<TabId>,
    server: Server,
    mine: set<RowId>,
    exposed: set<Token>,
    presented: seq<Token>,
    refused: set<Token>)

  const START: System := System(map[], None, None, INITIAL, {}, {}, [], {})

  datatype Event =
    | OpenTab(tab: TabId)
    | HydrateTab(tab: TabId, fails: bool)
    | ReloadTab(tab: TabId)
    | PeerSignOut(tab: TabId)
    | SetTokens(tab: TabId, tr: TokenResponse)
    | SetAppKey(tab: TabId, key: Option<string>)
    | SignOut(tab: TabId)
    | SaveWrite(tab: TabId)
    | AfterWrite(tab: TabId)
    | BeginRefresh(tab: TabId)
    | AcquireLock(tab: TabId)
    | LoadInLock(tab: TabId, fails: bool)
    | DecideRefresh(tab: TabId, h: HandlerId, appId: nat, authenticated: bool, now: Time)
    | ReceiveReply(tab: TabId, accessToken: nat, expiresAtMs: Time, refusal: RefreshErrors.Refusal, statusText: string)
    | LoseReply(tab: TabId, failure: RefreshErrors.Failure)
    | SaveRefreshed(tab: TabId)
    | AfterRefresh(tab: TabId)
    | ServerStep(action: Action)

  predicate HasTab(s: System, e: Event) {
    if e.ServerStep? || e.OpenTab? then true else e.tab in s.tabs
  }

  /** Whether the code can take the step; the lock is held from AcquireLock to the end of the refresh. */
  predicate CanHappen(s: System, e: Event) {
    && HasTab(s, e)
    && match e
       case OpenTab(t) => t !in s.tabs
       case HydrateTab(_, _) => true
       case ReloadTab(_) => true
       case PeerSignOut(_) => true
       case SetTokens(t, _) => s.tabs[t].write.NotWriting?
       case SetAppKey(t, _) => s.tabs[t].write.NotWriting? && s.tabs[t].snapshot.Some?
       case SignOut(t) => s.tabs[t].write.NotWriting?
       case SaveWrite(t) => s.tabs[t].write.Writing?
       case AfterWrite(t) => s.tabs[t].write.Written?
       case BeginRefresh(t) => s.tabs[t].refresh.Resting? && s.tabs[t].hydrated && s.tabs[t].snapshot.Some?
       case AcquireLock(t) => s.tabs[t].refresh.WaitingForLock? && s.lock.None?
       case LoadInLock(t, _) => s.tabs[t].refresh.ReadingDisk?
       case DecideRefresh(t, h, _, _, _) =>
         s.tabs[t].refresh.Deciding? && (AveSession.Decide(s.tabs[t]).Present? ==> h !in s.server.handlers)
       case ReceiveReply(t, _, _, refusal, statusText) =>
         s.tabs[t].refresh.AwaitingReply? && ReplyReady(s, t) && RefreshErrors.IsStatusText(refusal, statusText)
       case LoseReply(t, _) => s.tabs[t].refresh.AwaitingReply?
       case SaveRefreshed(t) => s.tabs[t].refresh.Saving?
       case AfterRefresh(t) => s.tabs[t].refresh.Saved?
       case ServerStep(a) => Enabled(s.server, a)
  }

  predicate ReplyReady(s: System, t: TabId)
    requires t in s.tabs && s.tabs[t].refresh.AwaitingReply?
  {
    var h := s.tabs[t].refresh.h;
    h in s.server.handlers && s.server.handlers[h].Answered?
  }

  function Put(s: System, t: TabId, tab: Tab): System {
    s.(tabs := s.tabs[t := tab])
  }

  function TokenOf(snapshot: Option<Snapshot>): set<Token> {
    if snapshot.Some? && snapshot.value.refreshToken.Some? then {snapshot.value.refreshToken.value} else {}
  }

  /** The family a token belongs to becomes one of the tabs' when a tab takes the token over. */
  ghost function FamiliesOf(rows: map<RowId, RefreshRow>, tokens: set<Token>): set<RowId> {
    set r | r in rows && rows[r].token in tokens :: rows[r].familyId
  }

  function SaveWriteStep(s: System, t: TabId): System
    requires t in s.tabs && s.tabs[t].write.Writing?
  {
    var tab := s.tabs[t];
    Put(s, t, tab.(write := Written(tab.write.kind, tab.write.next)))
      .(storage := tab.write.next, exposed := s.exposed + TokenOf(tab.write.next))
  }

  ghost function DecideStep(s: System, t: TabId, h: HandlerId, appId: nat, authenticated: bool, now: Time): System
    requires t in s.tabs && s.tabs[t].refresh.Deciding?
    requires AveSession.Decide(s.tabs[t]).Present? ==> h !in s.server.handlers
  {
    var decided := Put(s, t, Decided(s.tabs[t], h));
    match AveSession.Decide(s.tabs[t])
    case Adopt => decided.(lock := None)
    case GiveUp => decided.(lock := None, storage := None)
    case Present(token) =>
      decided.(server := Step(s.server, ReadRefresh(h, token, appId, authenticated, now)),
               presented := s.presented + [token])
  }

  /** The refresh ends with an error: the lock is free again, and a sign-out empties the storage. */
  function FailStep(s: System, t: TabId, failure: RefreshErrors.Failure): System
    requires t in s.tabs && s.tabs[t].refresh.AwaitingReply?
  {
    Put(s, t, Replied(s.tabs[t], Failed(failure)))
      .(lock := None, storage := if SignsOut(Failed(failure)) then None else s.storage)
  }

  /** The reply of the handler; a refusal comes as one of the handler's error responses. */
  function ReceiveStep(s: System, t: TabId, accessToken: nat, expiresAtMs: Time, failure: RefreshErrors.Failure): System
    requires t in s.tabs && s.tabs[t].refresh.AwaitingReply? && ReplyReady(s, t)
  {
    var reply := s.server.handlers[s.tabs[t].refresh.h].reply;
    if reply.Refreshed? then
      Put(s, t, Replied(s.tabs[t], Succeeded(TokenResponse(accessToken, Some(reply.token), None, false, expiresAtMs))))
        .(exposed := s.exposed + {reply.token})
    else FailStep(s, t, failure).(refused := s.refused + TokenOf(Some(s.tabs[t].refresh.prev)))
  }

  /** The handler's refusal, a dead family's included, ends the refresh and changes nothing else of the tab. */
  lemma RefusalOnlyEndsTheRefresh(s: System, t: TabId, accessToken: nat, expiresAtMs: Time,
                                  refusal: RefreshErrors.Refusal, statusText: string)
    requires t in s.tabs && s.tabs[t].refresh.AwaitingReply? && ReplyReady(s, t)
    requires !s.server.handlers[s.tabs[t].refresh.h].reply.Refreshed? && RefreshErrors.IsStatusText(refusal, statusText)
    ensures ReceiveStep(s, t, accessToken, expiresAtMs, RefreshErrors.Refuse(refusal, statusText, ""))
         == Put(s, t, s.tabs[t].(refresh := Resting))
              .(lock := None, refused := s.refused + TokenOf(Some(s.tabs[t].refresh.prev)))
  {
    RefreshErrors.RefusalKeepsTheSession(refusal, statusText, "");
    hide RefreshErrors.Refuse, RefreshErrors.ShouldSignOut, RefreshErrors.IsStatusText, TokenOf;
  }

  ghost function Advance(s: System, e: Event): System
    requires CanHappen(s, e)
  {
    hide Step, Enabled, Hydrate, Reload, PeerSignedOut, BeginSetTokens, FinishWrite, AveSession.Decide, TokenOf,
         FamiliesOf;
    match e
    case OpenTab(t) => Put(s, t, NEW_TAB)
    case HydrateTab(t, fails) => Put(s, t, Hydrate(s.tabs[t], if fails then None else s.storage))
    case ReloadTab(t) => Put(s, t, Reload(s.tabs[t], s.storage))
    case PeerSignOut(t) => Put(s, t, PeerSignedOut(s.tabs[t]))
    case SetTokens(t, tr) =>
      Put(s, t, BeginSetTokens(s.tabs[t], tr)).(mine := s.mine + FamiliesOf(s.server.rows, TokenOf(
        Some(SnapshotFromTokenResponse(tr, s.tabs[t].snapshot)))))
    case SetAppKey(t, key) => Put(s, t, BeginSetAppKey(s.tabs[t], key))
    case SignOut(t) => Put(s, t, BeginSignOut(s.tabs[t]))
    case SaveWrite(t) => SaveWriteStep(s, t)
    case AfterWrite(t) => Put(s, t, FinishWrite(s.tabs[t]))
    case BeginRefresh(t) => Put(s, t, s.tabs[t].(refresh := WaitingForLock))
    case AcquireLock(t) => Put(s, t, s.tabs[t].(refresh := ReadingDisk(s.tabs[t].snapshot))).(lock := Some(t))
    case LoadInLock(t, fails) =>
      Put(s, t, s.tabs[t].(refresh := Deciding(s.tabs[t].refresh.mem, if fails then None else s.storage)))
    case DecideRefresh(t, h, appId, authenticated, now) => DecideStep(s, t, h, appId, authenticated, now)
    case ReceiveReply(t, accessToken, expiresAtMs, refusal, statusText) =>
      ReceiveStep(s, t, accessToken, expiresAtMs, RefreshErrors.Refuse(refusal, statusText, ""))
    case LoseReply(t, failure) => FailStep(s, t, failure)
    case SaveRefreshed(t) =>
      Put(s, t, s.tabs[t].(refresh := Saved(s.tabs[t].refresh.next))).(storage := Some(s.tabs[t].refresh.next))
    case AfterRefresh(t) => Put(s, t, AveSession.FinishRefresh(s.tabs[t])).(lock := None)
    case ServerStep(a) => s.(server := Step(s.server, a))
  }

  /** The handler that serves the refresh of the tab that holds the lock. */
  predicate Awaited(s: System, h: HandlerId) {
    s.lock.Some? && s.lock.value in s.tabs && s.tabs[s.lock.value].refresh.AwaitingReply?
    && s.tabs[s.lock.value].refresh.h == h
  }

  /** A row's token was given to nobody yet: it is live and no handler works on its family. */
  predicate Undisturbed(server: Server, r: RowId) {
    && r in server.rows && server.rows[r].Live()
    && forall h :: h in server.handlers ==> !WorksOn(server, h, server.rows[r].familyId)
  }

  predicate WorksOn(server: Server, h: HandlerId, f: RowId)
    requires h in server.handlers
  {
    match server.handlers[h]
    case Claiming(_, row) => row.familyId == f
    case Inserting(_, row) => row.familyId == f
    case Marking(g) => g == f
    case RevokingExpired(id) => id in server.rows && server.rows[id].familyId == f
    case _ => false
  }

  /** A response of a code exchange that reaches a tab first: it carries the token that started a family. */
  ghost predicate FirstDelivery(s: System, tr: TokenResponse) {
    tr.refreshToken.Some? && exists r :: StartsFamily(s.server, r, tr.refreshToken.value) && r !in s.mine
  }

  predicate StartsFamily(server: Server, r: RowId, token: Token) {
    Undisturbed(server, r) && server.rows[r].token == token && server.rows[r].familyId == r
  }

  datatype Hypothesis =
    | Nothing
    | NoSignOut
    | LoadsSucceed
    | RepliesArrive
    | TokensInTime
    | NoAppKeyWrites
    | SignInsAreFresh
    | NoOverlapInATab
    | TokensStayHome

  /** What the pages and the network have to do for the tabs to be safe, one hypothesis at a time. */
  ghost predicate Breaks(hypothesis: Hypothesis, s: System, e: Event) {
    match hypothesis
    case Nothing => false
    case NoSignOut => e.SignOut? || e.PeerSignOut?
    case LoadsSucceed => e.LoadInLock? && e.fails
    case RepliesArrive => e.LoseReply? || (e.ServerStep? && e.action.Stop? && Awaited(s, e.action.h))
    case TokensInTime => e.DecideRefresh? && e.tab in s.tabs && Presents(s.tabs[e.tab]) && !BeforeExpiry(s, e.tab, e.now)
    case NoAppKeyWrites => e.SetAppKey?
    case SignInsAreFresh => e.SetTokens? && !FirstDelivery(s, e.tr)
    case NoOverlapInATab =>
      || (e.BeginRefresh? && e.tab in s.tabs && !s.tabs[e.tab].write.NotWriting?)
      || (e.SetTokens? && e.tab in s.tabs && !s.tabs[e.tab].refresh.Resting?)
    case TokensStayHome =>
      e.ServerStep? && e.action.ReadRefresh? && !(FamiliesOf(s.server.rows, {e.action.token}) !! s.mine)
  }

  predicate Presents(tab: Tab) {
    tab.refresh.Deciding? && AveSession.Decide(tab).Present?
  }

  /** The step breaks no hypothesis. */
  ghost predicate Disciplined(s: System, e: Event) {
    match e
    case PeerSignOut(_) => false
    case SetTokens(t, tr) => FirstDelivery(s, tr) && (t in s.tabs ==> s.tabs[t].refresh.Resting?)
    case SetAppKey(_, _) => false
    case SignOut(_) => false
    case BeginRefresh(t) => t in s.tabs ==> s.tabs[t].write.NotWriting?
    case LoadInLock(_, fails) => !fails
    case DecideRefresh(t, _, _, _, now) => t in s.tabs && Presents(s.tabs[t]) ==> BeforeExpiry(s, t, now)
    case LoseReply(_, _) => false
    case ServerStep(ReadRefresh(_, token, _, _, _)) => FamiliesOf(s.server.rows, {token}) !! s.mine
    case ServerStep(Stop(h)) => !Awaited(s, h)
    case _ => true
  }

  lemma DisciplinedExactly(s: System, e: Event)
    ensures Disciplined(s, e) <==> forall hypothesis :: !Breaks(hypothesis, s, e)
  {
    hide FirstDelivery, BeforeExpiry, FamiliesOf, Awaited, Presents;
    if !Disciplined(s, e) {
      assert Breaks(NoSignOut, s, e) || Breaks(LoadsSucceed, s, e) || Breaks(RepliesArrive, s, e)
          || Breaks(TokensInTime, s, e) || Breaks(NoAppKeyWrites, s, e) || Breaks(SignInsAreFresh, s, e)
          || Breaks(NoOverlapInATab, s, e) || Breaks(TokensStayHome, s, e);
    }
  }

  predicate BeforeExpiry(s: System, t: TabId, now: Time)
    requires t in s.tabs
  {
    forall r :: r in s.server.rows && s.server.rows[r].token in TokenOf(s.tabs[t].snapshot) ==> now <= s.server.rows[r].expiresAt
  }

  /** An event that cannot happen leaves the system alone, so every list of events is a run. */
  ghost function Do(s: System, e: Event): System {
    if CanHappen(s, e) then Advance(s, e) else s
  }

  lemma ReplyIsReceived(s: System, e: Event)
    requires e.ReceiveReply? && CanHappen(s, e)
    ensures Do(s, e) == ReceiveStep(s, e.tab, e.accessToken, e.expiresAtMs, RefreshErrors.Refuse(e.refusal, e.statusText, ""))
  {
    hide Step, Enabled, ReceiveStep, DecideStep, SaveWriteStep, RefreshErrors.Refuse, RefreshErrors.IsStatusText;
  }

  /** The event of a refusal: it can happen, breaks no hypothesis and only ends the refresh. */
  lemma RefusalArrives(s: System, e: Event)
    requires e.ReceiveReply? && e.tab in s.tabs && s.tabs[e.tab].refresh.AwaitingReply? && ReplyReady(s, e.tab)
    requires !s.server.handlers[s.tabs[e.tab].refresh.h].reply.Refreshed?
    requires RefreshErrors.IsStatusText(e.refusal, e.statusText)
    ensures CanHappen(s, e) && Disciplined(s, e)
    ensures Do(s, e) == Put(s, e.tab, s.tabs[e.tab].(refresh := Resting))
                          .(lock := None, refused := s.refused + TokenOf(Some(s.tabs[e.tab].refresh.prev)))
  {
    hide RefreshErrors.IsStatusText, RefreshErrors.Refuse, TokenOf, Do, ReceiveStep, Enabled;
    assert CanHappen(s, e);
    ReplyIsReceived(s, e);
    RefusalOnlyEndsTheRefresh(s, e.tab, e.accessToken, e.expiresAtMs, e.refusal, e.statusText);
  }

  ghost function After(s: System, events: seq<Event>): System
    decreases |events|
  {
    if events == [] then s else After(Do(s, events[0]), events[1..])
  }

  ghost predicate DisciplinedRun(s: System, events: seq<Event>)
    decreases |events|
  {
    events == [] || (Disciplined(s, events[0]) && DisciplinedRun(Do(s, events[0]), events[1..]))
  }

  /** Reuse detection reached one of the tabs' families. */
  ghost predicate Tripped(s: System) {
    || (exists h :: h in s.server.handlers && s.server.handlers[h].Marking? && s.server.handlers[h].familyId in s.mine)
    || (exists r :: r in s.server.rows && s.server.rows[r].familyId in s.mine && s.server.rows[r].reuseDetectedAt.Some?)
  }
}
