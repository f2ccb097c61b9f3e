/** Every hypothesis of the discipline is needed: a run that drops just that one trips reuse detection. */
module SessionCounterexamples {
  import opened Options
  import opened TokenServer
  import opened E2eeScopes
  import opened RefreshChains
  import opened AveSession
  import opened SessionSystem
  import RefreshErrors
  import opened SessionSafety

  /** The step breaks no hypothesis but the dropped one. */
  ghost predicate KeepsOthers(hypothesis: Hypothesis, s: System, e: Event) {
    forall other :: Breaks(other, s, e) ==> other == hypothesis
  }

  ghost predicate RunWithout(s: System, events: seq<Event>, hypothesis: Hypothesis)
    decreases |events|
  {
    events == [] || (KeepsOthers(hypothesis, s, events[0]) && RunWithout(Do(s, events[0]), events[1..], hypothesis))
  }

  lemma {:induction false} RunsCompose(s: System, first: seq<Event>, second: seq<Event>, hypothesis: Hypothesis)
    ensures After(s, first + second) == After(After(s, first), second)
    ensures RunWithout(s, first, hypothesis) && RunWithout(After(s, first), second, hypothesis)
            ==> RunWithout(s, first + second, hypothesis)
    decreases |first|
  {
    hide Do, KeepsOthers;
    if first == [] {
      assert first + second == second;
    } else {
      assert (first + second)[1..] == first[1..] + second;
      RunsCompose(Do(s, first[0]), first[1..], second, hypothesis);
    }
  }

  /** A tab at rest whose token is the token of a row that is no longer live. */
  ghost predicate Stale(s: System, t: TabId, r: RowId) {
    && t in s.tabs && s.tabs[t].refresh.Resting? && s.tabs[t].hydrated && s.tabs[t].write.NotWriting?
    && s.lock.None? && r in s.server.rows && TokensDistinct(s.server.rows)
    && s.server.rows[r].familyId in s.mine && !s.server.rows[r].Live()
    && s.tabs[t].snapshot.Some? && s.tabs[t].snapshot.value.refreshToken == Some(s.server.rows[r].token)
  }

  function Refresh(t: TabId, fails: bool, h: HandlerId, appId: nat, now: Time): seq<Event> {
    [BeginRefresh(t), AcquireLock(t), LoadInLock(t, fails), DecideRefresh(t, h, appId, true, now)]
  }

  lemma DisciplinedKeepsOthers(hypothesis: Hypothesis, s: System, e: Event)
    ensures Disciplined(s, e) ==> KeepsOthers(hypothesis, s, e)
  {
    hide Disciplined, Breaks;
    DisciplinedExactly(s, e);
  }

  /** One more event in front of a run. */
  lemma Then(s: System, e: Event, rest: seq<Event>, hypothesis: Hypothesis)
    requires Disciplined(s, e) || KeepsOthers(hypothesis, s, e)
    ensures After(s, [e] + rest) == After(Do(s, e), rest)
    ensures RunWithout(Do(s, e), rest, hypothesis) ==> RunWithout(s, [e] + rest, hypothesis)
  {
    DisciplinedKeepsOthers(hypothesis, s, e);
    hide Do, Disciplined, KeepsOthers;
    assert ([e] + rest)[1..] == rest;
  }

  /** The tab once it holds the lock and has read the storage. */
  function DecidingState(s: System, t: TabId, disk: Option<Snapshot>): System
    requires t in s.tabs
  {
    Put(s, t, s.tabs[t].(refresh := Deciding(s.tabs[t].snapshot, disk))).(lock := Some(t))
  }

  lemma ReachesDecision(s: System, t: TabId, r: RowId, fails: bool, last: seq<Event>, hypothesis: Hypothesis)
    requires Stale(s, t, r) && (fails ==> hypothesis.LoadsSucceed?)
    ensures var deciding := DecidingState(s, t, if fails then None else s.storage);
            var events := [BeginRefresh(t)] + ([AcquireLock(t)] + ([LoadInLock(t, fails)] + last));
            && After(s, events) == After(deciding, last)
            && (RunWithout(deciding, last, hypothesis) ==> RunWithout(s, events, hypothesis))
  {
    hide Step, Enabled, FirstDelivery, BeforeExpiry, FamiliesOf, DecideStep, ReceiveStep, Awaited, SCOPE,
         AFTER_EXCHANGE, AFTER_ROTATION, SaveWriteStep;
    hide After, RunWithout;
    var waiting := Put(s, t, s.tabs[t].(refresh := WaitingForLock));
    var reading := Put(s, t, s.tabs[t].(refresh := ReadingDisk(s.tabs[t].snapshot))).(lock := Some(t));
    var deciding := DecidingState(s, t, if fails then None else s.storage);
    assert Do(s, BeginRefresh(t)) == waiting;
    assert Do(waiting, AcquireLock(t)) == reading;
    assert Do(reading, LoadInLock(t, fails)) == deciding;
    Then(reading, LoadInLock(t, fails), last, hypothesis);
    Then(waiting, AcquireLock(t), [LoadInLock(t, fails)] + last, hypothesis);
    Then(s, BeginRefresh(t), [AcquireLock(t)] + ([LoadInLock(t, fails)] + last), hypothesis);
  }

  /** Presenting the token of a row that is not live is what reuse detection detects. */
  lemma DecisionTrips(s: System, t: TabId, r: RowId, disk: Option<Snapshot>, h: HandlerId, now: Time)
    requires Stale(s, t, r) && h !in s.server.handlers && !Tripped(s)
    ensures var deciding := DecidingState(s, t, disk);
            var e := DecideRefresh(t, h, s.server.rows[r].appId, true, now);
            && (now <= s.server.rows[r].expiresAt ==> Disciplined(deciding, e))
            && KeepsOthers(TokensInTime, deciding, e)
            && (Tripped(Do(deciding, e)) <==> disk.None? || !DiskFresh(disk.value, s.tabs[t].snapshot.value))
  {
    hide CheckRequest, FinishStep, ConsumeStep, MarkRows, CleanupStep, ReadCodeStep, DeleteCodeStep, FirstDelivery,
         FamiliesOf, ReceiveStep, SaveWriteStep, RevokeStep, SCOPE, InsertStep, ClaimStep;
    var row := s.server.rows[r];
    var deciding := DecidingState(s, t, disk);
    var e := DecideRefresh(t, h, row.appId, true, now);
    if disk.Some? && DiskFresh(disk.value, s.tabs[t].snapshot.value) {
      assert Do(deciding, e).server == s.server;
    } else {
      assert Decide(deciding.tabs[t]) == Present(row.token);
      assert RowOfToken(s.server.rows, row.token) == Some(r);
      var after := Do(deciding, e);
      assert after.server.handlers[h] == Marking(row.familyId) && h in after.server.handlers;
    }
  }

  /** The refresh of a stale tab trips reuse detection exactly when it does not find fresher tokens on disk. */
  lemma StaleRefreshTrips(s: System, t: TabId, r: RowId, fails: bool, h: HandlerId, now: Time, hypothesis: Hypothesis)
    requires Stale(s, t, r) && h !in s.server.handlers && !Tripped(s)
    requires fails ==> hypothesis.LoadsSucceed?
    requires now > s.server.rows[r].expiresAt ==> hypothesis.TokensInTime?
    ensures var events := Refresh(t, fails, h, s.server.rows[r].appId, now);
            && RunWithout(s, events, hypothesis)
            && (Tripped(After(s, events)) <==>
                  fails || s.storage.None? || !DiskFresh(s.storage.value, s.tabs[t].snapshot.value))
  {
    hide Tripped, Disciplined, Do;
    var disk := if fails then None else s.storage;
    var decide := DecideRefresh(t, h, s.server.rows[r].appId, true, now);
    var deciding := DecidingState(s, t, disk);
    ReachesDecision(s, t, r, fails, [decide], hypothesis);
    DecisionTrips(s, t, r, disk, h, now);
    Then(deciding, decide, [], hypothesis);
    assert [decide] + [] == [decide];
    assert Refresh(t, fails, h, s.server.rows[r].appId, now)
        == [BeginRefresh(t)] + ([AcquireLock(t)] + ([LoadInLock(t, fails)] + [decide]));
  }

  const SCOPE: seq<string> := ["offline_access"]
  const RECORD: CodeRecord := CodeRecord(0, 0, 0, "", SCOPE, 1000, "", "")
  const REQUEST: ExchangeRequest := TokenRequest("", RegisteredClient(0, []), true, true, "")
  const ROOT: RefreshRow := RefreshRow(0, None, 0, 0, 0, SCOPE, 0, 1000, None, None)
  const SUCCESSOR: RefreshRow := RefreshRow(0, Some(0), 0, 0, 0, SCOPE, 1, 1000, None, None)
  const EXCHANGED: Handler := Answered(Exchanged(0, Some(0)))
  const AFTER_EXCHANGE: History := History(map[0 := [0]], map[0 := 0], {0}, [0])
  const AFTER_ROTATION: History := History(map[0 := [0, 1]], map[0 := 0], {0}, [0])

  const FIRST: Snapshot := Snapshot(0, Some(0), None, false, 0)
  const SECOND: Snapshot := Snapshot(1, Some(1), None, false, 0)
  const RESPONSE: TokenResponse := TokenResponse(0, Some(0), None, false, 0)

  /** Tab 0 has saved its sign-in and not gone on; tab 1 has read it from the storage. */
  const SAVED_TAB: Tab := Tab(None, SignedOut, false, Resting, Written(SettingTokens, Some(FIRST)))
  const READING_TAB: Tab := Tab(Some(FIRST), SignedIn, true, Resting, NotWriting)

  const SIGNED_IN: System :=
    System(map[0 := SAVED_TAB, 1 := READING_TAB], Some(FIRST), None,
           Server(map[0 := ROOT], map[], map[0 := EXCHANGED], AFTER_EXCHANGE), {0}, {0}, [], {})

  /** Tab 1 has rotated the token; tab 0 still holds the first one. */
  const ROTATED: System :=
    System(map[0 := SAVED_TAB, 1 := READING_TAB.(snapshot := Some(SECOND))], Some(SECOND), None,
           Server(map[0 := ROOT.(revokedAt := Some(0)), 1 := SUCCESSOR], map[],
                  map[0 := EXCHANGED, 1 := Answered(Refreshed(1))], AFTER_ROTATION),
           {0}, {0, 1}, [0], {})

  const EXCHANGED_SERVER: Server := Server(map[0 := ROOT], map[], map[0 := EXCHANGED], AFTER_EXCHANGE)

  const STORED_CODE: Server := Server(map[], map[0 := RECORD], map[], History(map[], map[], {0}, []))
  const HELD_CODE: Server := Server(map[], map[], map[0 := Exchanging(0, RECORD, REQUEST)], History(map[], map[], {0}, []))

  lemma TheCodeIsGranted()
    ensures CheckRequest(RECORD, REQUEST) == Granted(true)
  {
  }

  lemma TheCodeIsConsumed()
    ensures Do(START, ServerStep(IssueCode(0, RECORD))) == START.(server := STORED_CODE)
    ensures Do(START.(server := STORED_CODE), ServerStep(ConsumeCode(0, 0, REQUEST, 0))) == START.(server := HELD_CODE)
  {
    hide CheckRequest;
  }

  lemma TheExchangeFinishes()
    ensures Do(START.(server := HELD_CODE), ServerStep(FinishExchange(0, 0, 0, 1000))) == START.(server := EXCHANGED_SERVER)
  {
    TheCodeIsGranted();
    hide CheckRequest;
  }

  const OPENED: System := System(map[0 := NEW_TAB, 1 := NEW_TAB], None, None, EXCHANGED_SERVER, {}, {}, [], {})

  const SIGNING_IN: System :=
    OPENED.(tabs := map[0 := NEW_TAB.(write := Writing(SettingTokens, Some(FIRST))), 1 := NEW_TAB], mine := {0})

  lemma TheTabSignsIn()
    ensures Do(OPENED, SetTokens(0, RESPONSE)) == SIGNING_IN && Disciplined(OPENED, SetTokens(0, RESPONSE))
  {
    assert StartsFamily(EXCHANGED_SERVER, 0, 0);
    assert EXCHANGED_SERVER.rows[0].familyId in FamiliesOf(EXCHANGED_SERVER.rows, {0});
    assert FamiliesOf(EXCHANGED_SERVER.rows, {0}) == {0};
    assert {} + {0} == {0 as RowId};
  }

  const SAVED_FIRST: System :=
    SIGNING_IN.(tabs := map[0 := SAVED_TAB, 1 := NEW_TAB], storage := Some(FIRST), exposed := {0})

  lemma TheTabsOpen()
    ensures var s0 := START.(server := EXCHANGED_SERVER);
            var s1 := s0.(tabs := map[0 := NEW_TAB]);
            && Do(s0, OpenTab(0)) == s1 && Disciplined(s0, OpenTab(0))
            && Do(s1, OpenTab(1)) == OPENED && Disciplined(s1, OpenTab(1))
  {
    hide Step, Enabled, FirstDelivery, BeforeExpiry, FamiliesOf, DecideStep, ReceiveStep, Awaited, SCOPE,
         AFTER_EXCHANGE, AFTER_ROTATION, SaveWriteStep;
  }

  /** Tab 1 has asked for a rotation; the handler is about to claim the row. */
  const REQUESTED: System :=
    System(map[0 := SAVED_TAB, 1 := READING_TAB.(refresh := AwaitingReply(1, FIRST))], Some(FIRST), Some(1),
           Server(map[0 := ROOT], map[], map[0 := EXCHANGED, 1 := Claiming(0, ROOT)], AFTER_EXCHANGE), {0}, {0}, [0], {})

  const WAITING: System := Put(SIGNED_IN, 1, READING_TAB.(refresh := WaitingForLock))
  const READING: System := Put(SIGNED_IN, 1, READING_TAB.(refresh := ReadingDisk(Some(FIRST)))).(lock := Some(1))
  const DECIDING: System :=
    Put(SIGNED_IN, 1, READING_TAB.(refresh := Deciding(Some(FIRST), Some(FIRST)))).(lock := Some(1))

  lemma TheLockIsTaken()
    ensures Do(SIGNED_IN, BeginRefresh(1)) == WAITING && Disciplined(SIGNED_IN, BeginRefresh(1))
    ensures Do(WAITING, AcquireLock(1)) == READING && Disciplined(WAITING, AcquireLock(1))
  {
    hide Step, Enabled, FirstDelivery, BeforeExpiry, FamiliesOf, DecideStep, ReceiveStep, Awaited, SCOPE,
         AFTER_EXCHANGE, AFTER_ROTATION, SaveWriteStep;
  }

  lemma TheStorageIsRead()
    ensures Do(READING, LoadInLock(1, false)) == DECIDING && Disciplined(READING, LoadInLock(1, false))
  {
    hide Step, Enabled, FirstDelivery, BeforeExpiry, FamiliesOf, DecideStep, ReceiveStep, Awaited, SCOPE,
         AFTER_EXCHANGE, AFTER_ROTATION, SaveWriteStep;
  }

  lemma TheTokenIsPresented()
    ensures Do(DECIDING, DecideRefresh(1, 1, 0, true, 0)) == REQUESTED
    ensures Disciplined(DECIDING, DecideRefresh(1, 1, 0, true, 0))
  {
    hide CheckRequest, FinishStep, ConsumeStep, MarkRows, CleanupStep, ReadCodeStep, DeleteCodeStep, FirstDelivery,
         FamiliesOf, ReceiveStep, SaveWriteStep, RevokeStep, SCOPE, InsertStep, ClaimStep;
    var rows := DECIDING.server.rows;
    assert rows == map[0 := ROOT] && 0 in rows && rows[0].token == 0;
    var found := RowOfToken(rows, 0);
    assert found.Some? && found.value in map[0 := ROOT];
  }

  const CLAIMED: System :=
    REQUESTED.(server := Server(map[0 := ROOT.(revokedAt := Some(0))], map[], map[0 := EXCHANGED, 1 := Inserting(0, ROOT)],
                                AFTER_EXCHANGE))

  const INSERTED: System := CLAIMED.(server := ROTATED.server)

  const RECEIVED: System :=
    INSERTED.(tabs := map[0 := SAVED_TAB, 1 := READING_TAB.(refresh := Saving(SECOND))], exposed := {0, 1})

  const STORED: System :=
    RECEIVED.(tabs := map[0 := SAVED_TAB, 1 := READING_TAB.(refresh := Saved(SECOND))], storage := Some(SECOND))

  lemma TheRowIsClaimed()
    ensures Do(REQUESTED, ServerStep(Claim(1, 0))) == CLAIMED
    ensures Disciplined(REQUESTED, ServerStep(Claim(1, 0)))
  {
    hide AfterRead, CheckRequest, FinishStep, ConsumeStep, MarkRows, CleanupStep, ReadCodeStep, DeleteCodeStep,
         FirstDelivery, BeforeExpiry, FamiliesOf, DecideStep, ReceiveStep, SaveWriteStep, RevokeStep, SCOPE,
         InsertStep;
  }

  lemma TheSuccessorIsInserted()
    ensures Do(CLAIMED, ServerStep(InsertSuccessor(1, 1, 1, 1000))) == INSERTED
    ensures Disciplined(CLAIMED, ServerStep(InsertSuccessor(1, 1, 1, 1000)))
  {
    hide AfterRead, CheckRequest, FinishStep, ConsumeStep, MarkRows, CleanupStep, ReadCodeStep, DeleteCodeStep,
         FirstDelivery, BeforeExpiry, FamiliesOf, DecideStep, ReceiveStep, SaveWriteStep, RevokeStep, SCOPE,
         ClaimStep;
    assert [0] + [1] == [0, 1 as RowId];
  }

  lemma TheReplyArrives()
    ensures Do(INSERTED, ReceiveReply(1, 1, 0, RefreshErrors.TokenNotFound, "")) == RECEIVED
    ensures Disciplined(INSERTED, ReceiveReply(1, 1, 0, RefreshErrors.TokenNotFound, ""))
  {
    hide Step, Enabled, FirstDelivery, BeforeExpiry, FamiliesOf, DecideStep, Awaited, SCOPE, AFTER_EXCHANGE,
         AFTER_ROTATION, SaveWriteStep;
    assert {0} + {1} == {0, 1 as Token};
  }

  lemma TheSessionIsSaved()
    ensures Do(SIGNING_IN, SaveWrite(0)) == SAVED_FIRST && Disciplined(SIGNING_IN, SaveWrite(0))
  {
    hide Step, Enabled, FirstDelivery, BeforeExpiry, FamiliesOf, DecideStep, ReceiveStep, Awaited, SCOPE,
         AFTER_EXCHANGE, AFTER_ROTATION;
  }

  lemma TheOtherTabReads()
    ensures Do(SAVED_FIRST, HydrateTab(1, false)) == SIGNED_IN && Disciplined(SAVED_FIRST, HydrateTab(1, false))
  {
    hide Step, Enabled, FirstDelivery, BeforeExpiry, FamiliesOf, DecideStep, ReceiveStep, Awaited, SCOPE,
         AFTER_EXCHANGE, AFTER_ROTATION, SaveWriteStep;
  }

  lemma TheSuccessorIsSaved()
    ensures Do(RECEIVED, SaveRefreshed(1)) == STORED && Disciplined(RECEIVED, SaveRefreshed(1))
  {
    hide Step, Enabled, FirstDelivery, BeforeExpiry, FamiliesOf, DecideStep, ReceiveStep, Awaited, SCOPE,
         AFTER_EXCHANGE, AFTER_ROTATION, SaveWriteStep;
  }

  lemma TheRotationEnds()
    ensures Do(STORED, AfterRefresh(1)) == ROTATED && Disciplined(STORED, AfterRefresh(1))
  {
    hide Step, Enabled, FirstDelivery, BeforeExpiry, FamiliesOf, DecideStep, ReceiveStep, Awaited, SCOPE,
         AFTER_EXCHANGE, AFTER_ROTATION, SaveWriteStep;
  }

  ghost predicate Reaches(s: System, target: System, hypothesis: Hypothesis) {
    exists events :: After(s, events) == target && RunWithout(s, events, hypothesis)
  }

  lemma ReachStep(s: System, e: Event, next: System, hypothesis: Hypothesis)
    requires Reaches(START, s, hypothesis) && Do(s, e) == next
    requires Disciplined(s, e) || KeepsOthers(hypothesis, s, e)
    ensures Reaches(START, next, hypothesis)
  {
    DisciplinedKeepsOthers(hypothesis, s, e);
    hide Do, Disciplined, KeepsOthers;
    var events :| After(START, events) == s && RunWithout(START, events, hypothesis);
    assert [e][1..] == [];
    assert After(s, [e]) == After(next, [e][1..]) && RunWithout(s, [e], hypothesis);
    RunsCompose(START, events, [e], hypothesis);
    assert After(START, events + [e]) == next;
  }

  lemma StartIsReached(hypothesis: Hypothesis)
    ensures Reaches(START, START, hypothesis)
  {
    assert After(START, []) == START && RunWithout(START, [], hypothesis);
  }

  lemma ReachesSignIn(hypothesis: Hypothesis)
    ensures Reaches(START, SIGNING_IN, hypothesis)
  {
    var opening := START.(server := EXCHANGED_SERVER);
    hide Do, KeepsOthers, Reaches;
    StartIsReached(hypothesis);
    TheCodeIsConsumed();
    TheExchangeFinishes();
    TheTabsOpen();
    TheTabSignsIn();
    ReachStep(START, ServerStep(IssueCode(0, RECORD)), START.(server := STORED_CODE), hypothesis);
    ReachStep(START.(server := STORED_CODE), ServerStep(ConsumeCode(0, 0, REQUEST, 0)), START.(server := HELD_CODE), hypothesis);
    ReachStep(START.(server := HELD_CODE), ServerStep(FinishExchange(0, 0, 0, 1000)), opening, hypothesis);
    hide Disciplined;
    ReachStep(opening, OpenTab(0), opening.(tabs := map[0 := NEW_TAB]), hypothesis);
    ReachStep(opening.(tabs := map[0 := NEW_TAB]), OpenTab(1), OPENED, hypothesis);
    ReachStep(OPENED, SetTokens(0, RESPONSE), SIGNING_IN, hypothesis);
  }

  lemma ReachesSignedIn(hypothesis: Hypothesis)
    ensures Reaches(START, SIGNED_IN, hypothesis)
  {
    hide Do, Disciplined, KeepsOthers, Reaches;
    ReachesSignIn(hypothesis);
    TheSessionIsSaved();
    TheOtherTabReads();
    ReachStep(SIGNING_IN, SaveWrite(0), SAVED_FIRST, hypothesis);
    ReachStep(SAVED_FIRST, HydrateTab(1, false), SIGNED_IN, hypothesis);
  }

  lemma ReachesDeciding(hypothesis: Hypothesis)
    ensures Reaches(START, DECIDING, hypothesis)
  {
    hide Do, Disciplined, KeepsOthers, Reaches;
    ReachesSignedIn(hypothesis);
    TheLockIsTaken();
    TheStorageIsRead();
    ReachStep(SIGNED_IN, BeginRefresh(1), WAITING, hypothesis);
    ReachStep(WAITING, AcquireLock(1), READING, hypothesis);
    ReachStep(READING, LoadInLock(1, false), DECIDING, hypothesis);
  }

  lemma ReachesClaimed(hypothesis: Hypothesis)
    ensures Reaches(START, CLAIMED, hypothesis)
  {
    hide Do, Disciplined, KeepsOthers, Reaches;
    ReachesDeciding(hypothesis);
    TheTokenIsPresented();
    TheRowIsClaimed();
    ReachStep(DECIDING, DecideRefresh(1, 1, 0, true, 0), REQUESTED, hypothesis);
    ReachStep(REQUESTED, ServerStep(Claim(1, 0)), CLAIMED, hypothesis);
  }

  /** The discipline leaves room for a whole rotation. */
  lemma ReachesRotated(hypothesis: Hypothesis)
    ensures Reaches(START, ROTATED, hypothesis)
  {
    hide Do, Disciplined, KeepsOthers, Reaches;
    ReachesClaimed(hypothesis);
    TheSuccessorIsInserted();
    TheReplyArrives();
    TheSuccessorIsSaved();
    TheRotationEnds();
    ReachStep(CLAIMED, ServerStep(InsertSuccessor(1, 1, 1, 1000)), INSERTED, hypothesis);
    ReachStep(INSERTED, ReceiveReply(1, 1, 0, RefreshErrors.TokenNotFound, ""), RECEIVED, hypothesis);
    ReachStep(RECEIVED, SaveRefreshed(1), STORED, hypothesis);
    ReachStep(STORED, AfterRefresh(1), ROTATED, hypothesis);
  }

  /** Tab 0 went on after its sign-in was saved, with a token that has been rotated since. */
  const LEFT_BEHIND: System := ROTATED.(tabs := ROTATED.tabs[0 := READING_TAB])

  lemma ReachesLeftBehind(hypothesis: Hypothesis)
    ensures Reaches(START, LEFT_BEHIND, hypothesis)
  {
    hide Step, Enabled, FirstDelivery, BeforeExpiry, FamiliesOf, DecideStep, ReceiveStep, Awaited, SCOPE,
         AFTER_EXCHANGE, AFTER_ROTATION, SaveWriteStep;
    hide Reaches, KeepsOthers;
    ReachesRotated(hypothesis);
    ReachStep(ROTATED, AfterWrite(0), LEFT_BEHIND, hypothesis);
  }

  ghost predicate Trips(hypothesis: Hypothesis) {
    exists events :: RunWithout(START, events, hypothesis) && Tripped(After(START, events))
  }

  lemma ReachesTrip(s: System, t: TabId, r: RowId, fails: bool, h: HandlerId, now: Time,
                    hypothesis: Hypothesis)
    requires Reaches(START, s, hypothesis) && Stale(s, t, r) && h !in s.server.handlers && !Tripped(s)
    requires fails ==> hypothesis.LoadsSucceed?
    requires fails || s.storage.None? || !DiskFresh(s.storage.value, s.tabs[t].snapshot.value)
    requires now > s.server.rows[r].expiresAt ==> hypothesis.TokensInTime?
    ensures Trips(hypothesis)
  {
    hide Tripped, Refresh, KeepsOthers, After, RunWithout, DiskFresh;
    StaleRefreshTrips(s, t, r, fails, h, now, hypothesis);
    var last := Refresh(t, fails, h, s.server.rows[r].appId, now);
    hide Stale;
    var events :| After(START, events) == s && RunWithout(START, events, hypothesis);
    RunsCompose(START, events, last, hypothesis);
    assert RunWithout(START, events + last, hypothesis) && Tripped(After(START, events + last));
  }

  lemma StillUntripped(s: System)
    requires s.server.rows == map[0 := ROOT.(revokedAt := Some(0)), 1 := SUCCESSOR] && s.mine == {0}
    requires s.server.handlers == map[0 := EXCHANGED, 1 := Answered(Refreshed(1))]
    ensures !Tripped(s) && TokensDistinct(s.server.rows)
  {
  }

  lemma FailedLoadTrips()
    ensures Trips(LoadsSucceed)
  {
    hide Reaches, Trips, Tripped;
    ReachesLeftBehind(LoadsSucceed);
    StillUntripped(LEFT_BEHIND);
    ReachesTrip(LEFT_BEHIND, 0, 0, true, 2, 1000, LoadsSucceed);
  }

  lemma SignOutTrips()
    ensures Trips(NoSignOut)
  {
    hide Step, Enabled, FirstDelivery, BeforeExpiry, FamiliesOf, DecideStep, ReceiveStep, Awaited, SCOPE,
         AFTER_EXCHANGE, AFTER_ROTATION;
    hide Reaches, Trips, Tripped;
    var leaving := LEFT_BEHIND.(tabs := LEFT_BEHIND.tabs[1 := Tab(None, SignedIn, true, Resting, Writing(SigningOut, None))]);
    var left := LEFT_BEHIND.(tabs := LEFT_BEHIND.tabs[1 := Tab(None, SignedIn, true, Resting, Written(SigningOut, None))],
                             storage := None);
    ReachesLeftBehind(NoSignOut);
    ReachStep(LEFT_BEHIND, SignOut(1), leaving, NoSignOut);
    assert {0, 1} + {} == {0, 1 as Token};
    ReachStep(leaving, SaveWrite(1), left, NoSignOut);
    StillUntripped(left);
    ReachesTrip(left, 0, 0, false, 2, 1000, NoSignOut);
  }

  /** setAppKeyBase64 writes the token it finds in memory back to the storage. */
  lemma AppKeyTrips()
    ensures Trips(NoAppKeyWrites)
  {
    hide Step, Enabled, FirstDelivery, BeforeExpiry, FamiliesOf, DecideStep, ReceiveStep, Awaited, SCOPE,
         AFTER_EXCHANGE, AFTER_ROTATION, SaveWriteStep;
    hide Reaches, Trips, Tripped;
    var keyed := FIRST.(appKey := Some(""));
    var writing := LEFT_BEHIND.(tabs := LEFT_BEHIND.tabs[0 := READING_TAB.(write := Writing(SettingAppKey, Some(keyed)))]);
    ReachesLeftBehind(NoAppKeyWrites);
    ReachStep(LEFT_BEHIND, SetAppKey(0, Some("")), writing, NoAppKeyWrites);
    StaleWriteTrips(writing, SettingAppKey, keyed, NoAppKeyWrites);
  }

  /** A sign-in response without a refresh token keeps the one in memory. */
  lemma BareSignInTrips()
    ensures Trips(SignInsAreFresh)
  {
    hide Step, Enabled, BeforeExpiry, FamiliesOf, DecideStep, ReceiveStep, Awaited, SCOPE, AFTER_EXCHANGE,
         AFTER_ROTATION, SaveWriteStep;
    hide Reaches, Trips, Tripped;
    var bare := TokenResponse(0, None, None, false, 0);
    var writing := LEFT_BEHIND.(tabs := LEFT_BEHIND.tabs[0 := READING_TAB.(write := Writing(SettingTokens, Some(FIRST)))]);
    ReachesLeftBehind(SignInsAreFresh);
    BareSignInStep(bare, writing);
    ReachStep(LEFT_BEHIND, SetTokens(0, bare), writing, SignInsAreFresh);
    StaleWriteTrips(writing, SettingTokens, FIRST, SignInsAreFresh);
  }

  lemma BareSignInStep(bare: TokenResponse, writing: System)
    requires bare == TokenResponse(0, None, None, false, 0)
    requires writing == LEFT_BEHIND.(tabs := LEFT_BEHIND.tabs[0 := READING_TAB.(write := Writing(SettingTokens, Some(FIRST)))])
    ensures Do(LEFT_BEHIND, SetTokens(0, bare)) == writing
  {
    hide Step, Enabled, FirstDelivery, BeforeExpiry, DecideStep, ReceiveStep, Awaited, SCOPE, AFTER_EXCHANGE,
         AFTER_ROTATION, SaveWriteStep;
    var rows := LEFT_BEHIND.server.rows;
    assert SnapshotFromTokenResponse(bare, Some(FIRST)) == FIRST && TokenOf(Some(FIRST)) == {0};
    assert FamiliesOf(rows, {0}) <= {0} && {0 as RowId} + FamiliesOf(rows, {0}) == {0};
  }

  lemma StaleWriteTrips(writing: System, kind: WriteKind, next: Snapshot, hypothesis: Hypothesis)
    requires Reaches(START, writing, hypothesis) && !kind.SigningOut? && next.refreshToken == Some(0) && next.expiresAtMs == 0
    requires writing == LEFT_BEHIND.(tabs := LEFT_BEHIND.tabs[0 := READING_TAB.(write := Writing(kind, Some(next)))])
    ensures Trips(hypothesis)
  {
    hide Step, Enabled, FirstDelivery, BeforeExpiry, FamiliesOf, DecideStep, ReceiveStep, Awaited, SCOPE,
         AFTER_EXCHANGE, AFTER_ROTATION, SaveWriteStep;
    hide Reaches, Trips, Tripped, KeepsOthers;
    var written := LEFT_BEHIND.(tabs := LEFT_BEHIND.tabs[0 := READING_TAB.(write := Written(kind, Some(next)))],
                                storage := Some(next));
    var done := written.(tabs := LEFT_BEHIND.tabs[0 := READING_TAB.(snapshot := Some(next))]);
    WriteSteps(writing, written, done, kind, next);
    ReachStep(writing, SaveWrite(0), written, hypothesis) by { hide Do; }
    ReachStep(written, AfterWrite(0), done, hypothesis) by { hide Do; }
    hide Do;
    StillUntripped(done);
    ReachesTrip(done, 0, 0, false, 2, 1000, hypothesis);
  }

  lemma WriteSteps(writing: System, written: System, done: System, kind: WriteKind, next: Snapshot)
    requires !kind.SigningOut? && next.refreshToken == Some(0)
    requires writing == LEFT_BEHIND.(tabs := LEFT_BEHIND.tabs[0 := READING_TAB.(write := Writing(kind, Some(next)))])
    requires written == LEFT_BEHIND.(tabs := LEFT_BEHIND.tabs[0 := READING_TAB.(write := Written(kind, Some(next)))],
                                     storage := Some(next))
    requires done == written.(tabs := LEFT_BEHIND.tabs[0 := READING_TAB.(snapshot := Some(next))])
    ensures Do(writing, SaveWrite(0)) == written
    ensures Do(written, AfterWrite(0)) == done
  {
    hide Step, Enabled, FirstDelivery, BeforeExpiry, FamiliesOf, DecideStep, ReceiveStep, Awaited, SCOPE,
         AFTER_EXCHANGE, AFTER_ROTATION;
    assert {0, 1} + {0} == {0, 1 as Token};
  }

  /** The server rotated the token and the successor never arrived. */
  lemma LostReplyTrips()
    ensures Trips(RepliesArrive)
  {
    hide Step, Enabled, FirstDelivery, BeforeExpiry, FamiliesOf, DecideStep, ReceiveStep, Awaited, SCOPE,
         SaveWriteStep;
    hide Reaches, Trips;
    var lost := CLAIMED.(tabs := map[0 := SAVED_TAB, 1 := READING_TAB], lock := None);
    ReachesClaimed(RepliesArrive);
    RefreshErrors.NetworkErrorKeepsTheSession();
    hide RefreshErrors.ShouldSignOut;
    ReachStep(CLAIMED, LoseReply(1, RefreshErrors.OtherError("Failed to fetch")), lost, RepliesArrive);
    hide Do;
    assert TokensDistinct(lost.server.rows);
    ReachesTrip(lost, 1, 0, false, 2, 1000, RepliesArrive);
  }

  const LATE: Server :=
    Server(map[0 := ROOT], map[], map[0 := EXCHANGED, 1 := RevokingExpired(0)], AFTER_EXCHANGE)

  const EXPIRED: Server :=
    Server(map[0 := ROOT.(revokedAt := Some(2000))], map[], map[0 := EXCHANGED, 1 := Answered(Refused)], AFTER_EXCHANGE)

  lemma TheTokenIsPresentedLate()
    ensures Do(DECIDING, DecideRefresh(1, 1, 0, true, 2000)) == REQUESTED.(server := LATE)
  {
    hide CheckRequest, FinishStep, ConsumeStep, MarkRows, CleanupStep, ReadCodeStep, DeleteCodeStep, FirstDelivery,
         BeforeExpiry, FamiliesOf, ReceiveStep, SaveWriteStep, RevokeStep, SCOPE, InsertStep, ClaimStep;
    var rows := DECIDING.server.rows;
    assert rows == map[0 := ROOT] && 0 in rows && rows[0].token == 0;
    var found := RowOfToken(rows, 0);
    assert found.Some? && found.value in map[0 := ROOT];
  }

  lemma TheRowIsRevoked()
    ensures Do(REQUESTED.(server := LATE), ServerStep(RevokeExpired(1, 2000))) == REQUESTED.(server := EXPIRED)
    ensures Disciplined(REQUESTED.(server := LATE), ServerStep(RevokeExpired(1, 2000)))
  {
    hide AfterRead, CheckRequest, FinishStep, ConsumeStep, MarkRows, CleanupStep, ReadCodeStep, DeleteCodeStep,
         FirstDelivery, BeforeExpiry, FamiliesOf, DecideStep, ReceiveStep, SaveWriteStep, SCOPE, InsertStep,
         ClaimStep;
  }

  /** An expired row is revoked and its token kept, so presenting it again counts as reuse. */
  lemma LateTokenTrips()
    ensures Trips(TokensInTime)
  {
    hide Reaches, Trips, Do, Disciplined, Tripped;
    var refused := REQUESTED.(tabs := map[0 := SAVED_TAB, 1 := READING_TAB], lock := None, server := EXPIRED, refused := {0});
    ReachesDeciding(TokensInTime);
    TheTokenIsPresentedLate();
    TheRowIsRevoked();
    TheRefusalArrives(refused);
    ReachStep(DECIDING, DecideRefresh(1, 1, 0, true, 2000), REQUESTED.(server := LATE), TokensInTime);
    ReachStep(REQUESTED.(server := LATE), ServerStep(RevokeExpired(1, 2000)), REQUESTED.(server := EXPIRED), TokensInTime);
    ReachStep(REQUESTED.(server := EXPIRED), ReceiveReply(1, 0, 0, RefreshErrors.TokenExpired, ""), refused, TokensInTime);
    RefusedIsStale(refused);
    ReachesTrip(refused, 1, 0, false, 2, 3000, TokensInTime);
  }

  lemma RefusedIsStale(refused: System)
    requires refused
      == REQUESTED.(tabs := map[0 := SAVED_TAB, 1 := READING_TAB], lock := None, server := EXPIRED, refused := {0})
    ensures Stale(refused, 1, 0) && !Tripped(refused)
  {
  }

  lemma TheRefusalArrives(refused: System)
    requires refused
      == REQUESTED.(tabs := map[0 := SAVED_TAB, 1 := READING_TAB], lock := None, server := EXPIRED, refused := {0})
    ensures Do(REQUESTED.(server := EXPIRED), ReceiveReply(1, 0, 0, RefreshErrors.TokenExpired, "")) == refused
    ensures Disciplined(REQUESTED.(server := EXPIRED), ReceiveReply(1, 0, 0, RefreshErrors.TokenExpired, ""))
  {
    var late := REQUESTED.(server := EXPIRED);
    hide Do, Disciplined, CanHappen, SCOPE, AFTER_EXCHANGE, AFTER_ROTATION;
    RefusalArrives(late, ReceiveReply(1, 0, 0, RefreshErrors.TokenExpired, ""));
    assert {} + {0} == {0 as Token};
  }

  const STEALING: System :=
    SIGNED_IN.(server := Server(map[0 := ROOT], map[], map[0 := EXCHANGED, 2 := Claiming(0, ROOT)], AFTER_EXCHANGE))

  const STOLEN: System :=
    SIGNED_IN.(server := Server(map[0 := ROOT.(revokedAt := Some(0))], map[],
                                map[0 := EXCHANGED, 2 := Inserting(0, ROOT)], AFTER_EXCHANGE))

  lemma TheTokenIsStolen()
    ensures Do(SIGNED_IN, ServerStep(ReadRefresh(2, 0, 0, true, 0))) == STEALING
  {
    hide CheckRequest, FinishStep, ConsumeStep, MarkRows, CleanupStep, ReadCodeStep, DeleteCodeStep, FirstDelivery,
         FamiliesOf, ReceiveStep, SaveWriteStep, DecideStep, BeforeExpiry, RevokeStep, SCOPE, InsertStep, ClaimStep;
    var rows := SIGNED_IN.server.rows;
    assert rows == map[0 := ROOT] && 0 in rows && rows[0].token == 0;
    var found := RowOfToken(rows, 0);
    assert found.Some? && found.value in map[0 := ROOT];
  }

  lemma TheThiefClaims()
    ensures Do(STEALING, ServerStep(Claim(2, 0))) == STOLEN && Disciplined(STEALING, ServerStep(Claim(2, 0)))
  {
    hide CheckRequest, FinishStep, ConsumeStep, MarkRows, CleanupStep, ReadCodeStep, DeleteCodeStep, FirstDelivery,
         FamiliesOf, ReceiveStep, SaveWriteStep, DecideStep, BeforeExpiry, RevokeStep, SCOPE, InsertStep, AfterRead,
         RowOfToken;
  }

  /** Someone else presents a tab's token and claims its row. */
  lemma StolenTokenTrips()
    ensures Trips(TokensStayHome)
  {
    hide Reaches, Trips, Do, Disciplined;
    ReachesSignedIn(TokensStayHome);
    TheTokenIsStolen();
    TheThiefClaims();
    ReachStep(SIGNED_IN, ServerStep(ReadRefresh(2, 0, 0, true, 0)), STEALING, TokensStayHome);
    hide KeepsOthers;
    ReachStep(STEALING, ServerStep(Claim(2, 0)), STOLEN, TokensStayHome);
    assert TokensDistinct(STOLEN.server.rows);
    ReachesTrip(STOLEN, 1, 0, false, 3, 1000, TokensStayHome);
  }

  /** Tab 0 reads the new token, and the end of its own sign-in puts the old one back under the refresh. */
  lemma OverlapTrips()
    ensures Trips(NoOverlapInATab)
  {
    hide Reaches, Trips, Do, Disciplined;
    ReachesRotated(NoOverlapInATab);
    TheTabReadsTheSuccessor();
    TheTabTakesTheLock();
    TheTabComparesWithTheSuccessor();
    TheSignInEnds();
    ReachStep(ROTATED, HydrateTab(0, false), WithTab(READ_TAB), NoOverlapInATab);
    ReachStep(WithTab(READ_TAB), BeginRefresh(0), WithTab(READ_TAB.(refresh := WaitingForLock)), NoOverlapInATab);
    ReachStep(WithTab(READ_TAB.(refresh := WaitingForLock)), AcquireLock(0),
              WithTab(READ_TAB.(refresh := ReadingDisk(Some(SECOND)))).(lock := Some(0)), NoOverlapInATab);
    ReachStep(WithTab(READ_TAB.(refresh := ReadingDisk(Some(SECOND)))).(lock := Some(0)), LoadInLock(0, false),
              WithTab(READ_TAB.(refresh := COMPARING)).(lock := Some(0)), NoOverlapInATab);
    ReachStep(WithTab(READ_TAB.(refresh := COMPARING)).(lock := Some(0)), AfterWrite(0),
              WithTab(READING_TAB.(refresh := COMPARING)).(lock := Some(0)), NoOverlapInATab);
    OverwrittenTrips(WithTab(READING_TAB.(refresh := COMPARING)).(lock := Some(0)));
  }

  function WithTab(tab: Tab): System {
    ROTATED.(tabs := ROTATED.tabs[0 := tab])
  }

  const READ_TAB: Tab := SAVED_TAB.(snapshot := Some(SECOND), status := SignedIn, hydrated := true)
  const COMPARING: RefreshPhase := Deciding(Some(SECOND), Some(SECOND))

  lemma TheTabReadsTheSuccessor()
    ensures Do(ROTATED, HydrateTab(0, false)) == WithTab(READ_TAB) && Disciplined(ROTATED, HydrateTab(0, false))
    ensures Do(WithTab(READ_TAB), BeginRefresh(0)) == WithTab(READ_TAB.(refresh := WaitingForLock))
  {
    hide Step, Enabled, FirstDelivery, BeforeExpiry, FamiliesOf, DecideStep, ReceiveStep, Awaited, SCOPE,
         AFTER_EXCHANGE, AFTER_ROTATION, SaveWriteStep;
  }

  lemma TheTabTakesTheLock()
    ensures var waiting := WithTab(READ_TAB.(refresh := WaitingForLock));
            && Do(waiting, AcquireLock(0)) == WithTab(READ_TAB.(refresh := ReadingDisk(Some(SECOND)))).(lock := Some(0))
            && Disciplined(waiting, AcquireLock(0))
  {
    hide Step, Enabled, FirstDelivery, BeforeExpiry, FamiliesOf, DecideStep, ReceiveStep, Awaited, SCOPE,
         AFTER_EXCHANGE, AFTER_ROTATION, SaveWriteStep;
  }

  lemma TheTabComparesWithTheSuccessor()
    ensures var reading := WithTab(READ_TAB.(refresh := ReadingDisk(Some(SECOND)))).(lock := Some(0));
            && Do(reading, LoadInLock(0, false)) == WithTab(READ_TAB.(refresh := COMPARING)).(lock := Some(0))
            && Disciplined(reading, LoadInLock(0, false))
  {
    hide Step, Enabled, FirstDelivery, BeforeExpiry, FamiliesOf, DecideStep, ReceiveStep, Awaited, SCOPE,
         AFTER_EXCHANGE, AFTER_ROTATION, SaveWriteStep;
  }

  lemma TheSignInEnds()
    ensures var comparing := WithTab(READ_TAB.(refresh := COMPARING)).(lock := Some(0));
            && Do(comparing, AfterWrite(0)) == WithTab(READING_TAB.(refresh := COMPARING)).(lock := Some(0))
            && Disciplined(comparing, AfterWrite(0))
  {
    hide Step, Enabled, FirstDelivery, BeforeExpiry, FamiliesOf, DecideStep, ReceiveStep, Awaited, SCOPE,
         AFTER_EXCHANGE, AFTER_ROTATION, SaveWriteStep;
  }

  lemma OverwrittenTrips(overwritten: System)
    requires overwritten == WithTab(READING_TAB.(refresh := COMPARING)).(lock := Some(0))
    requires Reaches(START, overwritten, NoOverlapInATab)
    ensures Trips(NoOverlapInATab)
  {
    hide CheckRequest, FinishStep, ConsumeStep, MarkRows, CleanupStep, ReadCodeStep, DeleteCodeStep, FirstDelivery,
         FamiliesOf, ReceiveStep, SaveWriteStep, RevokeStep, SCOPE, InsertStep, ClaimStep;
    hide Reaches, Trips, KeepsOthers;
    var e := DecideRefresh(0, 2, 0, true, 0);
    StillUntripped(overwritten);
    assert AveSession.Decide(overwritten.tabs[0]) == Present(0);
    assert overwritten.server.rows[0].token == 0;
    assert RowOfToken(overwritten.server.rows, 0) == Some(0);
    var after := Do(overwritten, e);
    assert 2 in after.server.handlers && after.server.handlers[2] == Marking(0);
    assert Tripped(after);
    ReachStep(overwritten, e, after, NoOverlapInATab);
    ReachedTrip(after, NoOverlapInATab);
  }

  lemma ReachedTrip(s: System, hypothesis: Hypothesis)
    requires Reaches(START, s, hypothesis) && Tripped(s)
    ensures Trips(hypothesis)
  {
    hide Tripped, KeepsOthers;
    var events :| After(START, events) == s && RunWithout(START, events, hypothesis);
    assert Tripped(After(START, events));
  }

  /** No hypothesis can be dropped: with all the others kept, some run trips reuse detection. */
  lemma EveryHypothesisIsNeeded(hypothesis: Hypothesis)
    ensures Trips(hypothesis) <==> !hypothesis.Nothing?
  {
    hide Trips;
    match hypothesis
    case Nothing => DisciplineTripsNothing();
    case NoSignOut => SignOutTrips();
    case LoadsSucceed => FailedLoadTrips();
    case RepliesArrive => LostReplyTrips();
    case TokensInTime => LateTokenTrips();
    case NoAppKeyWrites => AppKeyTrips();
    case SignInsAreFresh => BareSignInTrips();
    case NoOverlapInATab => OverlapTrips();
    case TokensStayHome => StolenTokenTrips();
  }

  lemma DisciplineTripsNothing()
    ensures !Trips(Nothing)
  {
    hide Tripped;
    forall events | RunWithout(START, events, Nothing)
      ensures !Tripped(After(START, events))
    {
      DroppingNothing(START, events);
      TabsNeverTripReuseDetection(events);
    }
  }

  lemma NothingIsBroken(s: System, e: Event)
    requires KeepsOthers(Nothing, s, e)
    ensures Disciplined(s, e)
  {
    hide Disciplined;
    DisciplinedExactly(s, e);
    assert !Breaks(Nothing, s, e);
  }

  lemma {:induction false} DroppingNothing(s: System, events: seq<Event>)
    requires RunWithout(s, events, Nothing)
    ensures DisciplinedRun(s, events)
    decreases |events|
  {
    if events != [] {
      NothingIsBroken(s, events[0]);
      hide Do, Disciplined, KeepsOthers;
      DroppingNothing(Do(s, events[0]), events[1..]);
    }
  }
}
