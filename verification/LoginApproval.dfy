/**
 * Logging in by approval from another device: routes/login/approval.ts and the approve and
 * deny handlers of routes/devices.ts, cut at their database statements.
 */
module LoginApproval {
  import opened Options
  import opened Cardinality

  type RequestId = nat
  type HandlerId = nat
  type Time = int

  datatype Status = Pending | Approved | Denied | Consumed

  /** What approve stores for the requester. */
  datatype Grant = Grant(encryptedMasterKey: string, approverPublicKey: string)

  const NO_GRANT: Grant := Grant("", "")

  /** A row of login_requests. */
  datatype LoginRequest = LoginRequest(handle: nat, expiresAt: Time, status: Status, grant: Grant)

  datatype Reply =
    | NotFound
    | AlreadyHandled
    | Expired
    | Unauthorized
    | Done
    | StillPending
    | KeyMissing
    | WasDenied
    | LoggedIn(id: RequestId, grant: Grant)
    | LoginRefused

  /** An answered handler has sent its response; the others name their next statement. */
  datatype Handler =
    | Approving(id: RequestId, grant: Grant)
    | Denying(id: RequestId)
    | Claiming(id: RequestId)
    | Claimed(id: RequestId, grant: Grant)
    | SessionMade(id: RequestId, grant: Grant)
    | DeletingDenied(id: RequestId)
    | Answered(reply: Reply)

  /** clock is the time of the last statement or check that looked at it. */
  datatype State = State(
    clock: Time,
    requests: map<RequestId, LoginRequest>,
    handlers: map<HandlerId, Handler>,
    created: set<RequestId>,
    approvals: map<RequestId, Grant>,
    denials: set<RequestId>,
    sessions: seq<RequestId>)

  const INITIAL: State := State(0, map[], map[], {}, map[], {}, [])

  datatype Action =
    | RequestApproval(id: RequestId, handle: nat, now: Time)
    | ReadToApprove(h: HandlerId, id: RequestId, handles: set<nat>, grant: Grant, now: Time)
    | Approve(h: HandlerId, now: Time)
    | ReadToDeny(h: HandlerId, id: RequestId, handles: set<nat>)
    | Deny(h: HandlerId, now: Time)
    | Poll(h: HandlerId, id: RequestId, now: Time)
    | Claim(h: HandlerId)
    | InsertSession(h: HandlerId, identityOk: bool)
    | DeleteServed(h: HandlerId)
    | DeleteDenied(h: HandlerId)
    | Stop(h: HandlerId)

  const LIFETIME: Time := 5 * 60 * 1000

  /** Time does not run backwards. */
  predicate Enabled(s: State, a: Action) {
    match a
    case RequestApproval(id, _, now) => id !in s.created && s.clock <= now
    case ReadToApprove(h, _, _, _, now) => h !in s.handlers && s.clock <= now
    case Approve(h, now) => h in s.handlers && s.handlers[h].Approving? && s.clock <= now
    case ReadToDeny(h, _, _) => h !in s.handlers
    case Deny(h, now) => h in s.handlers && s.handlers[h].Denying? && s.clock <= now
    case Poll(h, _, now) => h !in s.handlers && s.clock <= now
    case Claim(h) => h in s.handlers && s.handlers[h].Claiming?
    case InsertSession(h, _) => h in s.handlers && s.handlers[h].Claimed?
    case DeleteServed(h) => h in s.handlers && s.handlers[h].SessionMade?
    case DeleteDenied(h) => h in s.handlers && s.handlers[h].DeletingDenied?
    case Stop(h) => h in s.handlers
  }

  function Become(s: State, h: HandlerId, handler: Handler): State {
    s.(handlers := s.handlers[h := handler])
  }

  function CheckToApprove(s: State, id: RequestId, handles: set<nat>, grant: Grant, now: Time): Handler {
    if id !in s.requests then Answered(NotFound)
    else if !s.requests[id].status.Pending? then Answered(AlreadyHandled)
    else if now > s.requests[id].expiresAt then Answered(Expired)
    else if s.requests[id].handle !in handles then Answered(Unauthorized)
    else Approving(id, grant)
  }

  /** update ... where status is pending and expires_at is later than now */
  predicate StillOpen(s: State, id: RequestId, now: Time) {
    id in s.requests && s.requests[id].status.Pending? && s.requests[id].expiresAt > now
  }

  function ApproveStep(s: State, h: HandlerId, now: Time): State
    requires h in s.handlers && s.handlers[h].Approving?
  {
    var id, grant := s.handlers[h].id, s.handlers[h].grant;
    if StillOpen(s, id, now) then
      Become(s, h, Answered(Done)).(requests := s.requests[id := s.requests[id].(status := Approved, grant := grant)],
                                    approvals := s.approvals[id := grant])
    else Become(s, h, Answered(AlreadyHandled))
  }

  function CheckToDeny(s: State, id: RequestId, handles: set<nat>): Handler {
    if id !in s.requests then Answered(NotFound)
    else if s.requests[id].handle !in handles then Answered(Unauthorized)
    else Denying(id)
  }

  function DenyStep(s: State, h: HandlerId, now: Time): State
    requires h in s.handlers && s.handlers[h].Denying?
  {
    var id := s.handlers[h].id;
    if StillOpen(s, id, now) then
      Become(s, h, Answered(Done)).(requests := s.requests[id := s.requests[id].(status := Denied)],
                                    denials := s.denials + {id})
    else Become(s, h, Answered(AlreadyHandled))
  }

  function AfterPoll(s: State, id: RequestId, now: Time): Handler {
    if id !in s.requests then Answered(NotFound)
    else
      var request := s.requests[id];
      if now > request.expiresAt then Answered(Expired)
      else if request.status.Consumed? then Answered(StillPending)
      else if request.status.Approved? && request.grant.encryptedMasterKey != "" then
        if request.grant.approverPublicKey == "" then Answered(KeyMissing) else Claiming(id)
      else if request.status.Denied? then DeletingDenied(id)
      else Answered(StillPending)
  }

  /** update ... set status consumed where status is approved returning the row */
  function ClaimStep(s: State, h: HandlerId): State
    requires h in s.handlers && s.handlers[h].Claiming?
  {
    var id := s.handlers[h].id;
    if id in s.requests && s.requests[id].status.Approved? then
      Become(s, h, Claimed(id, s.requests[id].grant)).(requests := s.requests[id := s.requests[id].(status := Consumed)])
    else Become(s, h, Answered(StillPending))
  }

  /** The identity must exist and need no enterprise sign-in; then the session is inserted. */
  function SessionStep(s: State, h: HandlerId, identityOk: bool): State
    requires h in s.handlers && s.handlers[h].Claimed?
  {
    var id := s.handlers[h].id;
    if identityOk then Become(s, h, SessionMade(id, s.handlers[h].grant)).(sessions := s.sessions + [id])
    else Become(s, h, Answered(LoginRefused))
  }

  function Step(s: State, a: Action): State
    requires Enabled(s, a)
  {
    match a
    case RequestApproval(id, handle, now) =>
      s.(clock := now, created := s.created + {id},
         requests := s.requests[id := LoginRequest(handle, now + LIFETIME, Pending, NO_GRANT)])
    case ReadToApprove(h, id, handles, grant, now) =>
      Become(s, h, CheckToApprove(s, id, handles, grant, now)).(clock := now)
    case Approve(h, now) => ApproveStep(s, h, now).(clock := now)
    case ReadToDeny(h, id, handles) => Become(s, h, CheckToDeny(s, id, handles))
    case Deny(h, now) => DenyStep(s, h, now).(clock := now)
    case Poll(h, id, now) => Become(s, h, AfterPoll(s, id, now)).(clock := now)
    case Claim(h) => ClaimStep(s, h)
    case InsertSession(h, identityOk) => SessionStep(s, h, identityOk)
    case DeleteServed(h) =>
      Become(s, h, Answered(LoggedIn(s.handlers[h].id, s.handlers[h].grant))).(requests := s.requests - {s.handlers[h].id})
    case DeleteDenied(h) => Become(s, h, Answered(WasDenied)).(requests := s.requests - {s.handlers[h].id})
    case Stop(h) => s.(handlers := s.handlers - {h})
  }

  function Apply(s: State, a: Action): State {
    if Enabled(s, a) then Step(s, a) else s
  }

  function Run(s: State, actions: seq<Action>): State
    decreases |actions|
  {
    if actions == [] then s else Run(Apply(s, actions[0]), actions[1..])
  }

  /** A request can still be approved or denied, and has not been. */
  predicate Untouched(s: State, id: RequestId) {
    id !in s.approvals && id !in s.denials && id !in s.sessions
  }

  predicate RequestOk(s: State, id: RequestId)
    requires id in s.requests
  {
    var request := s.requests[id];
    match request.status
    case Pending => Untouched(s, id)
    case Approved => id in s.approvals && s.approvals[id] == request.grant && id !in s.denials && id !in s.sessions
    case Denied => id in s.denials && id !in s.approvals && id !in s.sessions
    case Consumed => id in s.approvals && id !in s.denials
  }

  predicate Usable(grant: Grant) {
    grant.encryptedMasterKey != "" && grant.approverPublicKey != ""
  }

  /** A handler that has claimed a request holds what approve stored. */
  predicate HandlerOk(s: State, handler: Handler) {
    match handler
    case Claiming(id) => id in s.approvals && Usable(s.approvals[id])
    case Claimed(id, grant) => id in s.approvals && s.approvals[id] == grant && id !in s.sessions
    case SessionMade(id, grant) => id in s.approvals && s.approvals[id] == grant && id in s.sessions
    case Answered(LoggedIn(id, grant)) => id in s.approvals && s.approvals[id] == grant && id in s.sessions
    case _ => true
  }

  predicate HasClaimed(s: State, h: HandlerId, id: RequestId) {
    h in s.handlers && s.handlers[h].Claimed? && s.handlers[h].id == id
  }

  predicate Known(s: State) {
    && s.requests.Keys <= s.created && s.approvals.Keys <= s.created && s.denials <= s.created
    && (forall id :: id in s.sessions ==> id in s.approvals)
    && s.approvals.Keys !! s.denials
  }

  predicate RequestsOk(s: State) {
    forall id :: id in s.requests ==> RequestOk(s, id)
  }

  predicate HandlersOk(s: State) {
    forall h :: h in s.handlers ==> HandlerOk(s, s.handlers[h])
  }

  /** One handler at most holds a claimed request, and nobody else can claim it then. */
  ghost predicate ClaimsOk(s: State) {
    && (forall h, id :: HasClaimed(s, h, id) ==> id in s.requests ==> s.requests[id].status.Consumed?)
    && (forall h, g, id :: HasClaimed(s, h, id) && HasClaimed(s, g, id) ==> h == g)
  }

  predicate SessionsOk(s: State) {
    forall i, j :: 0 <= i < j < |s.sessions| ==> s.sessions[i] != s.sessions[j]
  }

  ghost predicate Inv(s: State) {
    Known(s) && RequestsOk(s) && HandlersOk(s) && ClaimsOk(s) && SessionsOk(s)
  }

  lemma StepKeepsKnown(s: State, a: Action)
    requires Inv(s) && Enabled(s, a)
    ensures Known(Step(s, a)) && SessionsOk(Step(s, a))
  {
    if a.InsertSession? || a.Approve? || a.Deny? {
      assert HandlerOk(s, s.handlers[a.h]);
    }
  }

  lemma StepKeepsRequests(s: State, a: Action)
    requires Inv(s) && Enabled(s, a)
    ensures RequestsOk(Step(s, a))
  {
    hide CheckToApprove, CheckToDeny, AfterPoll, SessionsOk;
    var t := Step(s, a);
    if a.InsertSession? {
      assert HandlerOk(s, s.handlers[a.h]) && HasClaimed(s, a.h, s.handlers[a.h].id);
    }
    forall id | id in t.requests
      ensures RequestOk(t, id)
    {
      assert id in s.requests ==> RequestOk(s, id);
    }
  }

  lemma StepKeepsHandlers(s: State, a: Action)
    requires Inv(s) && Enabled(s, a)
    ensures HandlersOk(Step(s, a))
  {
    hide SessionsOk;
    var t := Step(s, a);
    forall g | g in t.handlers
      ensures HandlerOk(t, t.handlers[g])
    {
      if g in s.handlers {
        StillOk(s, a, g);
      } else if a.Poll? && a.id in s.requests {
        assert RequestOk(s, a.id);
      }
    }
  }

  lemma StillOk(s: State, a: Action, g: HandlerId)
    requires Inv(s) && Enabled(s, a) && g in s.handlers && g in Step(s, a).handlers
    ensures HandlerOk(Step(s, a), Step(s, a).handlers[g])
  {
    hide CheckToApprove, CheckToDeny, AfterPoll, SessionsOk;
    assert HandlerOk(s, s.handlers[g]);
    if a.InsertSession? {
      assert HasClaimed(s, a.h, s.handlers[a.h].id);
      assert s.handlers[g].Claimed? ==> HasClaimed(s, g, s.handlers[g].id);
    } else if a.Claim? && s.handlers[a.h].id in s.requests {
      assert RequestOk(s, s.handlers[a.h].id);
    } else if a.Approve? && s.handlers[a.h].id in s.requests {
      assert RequestOk(s, s.handlers[a.h].id);
    }
  }

  /** Only a claim gives a handler a request, and only an approved one. */
  lemma NewClaim(s: State, a: Action, h: HandlerId, id: RequestId)
    requires Enabled(s, a) && HasClaimed(Step(s, a), h, id) && !HasClaimed(s, h, id)
    ensures a == Claim(h) && id in s.requests && s.requests[id].status.Approved?
    ensures id in Step(s, a).requests && Step(s, a).requests[id].status.Consumed?
  {
  }

  lemma StepKeepsClaims(s: State, a: Action)
    requires Inv(s) && Enabled(s, a)
    ensures ClaimsOk(Step(s, a))
  {
    hide RequestsOk, HandlersOk, SessionsOk, CheckToApprove, CheckToDeny, AfterPoll;
    var t := Step(s, a);
    forall h, id | HasClaimed(t, h, id)
      ensures id in t.requests ==> t.requests[id].status.Consumed?
    {
      if HasClaimed(s, h, id) {
        ClaimedStaysConsumed(s, a, h, id);
      } else {
        NewClaim(s, a, h, id);
      }
    }
    forall h, g, id | HasClaimed(t, h, id) && HasClaimed(t, g, id)
      ensures h == g
    {
      if !HasClaimed(s, h, id) {
        NewClaim(s, a, h, id);
      }
      if !HasClaimed(s, g, id) {
        NewClaim(s, a, g, id);
      }
    }
  }

  lemma ClaimedStaysConsumed(s: State, a: Action, h: HandlerId, id: RequestId)
    requires Inv(s) && Enabled(s, a) && HasClaimed(s, h, id)
    ensures id in Step(s, a).requests ==> Step(s, a).requests[id].status.Consumed?
  {
    hide RequestsOk, SessionsOk, CheckToApprove, CheckToDeny, AfterPoll;
    assert HandlerOk(s, s.handlers[h]);
    assert id in s.requests ==> s.requests[id].status.Consumed?;
  }

  lemma StepKeepsInv(s: State, a: Action)
    requires Inv(s) && Enabled(s, a)
    ensures Inv(Step(s, a))
  {
    hide Step, Enabled, Known, RequestsOk, HandlersOk, ClaimsOk, SessionsOk;
    StepKeepsKnown(s, a);
    StepKeepsRequests(s, a);
    StepKeepsHandlers(s, a);
    StepKeepsClaims(s, a);
  }

  lemma {:induction false} RunKeepsInv(s: State, actions: seq<Action>)
    requires Inv(s)
    ensures Inv(Run(s, actions))
    decreases |actions|
  {
    hide Inv, Step, Enabled;
    if actions != [] {
      if Enabled(s, actions[0]) {
        StepKeepsInv(s, actions[0]);
      }
      RunKeepsInv(Apply(s, actions[0]), actions[1..]);
    }
  }

  /** In every run: no request is both approved and denied, each creates at most one session, and only an
      approved one; a requester that is logged in gets exactly what approve stored. */
  lemma ApprovalIsSafe(actions: seq<Action>)
    ensures var s := Run(INITIAL, actions);
            && s.approvals.Keys !! s.denials
            && (forall i, j :: 0 <= i < j < |s.sessions| ==> s.sessions[i] != s.sessions[j])
            && (forall id :: id in s.sessions ==> id in s.approvals)
            && (forall h :: h in s.handlers && s.handlers[h].Answered? && s.handlers[h].reply.LoggedIn? ==>
                  var reply := s.handlers[h].reply;
                  reply.id in s.sessions && reply.id in s.approvals && s.approvals[reply.id] == reply.grant)
  {
    hide Run;
    assert Inv(INITIAL);
    RunKeepsInv(INITIAL, actions);
    var s := Run(INITIAL, actions);
    hide RequestsOk, ClaimsOk;
    forall h | h in s.handlers && s.handlers[h].Answered? && s.handlers[h].reply.LoggedIn?
      ensures var reply := s.handlers[h].reply;
              reply.id in s.sessions && reply.id in s.approvals && s.approvals[reply.id] == reply.grant
    {
      assert HandlerOk(s, s.handlers[h]);
    }
  }

  /** A poll has read the approval and is about to claim it; the claim does not look at the expiry. */
  predicate Claimable(s: State, h: HandlerId, id: RequestId) {
    h in s.handlers && s.handlers[h] == Claiming(id) && id in s.requests && s.requests[id].status.Approved?
  }

  /** There is still time to approve a pending request, or to poll for an approved one. */
  predicate InTime(s: State, id: RequestId)
    requires id in s.requests
  {
    var request := s.requests[id];
    match request.status
    case Pending => s.clock < request.expiresAt
    case Approved => s.clock <= request.expiresAt && Usable(request.grant)
    case _ => false
  }

  /** Someone may still be logged in by this request. */
  ghost predicate Open(s: State, id: RequestId) {
    || (id in s.requests && InTime(s, id))
    || exists h :: Claimable(s, h, id) || HasClaimed(s, h, id)
  }

  ghost predicate Closed(s: State, id: RequestId) {
    id in s.created && id !in s.sessions && !Open(s, id)
  }

  lemma StaysUnclaimed(s: State, a: Action, h: HandlerId, id: RequestId)
    requires Enabled(s, a) && !HasClaimed(s, h, id) && (a == Claim(h) ==> !Claimable(s, h, id))
    ensures !HasClaimed(Step(s, a), h, id)
  {
  }

  /** A poll that is about to claim found the request approved and in time. */
  lemma StaysUnclaimable(s: State, a: Action, h: HandlerId, id: RequestId)
    requires Inv(s) && Enabled(s, a) && Closed(s, id)
    ensures !Claimable(Step(s, a), h, id)
  {
    hide SessionsOk, ClaimsOk, Known;
    assert !Claimable(s, h, id) && (id in s.requests ==> RequestOk(s, id));
    if h in s.handlers {
      assert HandlerOk(s, s.handlers[h]);
    }
  }

  lemma StepKeepsClosed(s: State, a: Action, id: RequestId)
    requires Inv(s) && Enabled(s, a) && Closed(s, id)
    ensures Closed(Step(s, a), id)
  {
    hide SessionsOk, CheckToApprove, CheckToDeny, AfterPoll, ClaimsOk, Known;
    var t := Step(s, a);
    if a.InsertSession? {
      assert HasClaimed(s, a.h, s.handlers[a.h].id);
    }
    forall h
      ensures !HasClaimed(t, h, id) && !Claimable(t, h, id)
    {
      assert !HasClaimed(s, h, id) && !Claimable(s, h, id);
      StaysUnclaimed(s, a, h, id);
      StaysUnclaimable(s, a, h, id);
    }
  }

  lemma {:induction false} RunKeepsClosed(s: State, actions: seq<Action>, id: RequestId)
    requires Inv(s) && Closed(s, id)
    ensures Closed(Run(s, actions), id)
    decreases |actions|
  {
    hide Inv, Step, Enabled, Closed;
    if actions != [] {
      if Enabled(s, actions[0]) {
        StepKeepsInv(s, actions[0]);
        StepKeepsClosed(s, actions[0], id);
      }
      RunKeepsClosed(Apply(s, actions[0]), actions[1..], id);
    }
  }

  lemma ClaimedLogsIn(s: State, h: HandlerId, id: RequestId)
    requires HasClaimed(s, h, id)
    ensures id in Run(s, [InsertSession(h, true)]).sessions
  {
    var t := Step(s, InsertSession(h, true));
    assert t.sessions[|s.sessions|] == id;
    assert Run(s, [InsertSession(h, true)]) == Run(t, []);
  }

  lemma ClaimableLogsIn(s: State, h: HandlerId, id: RequestId)
    requires Claimable(s, h, id)
    ensures id in Run(s, [Claim(h), InsertSession(h, true)]).sessions
  {
    var t := Step(s, Claim(h));
    assert HasClaimed(t, h, id);
    assert [Claim(h), InsertSession(h, true)][1..] == [InsertSession(h, true)];
    assert Run(s, [Claim(h), InsertSession(h, true)]) == Run(t, [InsertSession(h, true)]);
    ClaimedLogsIn(t, h, id);
  }

  lemma ApprovedLogsIn(s: State, id: RequestId)
    returns (actions: seq<Action>)
    requires id in s.requests && s.requests[id].status.Approved? && InTime(s, id)
    ensures id in Run(s, actions).sessions
  {
    var h := FreshNat(s.handlers.Keys);
    assert h !in s.handlers;
    var poll := Poll(h, id, s.clock);
    var t := Step(s, poll);
    assert Claimable(t, h, id);
    actions := [poll, Claim(h), InsertSession(h, true)];
    assert actions[1..] == [Claim(h), InsertSession(h, true)];
    assert Run(s, actions) == Run(t, actions[1..]);
    ClaimableLogsIn(t, h, id);
  }

  lemma PendingLogsIn(s: State, id: RequestId)
    returns (actions: seq<Action>)
    requires id in s.requests && s.requests[id].status.Pending? && InTime(s, id)
    ensures id in Run(s, actions).sessions
  {
    var h := FreshNat(s.handlers.Keys);
    assert h !in s.handlers;
    var read := ReadToApprove(h, id, {s.requests[id].handle}, Grant("key", "key"), s.clock);
    var t := Step(s, read);
    assert t.handlers[h] == Approving(id, Grant("key", "key"));
    var u := Step(t, Approve(h, s.clock));
    assert u.requests[id].status.Approved?;
    var rest := ApprovedLogsIn(u, id);
    actions := [read, Approve(h, s.clock)] + rest;
    assert actions[1..] == [Approve(h, s.clock)] + rest && actions[1..][1..] == rest;
    assert Run(s, actions) == Run(t, actions[1..]) == Run(u, actions[1..][1..]);
  }

  /** A request that has logged nobody in can still do so in some continuation exactly while it is pending before
      its expiry, approved with both keys and not past its expiry, or being claimed: a denial, a lost claim, an
      approval with a missing key and the expiry are final. */
  lemma LogsInExactlyWhileOpen(s: State, id: RequestId)
    requires Inv(s) && id in s.created && id !in s.sessions
    ensures (exists actions :: id in Run(s, actions).sessions) <==> Open(s, id)
  {
    hide Inv, Run;
    if Open(s, id) {
      if id in s.requests && InTime(s, id) {
        if s.requests[id].status.Pending? {
          var actions := PendingLogsIn(s, id);
        } else {
          var actions := ApprovedLogsIn(s, id);
        }
      } else {
        var h :| Claimable(s, h, id) || HasClaimed(s, h, id);
        if Claimable(s, h, id) {
          ClaimableLogsIn(s, h, id);
        } else {
          ClaimedLogsIn(s, h, id);
        }
      }
    } else {
      forall actions
        ensures id !in Run(s, actions).sessions
      {
        RunKeepsClosed(s, actions, id);
      }
    }
  }

  /** Once a poll has answered that a pending request is expired, no continuation logs anybody in by it. */
  lemma ExpiredNeverLogsIn(s: State, id: RequestId, h: HandlerId, now: Time, actions: seq<Action>)
    requires Inv(s) && id in s.requests && s.requests[id].status.Pending?
    requires Enabled(s, Poll(h, id, now)) && now > s.requests[id].expiresAt
    ensures var t := Step(s, Poll(h, id, now));
            t.handlers[h] == Answered(Expired) && id !in Run(t, actions).sessions
  {
    hide Run;
    var t := Step(s, Poll(h, id, now));
    assert RequestOk(s, id);
    StepKeepsInv(s, Poll(h, id, now));
    assert id in s.requests.Keys && id in t.created;
    forall g ensures !Claimable(t, g, id) && !HasClaimed(t, g, id) {
      assert g in s.handlers ==> HandlerOk(s, s.handlers[g]);
    }
    RunKeepsClosed(t, actions, id);
  }

  lemma StepMayKeepInv(s: State, a: Action)
    requires Enabled(s, a)
    ensures Inv(s) ==> Inv(Step(s, a))
  {
    hide Inv, Step, Enabled;
    if Inv(s) {
      StepKeepsInv(s, a);
    }
  }

  /** The table login_requests and the handlers' statements on it. */
  class LoginRequests {
    var requests: map<RequestId, LoginRequest>
    var handlers: map<HandlerId, Handler>
    ghost var clock: Time
    ghost var created: set<RequestId>
    ghost var approvals: map<RequestId, Grant>
    ghost var denials: set<RequestId>
    var sessions: seq<RequestId>

    ghost function Current(): State
      reads this
    {
      State(clock, requests, handlers, created, approvals, denials, sessions)
    }

    constructor ()
      ensures Current() == INITIAL && Inv(Current())
    {
      requests, handlers, sessions := map[], map[], [];
      clock, created, approvals, denials := 0, {}, map[], {};
    }

    /** POST /request-approval, with an id that was never used */
    method CreateRequest(id: RequestId, handle: nat, now: Time)
      requires id !in created && clock <= now
      modifies this
      ensures Current() == Step(old(Current()), RequestApproval(id, handle, now))
      ensures Inv(old(Current())) ==> Inv(Current())
    {
      hide Inv;
      ghost var before := Current();
      requests := requests[id := LoginRequest(handle, now + 5 * 60 * 1000, Pending, NO_GRANT)];
      created := created + {id};
      clock := now;
      StepMayKeepInv(before, RequestApproval(id, handle, now));
    }

    /** POST /approve-request up to its update */
    method CheckApproval(h: HandlerId, id: RequestId, handles: set<nat>, grant: Grant, now: Time)
      requires h !in handlers && clock <= now
      modifies this`handlers, this`clock
      ensures Current() == Step(old(Current()), ReadToApprove(h, id, handles, grant, now))
      ensures Inv(old(Current())) ==> Inv(Current())
    {
      hide Inv;
      ghost var before := Current();
      var next := Approving(id, grant);
      if id !in requests {
        next := Answered(NotFound);
      } else if requests[id].status != Pending {
        next := Answered(AlreadyHandled);
      } else if now > requests[id].expiresAt {
        next := Answered(Expired);
      } else if requests[id].handle !in handles {
        next := Answered(Unauthorized);
      }
      handlers := handlers[h := next];
      clock := now;
      StepMayKeepInv(before, ReadToApprove(h, id, handles, grant, now));
    }

    /** update ... set approved where status is pending and expires_at > now returning id */
    method StoreApproval(h: HandlerId, now: Time)
      requires h in handlers && handlers[h].Approving? && clock <= now
      modifies this
      ensures Current() == Step(old(Current()), Approve(h, now))
      ensures Inv(old(Current())) ==> Inv(Current())
    {
      hide Inv;
      ghost var before := Current();
      var id, grant := handlers[h].id, handlers[h].grant;
      var updated := id in requests && requests[id].status == Pending && requests[id].expiresAt > now;
      if updated {
        requests := requests[id := requests[id].(status := Approved, grant := grant)];
        approvals := approvals[id := grant];
      }
      handlers := handlers[h := Answered(if updated then Done else AlreadyHandled)];
      clock := now;
      StepMayKeepInv(before, Approve(h, now));
    }

    /** POST /deny-request up to its update */
    method CheckDenial(h: HandlerId, id: RequestId, handles: set<nat>)
      requires h !in handlers
      modifies this`handlers
      ensures Current() == Step(old(Current()), ReadToDeny(h, id, handles))
      ensures Inv(old(Current())) ==> Inv(Current())
    {
      hide Inv;
      ghost var before := Current();
      var next := Denying(id);
      if id !in requests {
        next := Answered(NotFound);
      } else if requests[id].handle !in handles {
        next := Answered(Unauthorized);
      }
      handlers := handlers[h := next];
      StepMayKeepInv(before, ReadToDeny(h, id, handles));
    }

    /** update ... set denied where status is pending and expires_at > now returning id */
    method StoreDenial(h: HandlerId, now: Time)
      requires h in handlers && handlers[h].Denying? && clock <= now
      modifies this
      ensures Current() == Step(old(Current()), Deny(h, now))
      ensures Inv(old(Current())) ==> Inv(Current())
    {
      hide Inv;
      ghost var before := Current();
      var id := handlers[h].id;
      var updated := id in requests && requests[id].status == Pending && requests[id].expiresAt > now;
      if updated {
        requests := requests[id := requests[id].(status := Denied)];
        denials := denials + {id};
      }
      handlers := handlers[h := Answered(if updated then Done else AlreadyHandled)];
      clock := now;
      StepMayKeepInv(before, Deny(h, now));
    }

    /** GET /request-status/:requestId up to its first write */
    method ReadStatus(h: HandlerId, id: RequestId, now: Time)
      requires h !in handlers && clock <= now
      modifies this`handlers, this`clock
      ensures Current() == Step(old(Current()), Poll(h, id, now))
      ensures Inv(old(Current())) ==> Inv(Current())
    {
      hide Inv;
      ghost var before := Current();
      var next := Answered(StillPending);
      if id !in requests {
        next := Answered(NotFound);
      } else {
        var request := requests[id];
        if now > request.expiresAt {
          next := Answered(Expired);
        } else if request.status == Approved && request.grant.encryptedMasterKey != "" {
          next := if request.grant.approverPublicKey == "" then Answered(KeyMissing) else Claiming(id);
        } else if request.status == Denied {
          next := DeletingDenied(id);
        }
      }
      handlers := handlers[h := next];
      clock := now;
      StepMayKeepInv(before, Poll(h, id, now));
    }

    /** update ... set consumed where status is approved returning the row */
    method ClaimApproval(h: HandlerId)
      requires h in handlers && handlers[h].Claiming?
      modifies this
      ensures Current() == Step(old(Current()), Claim(h))
      ensures Inv(old(Current())) ==> Inv(Current())
    {
      hide Inv;
      ghost var before := Current();
      var id := handlers[h].id;
      if id in requests && requests[id].status == Approved {
        handlers := handlers[h := Claimed(id, requests[id].grant)];
        requests := requests[id := requests[id].(status := Consumed)];
      } else {
        handlers := handlers[h := Answered(StillPending)];
      }
      StepMayKeepInv(before, Claim(h));
    }

    method CreateSession(h: HandlerId, identityOk: bool)
      requires h in handlers && handlers[h].Claimed?
      modifies this
      ensures Current() == Step(old(Current()), InsertSession(h, identityOk))
      ensures Inv(old(Current())) ==> Inv(Current())
    {
      hide Inv;
      ghost var before := Current();
      if identityOk {
        sessions := sessions + [handlers[h].id];
        handlers := handlers[h := SessionMade(handlers[h].id, handlers[h].grant)];
      } else {
        handlers := handlers[h := Answered(LoginRefused)];
      }
      StepMayKeepInv(before, InsertSession(h, identityOk));
    }

    method RemoveDenied(h: HandlerId)
      requires h in handlers && handlers[h].DeletingDenied?
      modifies this
      ensures Current() == Step(old(Current()), DeleteDenied(h))
      ensures Inv(old(Current())) ==> Inv(Current())
    {
      hide Inv;
      ghost var before := Current();
      requests := requests - {handlers[h].id};
      handlers := handlers[h := Answered(WasDenied)];
      StepMayKeepInv(before, DeleteDenied(h));
    }

    /** delete, then the response with what approve stored */
    method FinishLogin(h: HandlerId) returns (grant: Grant)
      requires h in handlers && handlers[h].SessionMade?
      modifies this
      ensures Current() == Step(old(Current()), DeleteServed(h))
      ensures grant == old(handlers[h].grant)
      ensures Inv(old(Current())) ==>
                Inv(Current()) && old(handlers[h].id) in approvals && grant == approvals[old(handlers[h].id)]
    {
      ghost var before := Current();
      assert Inv(before) ==> HandlerOk(before, before.handlers[h]);
      hide Inv;
      var id := handlers[h].id;
      grant := handlers[h].grant;
      requests := requests - {id};
      handlers := handlers[h := Answered(LoggedIn(id, grant))];
      StepMayKeepInv(before, DeleteServed(h));
    }
  }
}
