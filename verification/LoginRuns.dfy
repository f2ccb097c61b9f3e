/** What approve, deny and poll do to a login request from their first statement to their answer. */
module LoginRuns {
  import opened Options
  import opened LoginApproval

  lemma RunOne(s: State, a: Action)
    ensures Run(s, [a]) == Apply(s, a)
  {
    hide Apply;
    assert [a][1..] == [];
    assert Run(s, [a]) == Run(Apply(s, a), []);
  }

  lemma RunTwo(s: State, a: Action, b: Action)
    ensures Run(s, [a, b]) == Apply(Apply(s, a), b)
  {
    hide Apply;
    assert [a, b][1..] == [b];
    RunOne(Apply(s, a), b);
  }

  lemma RunThree(s: State, a: Action, b: Action, c: Action)
    ensures Run(s, [a, b, c]) == Apply(Apply(Apply(s, a), b), c)
  {
    hide Apply;
    assert [a, b, c][1..] == [b, c];
    RunTwo(Apply(s, a), b, c);
  }

  lemma RunFour(s: State, a: Action, b: Action, c: Action, d: Action)
    ensures Run(s, [a, b, c, d]) == Apply(Apply(Apply(Apply(s, a), b), c), d)
  {
    hide Apply;
    assert [a, b, c, d][1..] == [b, c, d];
    RunThree(Apply(s, a), b, c, d);
  }

  /** The request waits for an answer and there is time left at the update. */
  predicate Awaits(s: State, id: RequestId, now: Time) {
    id in s.requests && s.requests[id].status == Pending && now < s.requests[id].expiresAt
  }

  /** The request with its answer; who asked and until when stays. */
  function Handled(request: LoginRequest, status: Status, grant: Grant): LoginRequest {
    LoginRequest(request.handle, request.expiresAt, status, grant)
  }

  /** An update of a request that was read as open approves it exactly if it still waits, whatever happened meanwhile. */
  lemma ApprovesExactly(s: State, h: HandlerId, id: RequestId, grant: Grant, now: Time)
    requires h in s.handlers && s.handlers[h] == Approving(id, grant) && s.clock <= now
    ensures Apply(s, Approve(h, now)) == s.(
              clock := now,
              handlers := s.handlers[h := Answered(if Awaits(s, id, now) then Done else AlreadyHandled)],
              requests := if !Awaits(s, id, now) then s.requests
                          else s.requests[id := Handled(s.requests[id], Approved, grant)],
              approvals := if Awaits(s, id, now) then s.approvals[id := grant] else s.approvals)
  {
  }

  /** The same for a denial. */
  lemma DeniesExactly(s: State, h: HandlerId, id: RequestId, now: Time)
    requires h in s.handlers && s.handlers[h] == Denying(id) && s.clock <= now
    ensures Apply(s, Deny(h, now)) == s.(
              clock := now,
              handlers := s.handlers[h := Answered(if Awaits(s, id, now) then Done else AlreadyHandled)],
              requests := if !Awaits(s, id, now) then s.requests
                          else s.requests[id := Handled(s.requests[id], Denied, s.requests[id].grant)],
              denials := if Awaits(s, id, now) then s.denials + {id} else s.denials)
  {
  }

  /** Undisturbed, approving a request stores the grant and answers so exactly if the request is pending, one of the
      approver's handles asked for it, and it has not expired when it is read nor at the update. */
  lemma ApprovalExactly(s: State, h: HandlerId, id: RequestId, handles: set<nat>, grant: Grant, now: Time, later: Time)
    requires h !in s.handlers && s.clock <= now <= later
    ensures var t := Run(s, [ReadToApprove(h, id, handles, grant, now), Approve(h, later)]);
            var open := id in s.requests && s.requests[id].status == Pending && s.requests[id].handle in handles
                        && now <= s.requests[id].expiresAt;
            var approved := open && later < s.requests[id].expiresAt;
            && t.requests == (if !approved then s.requests
                 else s.requests[id := Handled(s.requests[id], Approved, grant)])
            && t.approvals == (if approved then s.approvals[id := grant] else s.approvals)
            && t.denials == s.denials && t.sessions == s.sessions && t.created == s.created
            && t.handlers == s.handlers[h := Answered(
                 if approved then Done
                 else if open then AlreadyHandled
                 else if id !in s.requests then NotFound
                 else if s.requests[id].status != Pending then AlreadyHandled
                 else if s.requests[id].expiresAt < now then Expired
                 else Unauthorized)]
  {
    var read := Apply(s, ReadToApprove(h, id, handles, grant, now));
    RunTwo(s, ReadToApprove(h, id, handles, grant, now), Approve(h, later));
    hide Run;
    if read.handlers[h] == Approving(id, grant) {
      ApprovesExactly(read, h, id, grant, later);
    }
  }

  /** Undisturbed, denying a request stores the denial and answers so exactly if the request is pending, one of the
      denier's handles asked for it, and it has not expired at the update. */
  lemma DenialExactly(s: State, h: HandlerId, id: RequestId, handles: set<nat>, now: Time)
    requires h !in s.handlers && s.clock <= now
    ensures var t := Run(s, [ReadToDeny(h, id, handles), Deny(h, now)]);
            var found := id in s.requests && s.requests[id].handle in handles;
            var denied := found && Awaits(s, id, now);
            && t.requests == (if !denied then s.requests
                 else s.requests[id := Handled(s.requests[id], Denied, s.requests[id].grant)])
            && t.denials == (if denied then s.denials + {id} else s.denials)
            && t.approvals == s.approvals && t.sessions == s.sessions && t.created == s.created
            && t.handlers == s.handlers[h := Answered(
                 if denied then Done
                 else if found then AlreadyHandled
                 else if id !in s.requests then NotFound
                 else Unauthorized)]
  {
    var read := Apply(s, ReadToDeny(h, id, handles));
    RunTwo(s, ReadToDeny(h, id, handles), Deny(h, now));
    hide Run;
    if read.handlers[h] == Denying(id) {
      DeniesExactly(read, h, id, now);
    }
  }

  /** A denied request logs nobody in, whatever follows. */
  lemma DeniedNeverLogsIn(s: State, h: HandlerId, id: RequestId, handles: set<nat>, now: Time, more: seq<Action>)
    requires Inv(s) && h !in s.handlers && s.clock <= now
    requires Awaits(s, id, now) && s.requests[id].handle in handles
    ensures var t := Run(s, [ReadToDeny(h, id, handles), Deny(h, now)]);
            && id in t.requests && t.requests[id].status == Denied && t.handlers == s.handlers[h := Answered(Done)]
            && id !in Run(t, more).sessions
  {
    var t := Run(s, [ReadToDeny(h, id, handles), Deny(h, now)]);
    DenialExactly(s, h, id, handles, now);
    RunKeepsInv(s, [ReadToDeny(h, id, handles), Deny(h, now)]);
    hide Run;
    DeniedIsClosed(t, id);
    RunKeepsClosed(t, more, id) by { hide Inv, Closed; }
  }

  lemma DeniedIsClosed(s: State, id: RequestId)
    requires Inv(s) && id in s.requests && s.requests[id].status == Denied
    ensures Closed(s, id)
  {
    assert RequestOk(s, id);
    assert id in s.requests.Keys;
    forall h ensures !Claimable(s, h, id) && !HasClaimed(s, h, id) {
      assert h in s.handlers ==> HandlerOk(s, s.handlers[h]);
    }
  }

  /** Nobody with the handle has approved the request so far, nor is anybody about to. */
  ghost predicate Unapproved(s: State, id: RequestId, handle: nat) {
    && (id in s.requests ==> s.requests[id].handle == handle) && id !in s.approvals
    && forall h :: h in s.handlers ==> !(s.handlers[h].Approving? && s.handlers[h].id == id)
  }

  ghost predicate Undenied(s: State, id: RequestId, handle: nat) {
    && (id in s.requests ==> s.requests[id].handle == handle) && id !in s.denials
    && forall h :: h in s.handlers ==> s.handlers[h] != Denying(id)
  }

  /** The request belongs to the handle, and only others try to approve it. */
  predicate OnlyOthersApprove(actions: seq<Action>, id: RequestId, handle: nat) {
    forall i :: 0 <= i < |actions| ==>
      && (actions[i].RequestApproval? && actions[i].id == id ==> actions[i].handle == handle)
      && (actions[i].ReadToApprove? && actions[i].id == id ==> handle !in actions[i].handles)
  }

  predicate OnlyOthersDeny(actions: seq<Action>, id: RequestId, handle: nat) {
    forall i :: 0 <= i < |actions| ==>
      && (actions[i].RequestApproval? && actions[i].id == id ==> actions[i].handle == handle)
      && (actions[i].ReadToDeny? && actions[i].id == id ==> handle !in actions[i].handles)
  }

  lemma StepStaysUnapproved(s: State, a: Action, id: RequestId, handle: nat)
    requires Unapproved(s, id, handle) && OnlyOthersApprove([a], id, handle)
    ensures Unapproved(Apply(s, a), id, handle)
  {
    assert [a][0] == a;
    hide DenyStep, CheckToDeny, AfterPoll, SessionStep;
  }

  lemma {:induction false} StaysUnapproved(s: State, actions: seq<Action>, id: RequestId, handle: nat)
    requires Unapproved(s, id, handle) && OnlyOthersApprove(actions, id, handle)
    ensures Unapproved(Run(s, actions), id, handle)
    decreases |actions|
  {
    if actions != [] {
      StepStaysUnapproved(s, actions[0], id, handle);
      hide Apply, Unapproved;
      StaysUnapproved(Apply(s, actions[0]), actions[1..], id, handle);
    }
  }

  lemma StepStaysUndenied(s: State, a: Action, id: RequestId, handle: nat)
    requires Undenied(s, id, handle) && OnlyOthersDeny([a], id, handle)
    ensures Undenied(Apply(s, a), id, handle)
  {
    assert [a][0] == a;
    hide ApproveStep, CheckToApprove, AfterPoll, SessionStep;
  }

  lemma {:induction false} StaysUndenied(s: State, actions: seq<Action>, id: RequestId, handle: nat)
    requires Undenied(s, id, handle) && OnlyOthersDeny(actions, id, handle)
    ensures Undenied(Run(s, actions), id, handle)
    decreases |actions|
  {
    if actions != [] {
      StepStaysUndenied(s, actions[0], id, handle);
      hide Apply, Undenied;
      StaysUndenied(Apply(s, actions[0]), actions[1..], id, handle);
    }
  }

  /** Only the handle that asked decides: in a run in which no approver has it the request is never approved, and
      nobody is logged in by it; in one in which no denier has it, it is never denied. */
  lemma OnlyTheHandleDecides(actions: seq<Action>, id: RequestId, handle: nat)
    ensures var s := Run(INITIAL, actions);
            && (OnlyOthersApprove(actions, id, handle) ==> id !in s.approvals && id !in s.sessions)
            && (OnlyOthersDeny(actions, id, handle) ==> id !in s.denials)
  {
    hide Run;
    ApprovalIsSafe(actions);
    if OnlyOthersApprove(actions, id, handle) {
      StaysUnapproved(INITIAL, actions, id, handle);
    }
    if OnlyOthersDeny(actions, id, handle) {
      StaysUndenied(INITIAL, actions, id, handle);
    }
  }

  /** A new request can be approved for exactly five minutes. */
  lemma RequestIsOpenForFiveMinutes(s: State, id: RequestId, handle: nat, now: Time, h: HandlerId, handles: set<nat>,
                                    grant: Grant, later: Time)
    requires id !in s.created && s.clock <= now <= later && h !in s.handlers && handle in handles
    ensures var t := Run(s, [RequestApproval(id, handle, now)]);
            var u := Run(t, [ReadToApprove(h, id, handles, grant, later), Approve(h, later)]);
            && t.handlers == s.handlers && id in t.requests && id in u.requests
            && t.requests[id] == LoginRequest(handle, now + 300000, Pending, NO_GRANT)
            && (u.requests[id].status == Approved <==> later < now + 300000)
            && (u.requests[id].status == Approved ==> u.requests[id].grant == grant)
  {
    var asked := RequestApproval(id, handle, now);
    RunOne(s, asked);
    assert Apply(s, asked) == Step(s, asked);
    hide Run, Apply;
    ApprovalExactly(Run(s, [asked]), h, id, handles, grant, later, later);
  }

  /** What a poll answers, or goes on to do, for every request and every time. */
  lemma PollExactly(s: State, h: HandlerId, id: RequestId, now: Time)
    requires h !in s.handlers && s.clock <= now
    ensures var t := Run(s, [Poll(h, id, now)]);
            && h in t.handlers && t == s.(clock := now, handlers := s.handlers[h := t.handlers[h]])
            && (t.handlers[h] == Answered(NotFound) <==> id !in s.requests)
            && (id in s.requests ==>
                  var request := s.requests[id];
                  var inTime, keyed := now <= request.expiresAt, request.grant.encryptedMasterKey != "";
                  && (t.handlers[h] == Answered(Expired) <==> !inTime)
                  && (t.handlers[h] == Claiming(id) <==>
                        inTime && request.status == Approved && keyed && request.grant.approverPublicKey != "")
                  && (t.handlers[h] == Answered(KeyMissing) <==>
                        inTime && request.status == Approved && keyed && request.grant.approverPublicKey == "")
                  && (t.handlers[h] == DeletingDenied(id) <==> inTime && request.status == Denied)
                  && (t.handlers[h] == Answered(StillPending) <==>
                        inTime && (request.status == Pending || request.status == Consumed
                                   || (request.status == Approved && !keyed))))
  {
    RunOne(s, Poll(h, id, now));
    hide Run;
  }

  /** Undisturbed, a poll in time for a request that was approved with both keys logs in once: it answers with what
      approve stored, and the request is gone; without the identity it logs nobody in and the request is consumed. */
  lemma ApprovedPollLogsIn(s: State, h: HandlerId, id: RequestId, now: Time, identityOk: bool)
    requires h !in s.handlers && s.clock <= now && id in s.requests && s.requests[id].status == Approved
    requires now <= s.requests[id].expiresAt
    requires s.requests[id].grant.encryptedMasterKey != "" && s.requests[id].grant.approverPublicKey != ""
    ensures var t := Run(s, [Poll(h, id, now), Claim(h), InsertSession(h, identityOk), DeleteServed(h)]);
            && t.handlers == s.handlers[h := Answered(if identityOk then LoggedIn(id, s.requests[id].grant)
                                                      else LoginRefused)]
            && t.sessions == (if identityOk then s.sessions + [id] else s.sessions)
            && t.requests == (if identityOk then s.requests - {id}
                              else s.requests[id := s.requests[id].(status := Consumed)])
            && t.approvals == s.approvals && t.denials == s.denials
  {
    var request := s.requests[id];
    var polled := s.(clock := now, handlers := s.handlers[h := LoginApproval.Handler.Claiming(id)]);
    var consumed := s.requests[id := request.(status := Consumed)];
    var claimed := polled.(handlers := s.handlers[h := Claimed(id, request.grant)], requests := consumed);
    RunFour(s, Poll(h, id, now), Claim(h), InsertSession(h, identityOk), DeleteServed(h));
    hide Run, CheckToApprove, CheckToDeny, ApproveStep, DenyStep;
    assert Apply(s, Poll(h, id, now)) == polled;
    assert Apply(polled, Claim(h)) == claimed;
    if identityOk {
      var made := claimed.(handlers := s.handlers[h := SessionMade(id, request.grant)], sessions := s.sessions + [id]);
      assert Apply(claimed, InsertSession(h, true)) == made;
      assert consumed - {id} == s.requests - {id};
    } else {
      var refused := claimed.(handlers := s.handlers[h := Answered(LoginRefused)]);
      assert Apply(claimed, InsertSession(h, false)) == refused;
    }
  }

  /** Of two polls that found the request approved one claims it; the other one is told to wait and changes nothing. */
  lemma OnePollClaims(s: State, h: HandlerId, g: HandlerId, id: RequestId)
    requires h != g && h in s.handlers && g in s.handlers && id in s.requests && s.requests[id].status == Approved
    requires s.handlers[h] == LoginApproval.Handler.Claiming(id) && s.handlers[g] == LoginApproval.Handler.Claiming(id)
    ensures Run(s, [Claim(h), Claim(g)])
         == s.(requests := s.requests[id := s.requests[id].(status := Consumed)],
               handlers := s.handlers[h := Claimed(id, s.requests[id].grant)][g := Answered(StillPending)])
  {
    RunTwo(s, Claim(h), Claim(g));
    hide Run, CheckToApprove, CheckToDeny, ApproveStep, DenyStep, AfterPoll;
  }

  /** A poll in time removes a denied request and says so. */
  lemma DeniedPollRemoves(s: State, h: HandlerId, id: RequestId, now: Time)
    requires h !in s.handlers && s.clock <= now && id in s.requests && s.requests[id].status == Denied
    requires now <= s.requests[id].expiresAt
    ensures var t := Run(s, [Poll(h, id, now), DeleteDenied(h)]);
            t == s.(clock := now, requests := s.requests - {id}, handlers := s.handlers[h := Answered(WasDenied)])
  {
    RunTwo(s, Poll(h, id, now), DeleteDenied(h));
    hide Run, CheckToApprove, CheckToDeny, ApproveStep, DenyStep;
  }

  /** A poll that dies after its claim leaves a request by which nobody is ever logged in. */
  lemma DeadClaimNeverLogsIn(s: State, h: HandlerId, id: RequestId, more: seq<Action>)
    requires Inv(s) && h in s.handlers && s.handlers[h] == LoginApproval.Handler.Claiming(id)
    requires id in s.requests && s.requests[id].status == Approved
    ensures id !in Run(Run(s, [Claim(h), Stop(h)]), more).sessions
  {
    var t := s.(requests := s.requests[id := s.requests[id].(status := Consumed)], handlers := s.handlers - {h});
    RunTwo(s, Claim(h), Stop(h));
    assert Apply(s, Claim(h)).handlers - {h} == t.handlers;
    assert Apply(Apply(s, Claim(h)), Stop(h)) == t;
    RunKeepsInv(s, [Claim(h), Stop(h)]);
    assert Closed(t, id) by {
      assert RequestOk(s, id) && id in s.requests.Keys;
      forall g ensures !HasClaimed(t, g, id) {
        assert HasClaimed(t, g, id) ==> HasClaimed(s, g, id);
      }
    }
    hide Run, Inv, Closed;
    RunKeepsClosed(t, more, id);
  }
}
