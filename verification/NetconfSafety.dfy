/**
 What the confirmed-commit transaction guarantees, for every pattern of refused operations and lost
 replies and everything the other sessions of the device do meanwhile.
 */
module NetconfSafety {
  import opened Basics
  import opened NetconfDevice
  import opened NetconfClient

  // ---- Reading a record of calls ----

  lemma {:induction false} ChainedPrefix(d: Device, s: SessionId, calls: seq<Sent>, end: Device, k: nat)
    requires Chained(d, s, calls, end) && k < |calls|
    ensures Chained(d, s, calls[..k], calls[k].start) && SentOk(calls[k], s)
    ensures k + 1 < |calls| ==> calls[k].end == calls[k + 1].start
    ensures k + 1 == |calls| ==> calls[k].end == end
    decreases |calls|
  {
    hide SentOk;
    var front := calls[..|calls| - 1];
    if k + 1 < |calls| {
      ChainedPrefix(d, s, front, calls[|calls| - 1].start, k);
      assert front[..k] == calls[..k];
    }
  }

  lemma SentKeepsInv(c: Sent, s: SessionId)
    requires SentOk(c, s) && Inv(c.start)
    ensures Inv(Arrival(c)) && Inv(c.end)
  {
    hide Step;
    RunKeepsInv(c.start, c.before);
    StepKeepsInv(Arrival(c), Carried(s, c.rpc));
  }

  lemma {:induction false} ChainKeepsInv(d: Device, s: SessionId, calls: seq<Sent>, end: Device)
    requires Chained(d, s, calls, end) && Inv(d)
    ensures Inv(end)
    decreases |calls|
  {
    hide SentOk;
    if calls != [] {
      var last := calls[|calls| - 1];
      ChainKeepsInv(d, s, calls[..|calls| - 1], last.start);
      SentKeepsInv(last, s);
    }
  }

  // ---- Rollback ----

  /** No other session's confirming commit is carried out while the call runs. */
  ghost predicate Undisturbed(d: Device, r: Report) {
    && NothingConfirms(d, r.opening)
    && forall c <- Calls(r) :: NothingConfirms(c.start, c.before)
  }

  predicate PlainCommit(rpc: Rpc) { rpc.Commit? && rpc.confirmTimeout.None? }

  lemma SentKeepsStable(c: Sent, s: SessionId)
    requires SentOk(c, s) && Inv(c.start) && NothingConfirms(c.start, c.before)
    ensures Stable(Arrival(c)) == Stable(c.start)
    ensures Stable(c.end) == if c.outcome != Refused && PlainCommit(c.rpc) && Apply(Arrival(c), s, c.rpc).Some?
                             then Arrival(c).candidate else Stable(c.start)
  {
    hide Step, Apply;
    RunKeepsInv(c.start, c.before);
    RunningFollowsConfirmations(c.start, c.before);
    NoConfirmationNoChange(c.start, c.before);
    StepKeepsStable(Arrival(c), Carried(s, c.rpc));
  }

  lemma {:induction false} CallsKeepStable(d: Device, s: SessionId, calls: seq<Sent>, end: Device)
    requires Chained(d, s, calls, end) && Inv(d)
    requires forall c <- calls :: NothingConfirms(c.start, c.before) && !PlainCommit(c.rpc)
    ensures Stable(end) == Stable(d)
    decreases |calls|
  {
    hide SentOk, NothingConfirms, Apply;
    if calls != [] {
      var last, front := calls[|calls| - 1], calls[..|calls| - 1];
      forall c <- front ensures NothingConfirms(c.start, c.before) && !PlainCommit(c.rpc) { assert c in calls; }
      CallsKeepStable(d, s, front, last.start);
      ChainKeepsInv(d, s, front, last.start);
      SentKeepsStable(last, s);
    }
  }

  lemma OpeningKeepsStable(d: Device, request: Request, r: Report, end: Device)
    requires Inv(d) && Acceptable(request) && Accounts(d, request, r, end) && Undisturbed(d, r)
    ensures Stable(r.established) == Stable(d) && Inv(r.established)
    ensures r.session < r.established.nextSession && r.session in r.established.sessions
    ensures !(d.pending.Some? && d.pending.value.issuer == r.session)
  {
    RunKeepsInv(d, r.opening);
    RunningFollowsConfirmations(d, r.opening);
    NoConfirmationNoChange(d, r.opening);
    RunOnlyGrows(d, r.opening[..|r.opening| - 1]);
  }

  /**
   Without finalize, whatever is refused and whatever reply is lost, the configuration running goes
   back to is the one it had before the call; also when the commit took effect without its reply and
   the client then sent discard-changes.
   */
  lemma UnfinalizedCallChangesNothingForGood(d: Device, request: Request, r: Report, end: Device)
    requires Inv(d) && Acceptable(request) && Accounts(d, request, r, end) && Undisturbed(d, r)
    requires !request.finalize
    ensures Stable(end) == Stable(d) && Inv(end)
  {
    hide Chained, NothingConfirms, Stable, Plan;
    PlanShape(request);
    OpeningKeepsStable(d, request, r, end);
    forall c <- Calls(r) ensures NothingConfirms(c.start, c.before) && !PlainCommit(c.rpc) {
      OwnRpcs(request, r, c);
    }
    CallsKeepStable(r.established, r.session, Calls(r), end);
    ChainKeepsInv(r.established, r.session, Calls(r), end);
  }

  /** Every operation of a call is one of the plan or of the cleanup. */
  lemma OwnRpcs(request: Request, r: Report, c: Sent)
    requires Acceptable(request) && BodyOk(Plan(request), r.body) && Sends(r.cleanup, CleanupPlan(r.body))
    requires r.closing.rpc == CloseSession && c in Calls(r)
    ensures c.rpc.Lock? || c.rpc.EditConfig? || c.rpc.Validate? || c.rpc.Get? || c.rpc.DiscardChanges? || c.rpc.Unlock?
            || c.rpc.CloseSession? || c.rpc == Commit(Some(request.confirmTimeout.Floor), request.persist, None)
            || (request.finalize && c.rpc == Commit(None, None, request.persist))
  {
    hide Plan;
    PlanShape(request);
    var i :| 0 <= i < |Calls(r)| && Calls(r)[i] == c;
    if i < |r.body| {
      assert c == r.body[i];
    } else if i < |r.body| + |r.cleanup| {
      assert c == r.cleanup[i - |r.body|];
    } else {
      assert c == r.closing;
    }
  }

  /** A pending commit of the session carries the call's persist token and expires within its timeout. */
  ghost predicate OwnPendingIs(d: Device, s: SessionId, request: Request) {
    d.pending.Some? && d.pending.value.issuer == s ==>
      d.pending.value.persist == request.persist
      && d.pending.value.deadline <= d.now + request.confirmTimeout.Floor
  }

  lemma StepKeepsOwnPending(d: Device, e: Event, s: SessionId, request: Request)
    requires OwnPendingIs(d, s, request) && Acceptable(request)
    requires e.Carried? && e.session == s && e.rpc.Commit? && e.rpc.confirmTimeout.Some? ==>
               e.rpc == Commit(Some(request.confirmTimeout.Floor), request.persist, None)
    ensures OwnPendingIs(Step(d, e), s, request)
  {
    hide Acceptable, Step;
    StepPending(d, e);
    StepOnlyGrows(d, e);
  }

  lemma {:induction false} RunKeepsOwnPending(d: Device, events: seq<Event>, s: SessionId, request: Request)
    requires OwnPendingIs(d, s, request) && Acceptable(request) && Others(events, s)
    ensures OwnPendingIs(Run(d, events), s, request)
    decreases |events|
  {
    hide Step;
    if events != [] {
      RunKeepsOwnPending(d, events[..|events| - 1], s, request);
      StepKeepsOwnPending(Run(d, events[..|events| - 1]), events[|events| - 1], s, request);
    }
  }

  lemma {:induction false} CallsKeepOwnPending(d: Device, s: SessionId, calls: seq<Sent>, end: Device, request: Request)
    requires Chained(d, s, calls, end) && OwnPendingIs(d, s, request) && Acceptable(request)
    requires forall c <- calls :: c.rpc.Commit? && c.rpc.confirmTimeout.Some? ==>
               c.rpc == Commit(Some(request.confirmTimeout.Floor), request.persist, None)
    ensures OwnPendingIs(end, s, request)
    decreases |calls|
  {
    hide Step, OwnPendingIs, Acceptable, Apply;
    if calls != [] {
      var last, front := calls[|calls| - 1], calls[..|calls| - 1];
      forall c <- front ensures c in calls {}
      CallsKeepOwnPending(d, s, front, last.start, request);
      RunKeepsOwnPending(last.start, last.before, s, request);
      StepKeepsOwnPending(Arrival(last), Carried(s, last.rpc), s, request);
    }
  }

  /** The moment from which a call's change is bound to be gone again. */
  ghost predicate WindowOver(request: Request, r: Report, end: Device, later: seq<Event>) {
    || (request.persist.None? && r.session !in Run(end, later).sessions)
    || end.now + request.confirmTimeout.Floor <= Run(end, later).now
  }

  /**
   The rollback: once the session has ended (without persist) or the confirm timeout has passed since
   the call, and nobody else confirmed, nothing of the call is pending, and running is what it was
   before the call unless somebody else's commit is pending on top of that.
   */
  lemma UnfinalizedCallRollsBack(d: Device, request: Request, r: Report, end: Device, later: seq<Event>)
    requires Inv(d) && Acceptable(request) && Accounts(d, request, r, end) && Undisturbed(d, r)
    requires !request.finalize
    requires Others(later, r.session) && NothingConfirms(end, later) && WindowOver(request, r, end, later)
    ensures var after := Run(end, later);
            && Stable(after) == Stable(d)
            && (after.pending.Some? ==> after.pending.value.issuer != r.session)
            && (after.pending.None? ==> after.running == Stable(d))
  {
    hide Chained, Plan, ConfirmTimeoutText;
    UnfinalizedCallChangesNothingForGood(d, request, r, end);
    RunningFollowsConfirmations(end, later);
    NoConfirmationNoChange(end, later);
    RunKeepsInv(end, later);
    OwnPendingAfterCall(d, request, r, end, later);
  }

  lemma OwnPendingAfterCall(d: Device, request: Request, r: Report, end: Device, later: seq<Event>)
    requires Inv(d) && Acceptable(request) && Accounts(d, request, r, end) && Undisturbed(d, r) && !request.finalize
    requires Others(later, r.session)
    ensures var after := Run(end, later);
            after.pending.Some? && after.pending.value.issuer == r.session ==>
              && after.pending.value.persist == request.persist
              && after.pending.value.deadline <= end.now + request.confirmTimeout.Floor
  {
    hide Chained, Plan, ConfirmTimeoutText;
    NotPendingYet(d, request, r, end);
    forall c <- Calls(r) ensures c.rpc.Commit? && c.rpc.confirmTimeout.Some? ==>
               c.rpc == Commit(Some(request.confirmTimeout.Floor), request.persist, None) {
      OwnRpcs(request, r, c);
    }
    CallsKeepOwnPending(r.established, r.session, Calls(r), end, request);
    LaterKeepsOwnDeadline(end, later, r.session, request, end.now + request.confirmTimeout.Floor);
  }

  /** No commit can be pending under a session id that was not handed out before. */
  lemma NotPendingYet(d: Device, request: Request, r: Report, end: Device)
    requires Inv(d) && Acceptable(request) && Accounts(d, request, r, end)
    ensures OwnPendingIs(r.established, r.session, request)
  {
    hide Chained, Plan, ConfirmTimeoutText;
    RunKeepsInv(d, r.opening[..|r.opening| - 1]);
  }

  lemma {:induction false} LaterKeepsOwnDeadline(d: Device, events: seq<Event>, s: SessionId, request: Request, deadline: nat)
    requires Others(events, s)
    requires d.pending.Some? && d.pending.value.issuer == s ==>
               d.pending.value.persist == request.persist && d.pending.value.deadline <= deadline
    ensures var after := Run(d, events);
            after.pending.Some? && after.pending.value.issuer == s ==>
              after.pending.value.persist == request.persist && after.pending.value.deadline <= deadline
    decreases |events|
  {
    if events != [] {
      LaterKeepsOwnDeadline(d, events[..|events| - 1], s, request, deadline);
      OthersDoNotIssue(Run(d, events[..|events| - 1]), events[|events| - 1], s);
    }
  }

  /** A pending commit of this session that is there after somebody else's step was there before it. */
  lemma OthersDoNotIssue(d: Device, e: Event, s: SessionId)
    requires e.Carried? ==> e.session != s
    ensures Step(d, e).pending.Some? && Step(d, e).pending.value.issuer == s ==> Step(d, e).pending == d.pending
  {
    hide Step;
    StepPending(d, e);
  }

  /** A matching cancel that is carried out gives running its old value at once. */
  lemma CancelRestores(d: Device, request: Request, r: Report, end: Device, later: seq<Event>, s: SessionId, id: PersistId)
    requires Inv(d) && Acceptable(request) && Accounts(d, request, r, end) && Undisturbed(d, r)
    requires !request.finalize && NothingConfirms(end, later)
    requires Apply(Run(end, later), s, CancelCommit(Some(id))).Some?
    ensures var after := Step(Run(end, later), Carried(s, CancelCommit(Some(id))));
            after.pending.None? && after.running == Stable(d)
  {
    hide Chained, Plan, ConfirmTimeoutText, Accounts, Undisturbed;
    UnfinalizedCallChangesNothingForGood(d, request, r, end);
    RunningFollowsConfirmations(end, later);
    NoConfirmationNoChange(end, later);
  }

  // ---- The candidate lock ----

  /** While the session lives it holds the candidate, whose content is `c`. */
  predicate Holds(d: Device, s: SessionId, c: Config) {
    s < d.nextSession && (s in d.sessions ==> d.locked == Some(s) && d.candidate == c)
  }

  lemma StepKeepsHold(d: Device, e: Event, s: SessionId, c: Config)
    requires Holds(d, s, c) && (e.Carried? ==> e.session != s)
    ensures Holds(Step(d, e), s, c)
    ensures s in Step(d, e).sessions ==> s in d.sessions && !Confirms(d, e)
  {
  }

  /** Under the lock nobody else can edit, commit or confirm, for as long as the session lives. */
  lemma {:induction false} RunKeepsHold(d: Device, events: seq<Event>, s: SessionId, c: Config)
    requires Holds(d, s, c) && Others(events, s)
    ensures Holds(Run(d, events), s, c)
    ensures s in Run(d, events).sessions ==> NothingConfirms(d, events) && s in d.sessions
    decreases |events|
  {
    hide Step, Holds, Confirms;
    if events != [] {
      var front := events[..|events| - 1];
      RunKeepsHold(d, front, s, c);
      StepKeepsHold(Run(d, front), events[|events| - 1], s, c);
      if s in Run(d, events).sessions {
        forall k ensures !ConfirmsAt(d, events, k) {
          assert !ConfirmsAt(d, front, k);
          if k < |front| { ConfirmsAtPrefix(d, events, k); }
        }
      }
    }
  }

  function Edited(rpc: Rpc, c: Config): Config { if rpc.EditConfig? then rpc.edit(c) else c }

  lemma OwnStepKeepsHold(d: Device, s: SessionId, rpc: Rpc, c: Config)
    requires Holds(d, s, c) && (rpc.EditConfig? || rpc.Validate? || rpc.Commit? || rpc.Get?)
    ensures var next := Step(d, Carried(s, rpc));
            && (Holds(next, s, c) || Holds(next, s, Edited(rpc, c)))
            && (Apply(d, s, rpc).Some? ==> Holds(next, s, Edited(rpc, c)))
  {
  }

  /** From the lock reply to the end of the plan: held at every arrival, with the edit in it once that is answered. */
  lemma {:induction false} BodyHolds(request: Request, established: Device, s: SessionId, body: seq<Sent>, end: Device)
    requires Acceptable(request) && Chained(established, s, body, end) && BodySoFar(Plan(request), body)
    requires s < established.nextSession && |body| >= 1 && body[0].replied
    ensures var c0 := body[0].end.candidate;
            var c := if |body| >= 2 && body[1].replied then request.edit(c0) else c0;
            && (|body| >= 3 || LastReplied(body) ==> Holds(end, s, c))
            && (|body| >= 2 ==> Holds(Arrival(body[|body| - 1]), s, if |body| == 2 then c0 else c))
            && (exists any :: Holds(end, s, any))
    decreases |body|
  {
    hide Plan, ConfirmTimeoutText, Apply, Step, Holds;
    PlanShape(request);
    var n := |body| - 1;
    var last, front := body[n], body[..n];
    var c0 := body[0].end.candidate;
    if n == 0 {
      LockGives(last, s, established);
    } else {
      BodyHolds(request, established, s, front, last.start);
      assert front[|front| - 1].replied;
      var c := if n == 1 then c0 else request.edit(c0);
      RunKeepsHold(last.start, last.before, s, c);
      assert last.rpc == Plan(request)[n];
      OwnStepKeepsHold(Arrival(last), s, last.rpc, c);
      assert n >= 2 ==> !last.rpc.EditConfig?;
    }
  }

  lemma LockGives(c: Sent, s: SessionId, established: Device)
    requires SentOk(c, s) && c.rpc == Lock && c.replied && c.start == established && s < established.nextSession
    ensures Holds(c.end, s, c.end.candidate)
  {
    RunOnlyGrows(c.start, c.before);
  }

  /** Every operation but the one that takes the lock and the two that come last. */
  predicate NeedsLock(rpc: Rpc) { !rpc.Lock? && !rpc.Unlock? && !rpc.CloseSession? }

  /**
   Lock discipline: everything between lock and unlock arrives while this session holds the candidate's lock
   (or at a session the device no longer knows, where it has no effect), and without a lock reply nothing of
   the kind is sent at all, so nobody else's candidate is ever discarded.
   */
  lemma LockDiscipline(d: Device, request: Request, r: Report, end: Device)
    requires Inv(d) && Acceptable(request) && Accounts(d, request, r, end)
    ensures forall i :: 0 <= i < |Calls(r)| && NeedsLock(Calls(r)[i].rpc) ==>
              r.session in Arrival(Calls(r)[i]).sessions ==> Arrival(Calls(r)[i]).locked == Some(r.session)
    ensures r.body == [] || !r.body[0].replied ==> forall c <- Calls(r) :: !NeedsLock(c.rpc)
  {
    hide Chained, Plan, ConfirmTimeoutText, Run;
    PlanShape(request);
    RunKeepsInv(d, r.opening[..|r.opening| - 1]);
    Established(d, request, r, end);
    forall i | 0 <= i < |Calls(r)| && NeedsLock(Calls(r)[i].rpc)
      ensures r.session in Arrival(Calls(r)[i]).sessions ==> Arrival(Calls(r)[i]).locked == Some(r.session)
    {
      if i < |r.body| {
        BodyArrivalHolds(d, request, r, end, i);
      } else {
        DiscardArrivalHolds(d, request, r, end, i);
      }
    }
  }

  lemma Established(d: Device, request: Request, r: Report, end: Device)
    requires Inv(d) && Acceptable(request) && Accounts(d, request, r, end)
    ensures r.session < r.established.nextSession && Inv(r.established)
  {
    hide Chained, Plan, ConfirmTimeoutText;
    RunKeepsInv(d, r.opening);
  }

  lemma BodyArrivalHolds(d: Device, request: Request, r: Report, end: Device, i: nat)
    requires Inv(d) && Acceptable(request) && Accounts(d, request, r, end)
    requires 1 <= i < |r.body|
    ensures Holds(Arrival(r.body[i]), r.session, if i == 1 then r.body[0].end.candidate else request.edit(r.body[0].end.candidate))
  {
    hide Chained, Plan, ConfirmTimeoutText, Run, Holds;
    Established(d, request, r, end);
    var calls, s := Calls(r), r.session;
    var front := r.body[..i + 1];
    ChainedPrefix(r.established, s, calls, end, i + 1);
    assert calls[..i + 1] == front;
    BodyHolds(request, r.established, s, front, calls[i + 1].start);
    assert front[|front| - 1] == r.body[i];
  }

  lemma DiscardArrivalHolds(d: Device, request: Request, r: Report, end: Device, i: nat)
    requires Inv(d) && Acceptable(request) && Accounts(d, request, r, end)
    requires |r.body| <= i < |Calls(r)| && NeedsLock(Calls(r)[i].rpc)
    ensures exists any :: Holds(Arrival(Calls(r)[i]), r.session, any)
  {
    hide Chained, Plan, ConfirmTimeoutText, Run, Holds;
    Established(d, request, r, end);
    var calls, s := Calls(r), r.session;
    assert i == |r.body| && calls[i] == r.cleanup[0];
    ChainedPrefix(r.established, s, calls, end, i);
    assert calls[..i] == r.body;
    BodyHolds(request, r.established, s, r.body, calls[i].start);
    var any :| Holds(calls[i].start, s, any);
    RunKeepsHold(calls[i].start, calls[i].before, s, any);
  }

  /**
   The premise about other sessions takes care of itself from the lock reply to the first operation of
   the cleanup: while this session lives, nobody else's confirming commit is carried out in between.
   */
  lemma NobodyConfirmsUnderLock(d: Device, request: Request, r: Report, end: Device, i: nat)
    requires Inv(d) && Acceptable(request) && Accounts(d, request, r, end)
    requires r.body != [] && r.body[0].replied && 1 <= i <= |r.body|
    requires r.session in Arrival(Calls(r)[i]).sessions
    ensures NothingConfirms(Calls(r)[i].start, Calls(r)[i].before)
  {
    hide Chained, Plan, ConfirmTimeoutText, Run, Holds, NothingConfirms;
    Established(d, request, r, end);
    var calls, s := Calls(r), r.session;
    ChainedPrefix(r.established, s, calls, end, i);
    assert calls[..i] == r.body[..i];
    BodyHolds(request, r.established, s, r.body[..i], calls[i].start);
    var any :| Holds(calls[i].start, s, any);
    RunKeepsHold(calls[i].start, calls[i].before, s, any);
  }

  // ---- Finalize ----

  /** The confirming commit of the call was carried out, whether or not its reply arrived. */
  predicate FinalizeCarried(request: Request, r: Report)
    requires Acceptable(request)
  {
    && request.finalize && |r.body| == |Plan(request)|
    && r.body[|r.body| - 1].outcome != Refused
    && Apply(Arrival(r.body[|r.body| - 1]), r.session, Commit(None, None, request.persist)).Some?
  }

  lemma {:induction false} ChainedSuffix(d: Device, s: SessionId, calls: seq<Sent>, end: Device, k: nat)
    requires Chained(d, s, calls, end) && k < |calls|
    ensures Chained(calls[k].start, s, calls[k..], end)
    decreases |calls|
  {
    hide SentOk;
    var last, front := calls[|calls| - 1], calls[..|calls| - 1];
    assert calls[k..][..|calls| - k - 1] == front[k..];
    if k + 1 < |calls| {
      ChainedSuffix(d, s, front, last.start, k);
    }
  }

  /**
   What a call does to running for good, with or without finalize, is decided by one thing: whether its
   confirming commit was carried out.  Then it is the edit made to the candidate that was locked,
   otherwise it is nothing.
   */
  lemma FinalizeDecides(d: Device, request: Request, r: Report, end: Device)
    requires Inv(d) && Acceptable(request) && Accounts(d, request, r, end) && Undisturbed(d, r)
    ensures Stable(end) == if FinalizeCarried(request, r) then request.edit(r.body[0].end.candidate) else Stable(d)
  {
    hide Chained, Plan, ConfirmTimeoutText, Run, Apply, Stable, NothingConfirms, SentOk;
    PlanShape(request);
    OpeningKeepsStable(d, request, r, end);
    var calls, s, plan := Calls(r), r.session, Plan(request);
    if |r.body| == |plan| && request.finalize {
      FinalizeSent(d, request, r, end);
    } else {
      NoPlainCommitBut(request, r, |calls|);
      assert calls[..|calls|] == calls;
      CallsKeepStable(r.established, s, calls, end);
    }
  }

  /** With the confirming commit sent: up to it and after it nothing of the call is permanent. */
  lemma FinalizeSent(d: Device, request: Request, r: Report, end: Device)
    requires Inv(d) && Acceptable(request) && Accounts(d, request, r, end) && Undisturbed(d, r)
    requires |r.body| == |Plan(request)| && request.finalize
    ensures Stable(end) == if FinalizeCarried(request, r) then request.edit(r.body[0].end.candidate) else Stable(d)
  {
    hide Chained, Plan, ConfirmTimeoutText, Run, Apply, Stable, NothingConfirms, SentOk;
    PlanShape(request);
    OpeningKeepsStable(d, request, r, end);
    var calls, s, n := Calls(r), r.session, |Plan(request)| - 1;
    ChainedPrefix(r.established, s, calls, end, n);
    NoPlainCommitBut(request, r, n);
    CallsKeepStable(r.established, s, calls[..n], calls[n].start);
    ChainKeepsInv(r.established, s, calls[..n], calls[n].start);
    assert calls[n] == r.body[n];
    SentKeepsStable(calls[n], s);
    FinalizeArrives(d, request, r, end);
    AfterFinalize(d, request, r, end);
  }

  lemma FinalizeArrives(d: Device, request: Request, r: Report, end: Device)
    requires Inv(d) && Acceptable(request) && Accounts(d, request, r, end)
    requires |r.body| == |Plan(request)| && request.finalize
    ensures var c := r.body[|r.body| - 1];
            Apply(Arrival(c), r.session, c.rpc).Some? ==> Arrival(c).candidate == request.edit(r.body[0].end.candidate)
  {
    hide Chained, Plan, ConfirmTimeoutText, Run, Apply, SentOk;
    PlanShape(request);
    var n := |r.body| - 1;
    BodyArrivalHolds(d, request, r, end, n);
    CarriedNeedsSession(Arrival(r.body[n]), r.session, r.body[n].rpc);
  }

  lemma AfterFinalize(d: Device, request: Request, r: Report, end: Device)
    requires Inv(d) && Acceptable(request) && Accounts(d, request, r, end) && Undisturbed(d, r)
    requires |r.body| == |Plan(request)| && request.finalize
    ensures Stable(end) == Stable(r.body[|r.body| - 1].end)
  {
    hide Chained, Plan, ConfirmTimeoutText, Run, Apply, Stable, NothingConfirms, SentOk;
    PlanShape(request);
    Established(d, request, r, end);
    var calls, s, n := Calls(r), r.session, |r.body| - 1;
    assert calls[n] == r.body[n];
    ChainedPrefix(r.established, s, calls, end, n);
    NoPlainCommitBut(request, r, n);
    ChainKeepsInv(r.established, s, calls[..n], calls[n].start);
    SentKeepsInv(calls[n], s);
    ChainedSuffix(r.established, s, calls, end, n + 1);
    ChainedPrefix(r.established, s, calls, end, n + 1);
    CallsKeepStable(calls[n + 1].start, s, calls[n + 1..], end);
  }

  lemma CarriedNeedsSession(d: Device, s: SessionId, rpc: Rpc)
    ensures Apply(d, s, rpc).Some? ==> s in d.sessions
  {
  }

  /** The finalize step is the only commit without <confirmed> a call sends. */
  lemma NoPlainCommitBut(request: Request, r: Report, n: nat)
    requires Acceptable(request) && BodyOk(Plan(request), r.body) && Sends(r.cleanup, CleanupPlan(r.body))
    requires r.closing.rpc == CloseSession && n <= |Calls(r)|
    requires if request.finalize && |r.body| == |Plan(request)| then n == |r.body| - 1 else n == |Calls(r)|
    ensures forall c <- Calls(r)[..n] :: !PlainCommit(c.rpc)
    ensures n < |Calls(r)| ==> forall c <- Calls(r)[n + 1..] :: !PlainCommit(c.rpc)
  {
    hide Plan, ConfirmTimeoutText;
    PlanShape(request);
    forall i | 0 <= i < |Calls(r)| && i != n ensures !PlainCommit(Calls(r)[i].rpc) {
      if i < |r.body| {
        assert Calls(r)[i].rpc == Plan(request)[i];
      } else if i < |r.body| + |r.cleanup| {
        assert Calls(r)[i] == r.cleanup[i - |r.body|];
      }
    }
  }

  /**
   The shape of a call: discard-changes is sent exactly when the lock was answered and the confirmed
   commit was not, and unlock exactly when the lock was answered.
   */
  lemma CleanupSentIff(d: Device, request: Request, r: Report, end: Device)
    requires Acceptable(request) && Accounts(d, request, r, end)
    ensures (exists c <- Calls(r) :: c.rpc.DiscardChanges?) <==> r.body != [] && r.body[0].replied && !Committed(r.body)
    ensures (exists c <- Calls(r) :: c.rpc.Unlock?) <==> r.body != [] && r.body[0].replied
  {
    hide Chained, Plan, ConfirmTimeoutText, Run, Accounts;
    PlanOnly(d, request, r, end);
    if r.body != [] && r.body[0].replied {
      var last := r.cleanup[|r.cleanup| - 1];
      assert last in r.cleanup && last in Calls(r);
      assert r.cleanup[0] in r.cleanup && r.cleanup[0] in Calls(r);
    }
    forall c | c in Calls(r) && (c.rpc.DiscardChanges? || c.rpc.Unlock?) ensures c in r.cleanup {}
  }

  lemma PlanOnly(d: Device, request: Request, r: Report, end: Device)
    requires Acceptable(request) && Accounts(d, request, r, end)
    ensures Sends(r.cleanup, CleanupPlan(r.body)) && r.closing.rpc == CloseSession
    ensures forall c <- r.body :: !c.rpc.DiscardChanges? && !c.rpc.Unlock?
  {
    hide Chained, ConfirmTimeoutText, Run;
  }

  /** A result that says finalized: the commit was confirmed and the edit is there for good. */
  lemma FinalizedResultIsPermanent(d: Device, request: Request, r: Report, end: Device, capabilities: seq<string>)
    requires Inv(d) && Acceptable(request) && Accounts(d, request, r, end) && Undisturbed(d, r)
    requires |r.body| <= |PlanNames(request)| && Answer(request, capabilities, r).Ok?
    ensures Answer(request, capabilities, r).value.finalized == FinalizeCarried(request, r)
    ensures forall c <- Calls(r) :: !c.rpc.DiscardChanges?
    ensures Stable(end) == if request.finalize then request.edit(r.body[0].end.candidate) else Stable(d)
  {
    hide Chained, Plan, ConfirmTimeoutText, Run, Apply, Stable, NothingConfirms, PlanNames;
    PlanShape(request);
    FinalizeDecides(d, request, r, end);
    CleanupSentIff(d, request, r, end);
    if request.finalize {
      var n := |r.body| - 1;
      ChainedPrefix(r.established, r.session, Calls(r), end, n);
      assert Calls(r)[n] == r.body[n];
    }
  }

  // ---- What is left on the device ----

  /** Unconfirmed edits on the candidate are this session's, under its lock. */
  predicate EditsOnlyUnder(d: Device, s: SessionId) { d.dirty ==> d.locked == Some(s) }

  predicate NoEdits(events: seq<Event>) {
    forall i :: 0 <= i < |events| ==> events[i].Carried? ==> !events[i].rpc.EditConfig?
  }

  lemma {:induction false} RunKeepsEditsUnder(d: Device, events: seq<Event>, s: SessionId)
    requires EditsOnlyUnder(d, s) && NoEdits(events) && Others(events, s)
    ensures EditsOnlyUnder(Run(d, events), s)
    decreases |events|
  {
    hide Step;
    if events != [] {
      RunKeepsEditsUnder(d, events[..|events| - 1], s);
      StepKeepsEditsUnder(Run(d, events[..|events| - 1]), events[|events| - 1], s);
    }
  }

  lemma StepKeepsEditsUnder(d: Device, e: Event, s: SessionId)
    requires EditsOnlyUnder(d, s)
    requires e.Carried? && e.rpc.EditConfig? ==> e.session == s && (s in d.sessions ==> d.locked == Some(s))
    ensures EditsOnlyUnder(Step(d, e), s)
  {
  }

  lemma {:induction false} CallsKeepEditsUnder(d: Device, s: SessionId, calls: seq<Sent>, end: Device)
    requires Chained(d, s, calls, end) && EditsOnlyUnder(d, s)
    requires forall c <- calls :: NoEdits(c.before)
    requires forall c <- calls :: c.rpc.EditConfig? && s in Arrival(c).sessions ==> Arrival(c).locked == Some(s)
    ensures EditsOnlyUnder(end, s)
    decreases |calls|
  {
    hide Step, Apply, NoEdits, EditsOnlyUnder;
    if calls != [] {
      var last, front := calls[|calls| - 1], calls[..|calls| - 1];
      forall c <- front
        ensures NoEdits(c.before)
        ensures c.rpc.EditConfig? && s in Arrival(c).sessions ==> Arrival(c).locked == Some(s)
      { assert c in calls; }
      CallsKeepEditsUnder(d, s, front, last.start);
      assert last in calls;
      RunKeepsEditsUnder(last.start, last.before, s);
      StepKeepsEditsUnder(Arrival(last), Carried(s, last.rpc), s);
    }
  }

  /**
   No outstanding changes and no lock stay behind, so that the next session's lock is not refused: when
   the others did not edit meanwhile and the session is gone, the candidate has no uncommitted changes and
   this session no lock, however the call ended.  What the candidate holds is another matter: see
   NetconfCandidate.
   */
  lemma NoOutstandingChanges(d: Device, request: Request, r: Report, end: Device)
    requires Inv(d) && Acceptable(request) && Accounts(d, request, r, end) && !d.dirty
    requires NoEdits(r.opening) && forall c <- Calls(r) :: NoEdits(c.before)
    ensures end.dirty ==> end.locked == Some(r.session) && r.session in end.sessions
    ensures r.session !in end.sessions ==> !end.dirty && end.locked != Some(r.session)
  {
    hide Chained, Plan, ConfirmTimeoutText, Apply, Step, NoEdits, EditsOnlyUnder;
    var s := r.session;
    OpeningKeepsClean(d, r.opening);
    LockDiscipline(d, request, r, end);
    Established(d, request, r, end);
    ChainKeepsInv(r.established, s, Calls(r), end);
    assert EditsOnlyUnder(r.established, s) by { EditsUnderWhenClean(r.established, s); }
    CallsKeepEditsUnder(r.established, s, Calls(r), end);
    EditsUnderWhenClean(end, s);
  }

  lemma EditsUnderWhenClean(d: Device, s: SessionId)
    ensures !d.dirty ==> EditsOnlyUnder(d, s)
    ensures EditsOnlyUnder(d, s) && d.dirty ==> d.locked == Some(s)
  {
  }

  lemma {:induction false} OpeningKeepsClean(d: Device, events: seq<Event>)
    requires !d.dirty && NoEdits(events)
    ensures !Run(d, events).dirty
    decreases |events|
  {
    hide Step;
    if events != [] {
      OpeningKeepsClean(d, events[..|events| - 1]);
      StepKeepsClean(Run(d, events[..|events| - 1]), events[|events| - 1]);
    }
  }

  lemma StepKeepsClean(d: Device, e: Event)
    requires !d.dirty && (e.Carried? ==> !e.rpc.EditConfig?)
    ensures !Step(d, e).dirty
  {
    hide Stable;
    match e
    case Opened =>
    case Carried(s, rpc) =>
    case Lost(s) =>
    case Tick(_) =>
  }

  // ---- Settling a persisted commit ----

  /** While a commit is pending, running shows the candidate: true right after any confirmed commit. */
  predicate PendingShowsCandidate(d: Device) { d.pending.Some? ==> d.candidate == d.running }

  lemma StepKeepsPendingShown(d: Device, e: Event)
    requires PendingShowsCandidate(d) && (e.Carried? ==> !e.rpc.EditConfig?)
    ensures PendingShowsCandidate(Step(d, e))
  {
    hide Stable;
    match e
    case Opened =>
    case Carried(s, rpc) =>
    case Lost(s) =>
    case Tick(_) =>
  }

  lemma {:induction false} RunKeepsPendingShown(d: Device, events: seq<Event>)
    requires PendingShowsCandidate(d) && NoEdits(events)
    ensures PendingShowsCandidate(Run(d, events))
    decreases |events|
  {
    hide Step;
    if events != [] {
      RunKeepsPendingShown(d, events[..|events| - 1]);
      StepKeepsPendingShown(Run(d, events[..|events| - 1]), events[|events| - 1]);
    }
  }

  lemma {:induction false} CallsKeepPendingShown(d: Device, s: SessionId, calls: seq<Sent>, end: Device)
    requires Chained(d, s, calls, end) && PendingShowsCandidate(d)
    requires forall c <- calls :: NoEdits(c.before) && !c.rpc.EditConfig?
    ensures PendingShowsCandidate(end)
    decreases |calls|
  {
    hide Step, Apply, NoEdits, PendingShowsCandidate;
    if calls != [] {
      var last, front := calls[|calls| - 1], calls[..|calls| - 1];
      forall c <- front ensures NoEdits(c.before) && !c.rpc.EditConfig? { assert c in calls; }
      CallsKeepPendingShown(d, s, front, last.start);
      assert last in calls;
      RunKeepsPendingShown(last.start, last.before);
      StepKeepsPendingShown(Arrival(last), Carried(s, last.rpc));
    }
  }

  /** A confirm commits whatever the candidate holds by then: running keeps its value exactly when the two agree. */
  lemma ConfirmKeepsRunningIff(d: Device, s: SessionId, id: PersistId)
    requires Apply(d, s, Commit(None, None, Some(id))).Some?
    ensures var after := Step(d, Carried(s, Commit(None, None, Some(id))));
            && after.pending.None? && d.pending.Some? && d.pending.value.persist == Some(id)
            && (after.running == d.running <==> d.candidate == d.running)
  {
  }

  /**
   Execute with persist, then confirm: when the call succeeded and nobody edited the candidate since its
   commit, a confirm that is carried out makes permanent exactly what every interface could observe.
   */
  lemma ConfirmedIsWhatWasObserved(d: Device, request: Request, r: Report, end: Device, later: seq<Event>,
                                   s: SessionId, id: PersistId)
    requires Acceptable(request) && Accounts(d, request, r, end) && AllReplied(request, r)
    requires (forall c <- Calls(r)[4..] :: NoEdits(c.before)) && NoEdits(later)
    requires Apply(Run(end, later), s, Commit(None, None, Some(id))).Some?
    ensures var after := Step(Run(end, later), Carried(s, Commit(None, None, Some(id))));
            after.pending.None? && after.running == Run(end, later).running
  {
    hide Chained, Plan, ConfirmTimeoutText, Apply, Step, NoEdits, PendingShowsCandidate, Run;
    PlanShape(request);
    var calls := Calls(r);
    ChainedPrefix(r.established, r.session, calls, end, 3);
    assert calls[3] == r.body[3];
    ConfirmedCommitShows(calls[3], r.session);
    ChainedSuffix(r.established, r.session, calls, end, 4);
    NoEditAfterCommit(d, request, r, end);
    CallsKeepPendingShown(calls[4].start, r.session, calls[4..], end);
    RunKeepsPendingShown(end, later);
    ShownConfirm(Run(end, later), s, id);
  }

  lemma NoEditAfterCommit(d: Device, request: Request, r: Report, end: Device)
    requires Acceptable(request) && Accounts(d, request, r, end) && |Calls(r)| >= 4
    ensures forall c <- Calls(r)[4..] :: !c.rpc.EditConfig?
  {
    hide Chained, Plan, ConfirmTimeoutText, Run;
    PlanShape(request);
    var calls := Calls(r);
    forall c <- calls[4..] ensures !c.rpc.EditConfig? {
      var i :| 4 <= i < |calls| && calls[i] == c;
      if i < |r.body| { assert c.rpc == Plan(request)[i]; }
      else if i < |r.body| + |r.cleanup| { assert c == r.cleanup[i - |r.body|]; }
    }
  }

  lemma ConfirmedCommitShows(c: Sent, s: SessionId)
    requires SentOk(c, s) && c.replied && c.rpc.Commit?
    ensures PendingShowsCandidate(c.end)
  {
    hide Run;
  }

  lemma ShownConfirm(d: Device, s: SessionId, id: PersistId)
    requires PendingShowsCandidate(d) && Apply(d, s, Commit(None, None, Some(id))).Some?
    ensures var after := Step(d, Carried(s, Commit(None, None, Some(id))));
            after.pending.None? && after.running == d.running
  {
    ConfirmKeepsRunningIff(d, s, id);
  }

  /** An answered cancel: the matching commit was pending and is gone, with running as it was before it. */
  lemma AnsweredCancelReverts(d: Device, id: PersistId, t: Settling, end: Device, capabilities: seq<string>)
    requires Inv(d) && Settles(d, CancelCommit(Some(id)), t, end)
    requires SettlingAnswer("cancel-commit", capabilities, t).Ok?
    requires NothingConfirms(d, t.opening) && forall c <- t.calls :: NothingConfirms(c.start, c.before)
    ensures var carried := t.calls[0];
            && Arrival(carried).pending.Some? && Arrival(carried).pending.value.persist == Some(id)
            && carried.end.pending.None? && carried.end.running == Stable(d)
    ensures Stable(end) == Stable(d)
  {
    hide Chained, NothingConfirms, Stable;
    RunKeepsInv(d, t.opening);
    RunningFollowsConfirmations(d, t.opening);
    NoConfirmationNoChange(d, t.opening);
    forall c <- t.calls ensures NothingConfirms(c.start, c.before) && !PlainCommit(c.rpc) {}
    CallsKeepStable(t.established, t.session, t.calls, end);
    FirstSettlingCall(t, end);
    SentKeepsStable(t.calls[0], t.session);
    CancelCarried(t.calls[0], t.session, id);
  }

  lemma FirstSettlingCall(t: Settling, end: Device)
    requires Chained(t.established, t.session, t.calls, end) && t.calls != []
    ensures SentOk(t.calls[0], t.session) && t.calls[0].start == t.established
  {
    hide SentOk;
    ChainedPrefix(t.established, t.session, t.calls, end, 0);
    assert t.calls[..0] == [];
  }

  lemma CancelCarried(c: Sent, s: SessionId, id: PersistId)
    requires SentOk(c, s) && c.replied && c.rpc == CancelCommit(Some(id))
    ensures Arrival(c).pending.Some? && Arrival(c).pending.value.persist == Some(id)
    ensures c.end.pending.None? && c.end.running == Stable(c.end) == Stable(Arrival(c))
  {
    hide Run;
  }
}
