/**
 Which candidate a run, and in particular a call, leaves on the device.  Rolling a commit back gives
 running its old configuration but leaves the candidate alone, so the two can part ways with nothing
 marked as outstanding and nothing locked.
 */
module NetconfCandidate {
  import opened Basics
  import opened NetconfDevice
  import opened NetconfClient
  import opened NetconfSafety
  import opened NetconfRuns

  // ---- Every run of the device ----

  /** The session that an event ends. */
  function Ends(d: Device, e: Event): Option<SessionId> {
    match e
    case Lost(s) => if s in d.sessions then Some(s) else None
    case Carried(s, rpc) => if s in d.sessions && rpc.CloseSession? then Some(s) else None
    case _ => None
  }

  /** The event makes candidate and running equal: a commit, a discard, or the candidate lock going. */
  predicate Levels(d: Device, e: Event) {
    || (Ends(d, e).Some? && d.locked == Ends(d, e))
    || (e.Carried? && Apply(d, e.session, e.rpc).Some? && (e.rpc.Commit? || e.rpc.DiscardChanges? || e.rpc.Unlock?))
  }

  /** The device when they became equal.  A session's end may revert its commit after that. */
  function Levelled(d: Device, e: Event): Device {
    var s := Ends(d, e);
    if s.Some? && !d.revertFirst then ReleaseLock(d, s.value) else Step(d, e)
  }

  function EverLevelled(d: Device, events: seq<Event>): bool
    decreases |events|
  {
    events != []
    && (Levels(Run(d, events[..|events| - 1]), events[|events| - 1]) || EverLevelled(d, events[..|events| - 1]))
  }

  /** The device when candidate and running last became equal, or at the start of the run. */
  function LastLevelled(d: Device, events: seq<Event>): Device
    decreases |events|
  {
    if events == [] then d
    else
      var before := events[..|events| - 1];
      if Levels(Run(d, before), events[|events| - 1]) then Levelled(Run(d, before), events[|events| - 1])
      else LastLevelled(d, before)
  }

  /** The commit that was pending at `b` is rolled back at `now`. */
  predicate RolledBack(b: Device, now: Device) { b.pending.Some? && now.pending.None? }

  /** From `b` to `now` running changed by a rollback or not at all. */
  predicate Follows(b: Device, now: Device) {
    && (now.pending.None? || now.pending == b.pending)
    && now.running == if RolledBack(b, now) then b.pending.value.rollback else b.running
  }

  lemma LevellingStep(d: Device, e: Event)
    requires Levels(d, e)
    ensures var b, now := Levelled(d, e), Step(d, e);
            && b.candidate == b.running && now.candidate == b.candidate && !now.dirty && Follows(b, now)
  {
  }

  lemma OtherStep(d: Device, e: Event)
    requires !Levels(d, e)
    ensures var now := Step(d, e);
            Follows(d, now) && (!now.dirty ==> !d.dirty && now.candidate == d.candidate)
  {
    hide Stable;
    match e
    case Opened =>
    case Carried(s, rpc) => if Apply(d, s, rpc).Some? { OtherOperation(d, s, rpc); }
    case Lost(s) => if s in d.sessions { OtherEnd(d, s); }
    case Tick(_) =>
  }

  lemma OtherEnd(d: Device, s: SessionId)
    requires d.locked != Some(s)
    ensures var now := EndSession(d, s); Follows(d, now) && now.dirty == d.dirty && now.candidate == d.candidate
  {
  }

  lemma OtherOperation(d: Device, s: SessionId, rpc: Rpc)
    requires Apply(d, s, rpc).Some? && !rpc.Commit? && !rpc.DiscardChanges? && !rpc.Unlock?
    requires rpc.CloseSession? ==> d.locked != Some(s)
    ensures var now := Apply(d, s, rpc).value;
            Follows(d, now) && (!now.dirty ==> !d.dirty && now.candidate == d.candidate)
  {
    hide EndSession, Stable;
    if rpc.CloseSession? { OtherEnd(d, s); }
  }

  /**
   Over every run of every client: running is what it was when candidate and running last became equal,
   unless the commit pending then was rolled back since; and the candidate, unless there are outstanding
   changes on it, is what it was then in any case.
   */
  lemma {:induction false} RunFromLastLevelled(d: Device, events: seq<Event>)
    ensures var b, now := LastLevelled(d, events), Run(d, events);
            && Follows(b, now)
            && (!now.dirty ==> now.candidate == b.candidate)
            && (EverLevelled(d, events) ==> b.candidate == b.running)
            && (!EverLevelled(d, events) ==> b == d)
    decreases |events|
  {
    hide Step, Levels, Levelled;
    if events != [] {
      var before, e := events[..|events| - 1], events[|events| - 1];
      RunFromLastLevelled(d, before);
      if Levels(Run(d, before), e) {
        LevellingStep(Run(d, before), e);
      } else {
        OtherStep(Run(d, before), e);
      }
    }
  }

  /** So without outstanding changes they part exactly by a rollback that changed running. */
  lemma CandidateIsRunningIff(d: Device, events: seq<Event>)
    requires EverLevelled(d, events) || d.candidate == d.running
    requires !Run(d, events).dirty
    ensures var b, now := LastLevelled(d, events), Run(d, events);
            now.candidate == now.running <==> !(RolledBack(b, now) && b.pending.value.rollback != b.running)
  {
    hide Run, LastLevelled, EverLevelled;
    RunFromLastLevelled(d, events);
  }

  // ---- Every call ----

  /**
   Which candidate a call leaves, for every pattern of refused operations and lost replies and anything
   the others do: the one of the moment when candidate and running last became equal; and it is what
   running has exactly when no commit that was pending at that moment has changed running by its rollback.
   */
  lemma CallLeavesCandidateIff(d: Device, request: Request, r: Report, end: Device)
    requires Inv(d) && Acceptable(request) && Accounts(d, request, r, end)
    requires d.candidate == d.running || EverLevelled(d, ReportEvents(r))
    requires !end.dirty
    ensures var b := LastLevelled(d, ReportEvents(r));
            && end == Run(d, ReportEvents(r)) && end.candidate == b.candidate == b.running
            && (end.candidate == end.running <==> !(RolledBack(b, end) && b.pending.value.rollback != b.running))
  {
    hide Run, LastLevelled, EverLevelled, Chained, Plan, ConfirmTimeoutText;
    CallIsRun(d, request, r, end);
    RunFromLastLevelled(d, ReportEvents(r));
    CandidateIsRunningIff(d, ReportEvents(r));
  }

  lemma CallIsRun(d: Device, request: Request, r: Report, end: Device)
    requires Acceptable(request) && Accounts(d, request, r, end)
    ensures end == Run(d, ReportEvents(r))
  {
    hide Run, Chained, Plan, ConfirmTimeoutText;
    ChainIsRun(r.established, r.session, Calls(r), end);
    RunConcat(d, r.opening, History(r.session, Calls(r)));
  }

  // ---- The edit that stays on the candidate ----

  /** Nobody edits, commits, discards or locks: sessions come and go, read and cancel, and time passes. */
  predicate LeavesCandidate(events: seq<Event>) {
    forall i :: 0 <= i < |events| && events[i].Carried? ==>
      events[i].rpc.Get? || events[i].rpc.Validate? || events[i].rpc.CancelCommit? || events[i].rpc.CloseSession?
  }

  lemma StepLeavesCandidate(d: Device, e: Event)
    requires d.locked.None? && LeavesCandidate([e])
    ensures Step(d, e).locked.None? && Step(d, e).candidate == d.candidate
  {
    assert [e][0] == e;
  }

  lemma {:induction false} RunLeavesCandidate(d: Device, events: seq<Event>)
    requires d.locked.None? && LeavesCandidate(events)
    ensures Run(d, events).locked.None? && Run(d, events).candidate == d.candidate
    decreases |events|
  {
    hide Step;
    if events != [] {
      RunLeavesCandidate(d, events[..|events| - 1]);
      StepLeavesCandidate(Run(d, events[..|events| - 1]), events[|events| - 1]);
    }
  }

  lemma StepKeepsShownUnderHold(d: Device, e: Event, s: SessionId, c: Config)
    requires Holds(d, s, c) && PendingShowsCandidate(d) && (e.Carried? ==> e.session != s) && s in Step(d, e).sessions
    ensures PendingShowsCandidate(Step(d, e))
  {
  }

  /** Under the lock a pending commit goes on showing the candidate, whatever the others try. */
  lemma {:induction false} RunKeepsShownUnderHold(d: Device, events: seq<Event>, s: SessionId, c: Config)
    requires Holds(d, s, c) && PendingShowsCandidate(d) && Others(events, s) && s in Run(d, events).sessions
    ensures PendingShowsCandidate(Run(d, events)) && Holds(Run(d, events), s, c) && s in d.sessions
    decreases |events|
  {
    hide Step, Holds, PendingShowsCandidate;
    RunKeepsHold(d, events, s, c);
    if events != [] {
      var front, e := events[..|events| - 1], events[|events| - 1];
      RunKeepsHold(d, front, s, c);
      StepKeepsHold(Run(d, front), e, s, c);
      RunKeepsShownUnderHold(d, front, s, c);
      StepKeepsShownUnderHold(Run(d, front), e, s, c);
    }
  }

  /** Unlock arrives in a session that lives, with the call's commit still pending. */
  ghost predicate UnlocksWhilePending(r: Report) {
    && r.cleanup != [] && r.cleanup[0].rpc == Unlock && r.cleanup[0].outcome != Refused
    && r.session in Arrival(r.cleanup[0]).sessions && Arrival(r.cleanup[0]).pending.Some?
  }

  /** At that moment running shows the locked candidate with the edit in it. */
  lemma ShownAtUnlock(d: Device, request: Request, r: Report, end: Device)
    requires Inv(d) && Acceptable(request) && Accounts(d, request, r, end)
    requires !request.finalize && AllReplied(request, r) && UnlocksWhilePending(r)
    ensures var u := Arrival(r.cleanup[0]);
            && u.locked == Some(r.session)
            && u.candidate == u.running == request.edit(r.body[0].end.candidate)
  {
    hide Chained, Plan, ConfirmTimeoutText, Run, Step, Apply, Holds, PendingShowsCandidate, SentOk;
    PlanShape(request);
    Established(d, request, r, end);
    var s, calls, n := r.session, Calls(r), |r.body|;
    var c := request.edit(r.body[0].end.candidate);
    var unlock := r.cleanup[0];
    assert calls[n] == unlock && calls[..n] == r.body;
    ChainedPrefix(r.established, s, calls, end, n);
    BodyHolds(request, r.established, s, r.body, unlock.start);
    assert PendingShowsCandidate(unlock.start) by { ShownAfterPlan(d, request, r, end); }
    UnderHold(unlock, s, c);
    HeldAndShown(Arrival(unlock), s, c);
  }

  lemma UnderHold(sent: Sent, s: SessionId, c: Config)
    requires SentOk(sent, s) && Holds(sent.start, s, c) && PendingShowsCandidate(sent.start) && s in Arrival(sent).sessions
    ensures Holds(Arrival(sent), s, c) && PendingShowsCandidate(Arrival(sent)) && s in sent.start.sessions
  {
    hide Run, Step, Apply, Holds, PendingShowsCandidate;
    RunKeepsShownUnderHold(sent.start, sent.before, s, c);
  }

  lemma HeldAndShown(d: Device, s: SessionId, c: Config)
    requires Holds(d, s, c) && s in d.sessions && PendingShowsCandidate(d) && d.pending.Some?
    ensures d.locked == Some(s) && d.candidate == d.running == c
  {
  }

  lemma ReadChangesNothing(sent: Sent, s: SessionId)
    requires SentOk(sent, s) && sent.rpc.Get?
    ensures sent.end == Arrival(sent)
  {
    hide Run;
  }

  /** From the commit's reply to the end of the plan the pending commit shows the candidate. */
  lemma ShownAfterPlan(d: Device, request: Request, r: Report, end: Device)
    requires Inv(d) && Acceptable(request) && Accounts(d, request, r, end)
    requires !request.finalize && AllReplied(request, r) && UnlocksWhilePending(r)
    ensures PendingShowsCandidate(r.cleanup[0].start)
  {
    hide Chained, Plan, ConfirmTimeoutText, Run, Step, Apply, Holds, PendingShowsCandidate, SentOk, Stable;
    PlanShape(request);
    Established(d, request, r, end);
    var s, calls, n := r.session, Calls(r), |r.body|;
    var unlock := r.cleanup[0];
    assert calls[n] == unlock && calls[n - 1] == r.body[n - 1] && calls[3] == r.body[3];
    ChainedPrefix(r.established, s, calls, end, n - 1);
    ChainedPrefix(r.established, s, calls, end, 3);
    ConfirmedCommitShows(r.body[3], s);
    if request.verify {
      ShownThroughVerify(d, request, r, end);
    }
  }

  lemma ShownThroughVerify(d: Device, request: Request, r: Report, end: Device)
    requires Inv(d) && Acceptable(request) && Accounts(d, request, r, end)
    requires !request.finalize && request.verify && AllReplied(request, r) && UnlocksWhilePending(r)
    requires |r.body| == 5 && r.body[4].rpc == Get && PendingShowsCandidate(r.body[3].end)
    ensures PendingShowsCandidate(r.cleanup[0].start)
  {
    hide Chained, Plan, ConfirmTimeoutText, Run, Step, Apply, Holds, PendingShowsCandidate, SentOk;
    Established(d, request, r, end);
    var s, calls := r.session, Calls(r);
    var c := request.edit(r.body[0].end.candidate);
    assert calls[3] == r.body[3] && calls[4] == r.body[4] && calls[5] == r.cleanup[0];
    assert calls[..4] == r.body[..4] && calls[..5] == r.body;
    ChainedPrefix(r.established, s, calls, end, 3);
    ChainedPrefix(r.established, s, calls, end, 4);
    ChainedPrefix(r.established, s, calls, end, 5);
    PlanShape(request);
    BodyHolds(request, r.established, s, r.body, r.cleanup[0].start);
    BodyHolds(request, r.established, s, r.body[..4], r.body[4].start);
    RepliedInSession(r.body[4], s);
    UnderHold(r.body[4], s, c);
    ReadChangesNothing(r.body[4], s);
  }

  lemma RepliedInSession(sent: Sent, s: SessionId)
    requires SentOk(sent, s) && sent.replied
    ensures s in Arrival(sent).sessions
  {
    hide Run;
  }

  lemma UnlockLevels(sent: Sent, s: SessionId)
    requires SentOk(sent, s) && sent.rpc == Unlock && sent.outcome != Refused
    requires s in Arrival(sent).sessions && Arrival(sent).locked == Some(s)
    ensures sent.end.locked.None? && sent.end.candidate == Arrival(sent).running
  {
    hide Run;
  }

  lemma ClosingLeavesCandidate(sent: Sent, s: SessionId)
    requires SentOk(sent, s) && sent.rpc == CloseSession && sent.start.locked.None? && LeavesCandidate(sent.before)
    ensures sent.end.locked.None? && sent.end.candidate == sent.start.candidate
  {
    hide Run, Step;
    RunLeavesCandidate(sent.start, sent.before);
    StepLeavesCandidate(Arrival(sent), Carried(s, CloseSession));
  }

  /**
   The ordinary unfinalized call, fully answered, whose unlock is carried out while its commit is pending:
   once that commit is rolled back, by the session's end, the timeout or a cancel, running is what it was
   before the call, but the candidate still holds the edit, outstanding for nobody and locked by nobody.
   The two agree exactly when the edit gives what running had.
   */
  lemma UnfinalizedCallLeavesItsEdit(d: Device, request: Request, r: Report, end: Device, later: seq<Event>)
    requires Inv(d) && Acceptable(request) && Accounts(d, request, r, end) && Undisturbed(d, r)
    requires !request.finalize && AllReplied(request, r) && UnlocksWhilePending(r)
    requires LeavesCandidate(r.closing.before) && LeavesCandidate(later) && Run(end, later).pending.None?
    ensures var now, edited := Run(end, later), request.edit(r.body[0].end.candidate);
            && now.running == Stable(d) && now.candidate == edited && now.locked.None?
            && (now.candidate == now.running <==> edited == Stable(d))
  {
    hide Chained, Plan, ConfirmTimeoutText, Run, Step, Apply, SentOk, NothingConfirms;
    var s, calls, n := r.session, Calls(r), |r.body|;
    ShownAtUnlock(d, request, r, end);
    assert calls[n] == r.cleanup[0] && calls[n + 1] == r.closing;
    ChainedPrefix(r.established, s, calls, end, n);
    ChainedPrefix(r.established, s, calls, end, n + 1);
    UnlockLevels(r.cleanup[0], s);
    ClosingLeavesCandidate(r.closing, s);
    RunLeavesCandidate(end, later);
    UnfinalizedCallChangesNothingForGood(d, request, r, end);
    RunningFollowsConfirmations(end, later);
    assert NothingConfirms(end, later) by { NobodyConfirms(end, later); }
    NoConfirmationNoChange(end, later);
  }

  lemma NobodyConfirms(d: Device, events: seq<Event>)
    requires LeavesCandidate(events)
    ensures NothingConfirms(d, events)
  {
    hide Run, Apply;
  }

  // ---- The next call ----

  /** A finalized call, its confirming commit carried out, with nobody at the candidate until it is locked. */
  ghost predicate FinalizesFrom(d: Device, request: Request, r: Report, end: Device) {
    && Acceptable(request) && Accounts(d, request, r, end) && Undisturbed(d, r) && FinalizeCarried(request, r)
    && r.body != [] && LeavesCandidate(r.opening) && LeavesCandidate(r.body[0].before)
  }

  lemma LockKeepsCandidate(sent: Sent, s: SessionId)
    requires SentOk(sent, s) && sent.rpc == Lock && sent.start.locked.None? && LeavesCandidate(sent.before)
    ensures sent.end.candidate == sent.start.candidate
  {
    hide Run;
    RunLeavesCandidate(sent.start, sent.before);
  }

  /** What it makes permanent is its edit of the candidate it finds, not of running. */
  lemma FinalizedCallBuildsOnCandidate(d: Device, request: Request, r: Report, end: Device)
    requires Inv(d) && d.locked.None? && FinalizesFrom(d, request, r, end)
    ensures Stable(end) == request.edit(d.candidate)
  {
    hide Chained, Plan, ConfirmTimeoutText, Run, Step, Apply, SentOk, NothingConfirms, FinalizeCarried;
    PlanShape(request);
    FinalizeDecides(d, request, r, end);
    RunLeavesCandidate(d, r.opening);
    var calls := Calls(r);
    assert calls[0] == r.body[0] && calls[..0] == [];
    ChainedPrefix(r.established, r.session, calls, end, 0);
    assert r.established == r.body[0].start by { ChainOfNone(r.established, r.session, r.body[0].start); }
    LockKeepsCandidate(r.body[0], r.session);
  }

  lemma ChainOfNone(d: Device, s: SessionId, end: Device)
    ensures Chained(d, s, [], end) ==> d == end
  {
  }

  /** Every finalized call from this device makes permanent just its own edit of running. */
  ghost predicate OnlyOwnEdits(d: Device) {
    forall request, r, end :: FinalizesFrom(d, request, r, end) ==> Stable(end) == request.edit(Stable(d))
  }

  /** That is so exactly when the candidate is what running has: anything else left on it goes in as well. */
  lemma OnlyOwnEditsIff(d: Device)
    requires Settled(d)
    ensures OnlyOwnEdits(d) <==> d.candidate == d.running
  {
    hide FinalizesFrom, Stable;
    assert Stable(d) == d.running by { StableWhenSettled(d); }
    forall request, r, end | FinalizesFrom(d, request, r, end) ensures Stable(end) == request.edit(d.candidate) {
      FinalizedCallBuildsOnCandidate(d, request, r, end);
    }
    if d.candidate != d.running {
      var request, r, end := NoEditAtAll(d);
      assert FinalizesFrom(d, request, r, end);
    }
  }

  lemma StableWhenSettled(d: Device)
    requires Settled(d)
    ensures Stable(d) == d.running
  {
  }

  /** A finalized call that edits nothing. */
  lemma NoEditAtAll(d: Device) returns (request: Request, r: Report, end: Device)
    requires Settled(d)
    ensures FinalizesFrom(d, request, r, end) && forall c: Config :: request.edit(c) == c
  {
    hide Accounts, Undisturbed, FinalizeCarried, AllReplied;
    var edit := (c: Config) => c;
    request := RequestFor(edit, true);
    r, end := CarriedFinalize(d, edit, Delivered);
  }

  /**
   Two calls in a row on a settled device, undisturbed and fully answered: the first, without finalize, is
   rolled back with its session; the second, with finalize, makes the first one's edit permanent too.
   */
  lemma RolledBackEditComesBack(d: Device, first: Config -> Config, second: Config -> Config)
    returns (r1: Report, between: Device, r2: Report, end: Device)
    requires Settled(d)
    ensures Acceptable(RequestFor(first, false)) && Accounts(d, RequestFor(first, false), r1, between)
    ensures AllReplied(RequestFor(first, false), r1) && Settled(between) && between.running == d.running
    ensures between.candidate == between.running <==> first(d.candidate) == d.running
    ensures Acceptable(RequestFor(second, true)) && Accounts(between, RequestFor(second, true), r2, end)
    ensures AllReplied(RequestFor(second, true), r2) && end.running == second(first(d.candidate)) && end.pending.None?
  {
    hide Accounts, Undisturbed, FinalizeCarried, AllReplied;
    r1, between := AnsweredWithoutFinalize(d, first);
    r2, end := CarriedFinalize(between, second, Delivered);
  }
}
