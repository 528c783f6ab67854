/** Whole calls from any settled device, step by step: runs that show what the transaction cannot promise. */
module NetconfRuns {
  import opened Basics
  import opened NetconfDevice
  import opened NetconfClient
  import opened NetconfSafety

  /** Nothing pending, nothing locked, nothing outstanding. */
  ghost predicate Settled(d: Device) { Inv(d) && d.pending.None? && d.locked.None? && !d.dirty }

  function RequestFor(edit: Config -> Config, finalize: bool): Request { Request(edit, false, 30.0, finalize, None) }

  // ---- The stages of a call that nobody disturbs ----

  function AtOpen(d: Device): Device { Step(d, Opened) }

  function AtLock(d: Device): Device { AtOpen(d).(locked := Some(d.nextSession)) }

  function AtEdit(d: Device, edit: Config -> Config): Device { AtLock(d).(candidate := edit(d.candidate), dirty := true) }

  function AtCommit(d: Device, edit: Config -> Config): Device {
    AtLock(d).(candidate := edit(d.candidate), running := edit(d.candidate),
               pending := Some(Pending(d.running, d.nextSession, None, d.now + 30)))
  }

  function AtFinalize(d: Device, edit: Config -> Config): Device { AtCommit(d, edit).(pending := None) }

  lemma LockStage(d: Device)
    requires Settled(d)
    ensures Apply(AtOpen(d), d.nextSession, Lock) == Some(AtLock(d))
  {
  }

  lemma EditStages(d: Device, edit: Config -> Config)
    requires Settled(d)
    ensures Apply(AtLock(d), d.nextSession, EditConfig(edit)) == Some(AtEdit(d, edit))
    ensures Apply(AtEdit(d, edit), d.nextSession, Validate) == Some(AtEdit(d, edit))
  {
  }

  lemma CommitStage(d: Device, edit: Config -> Config)
    requires Settled(d)
    ensures Apply(AtEdit(d, edit), d.nextSession, Commit(Some(30), None, None)) == Some(AtCommit(d, edit))
  {
  }

  lemma FinalizeStage(d: Device, edit: Config -> Config)
    requires Settled(d)
    ensures Apply(AtCommit(d, edit), d.nextSession, Commit(None, None, None)) == Some(AtFinalize(d, edit))
  {
  }

  /** Unlock and close-session, from a device whose candidate and running are alike. */
  function AtUnlock(at: Device): Device { at.(locked := None) }

  lemma UnlockStage(at: Device, s: SessionId)
    requires s in at.sessions && at.locked == Some(s) && at.candidate == at.running && !at.dirty
    ensures Apply(at, s, Unlock) == Some(AtUnlock(at))
  {
  }

  lemma CloseStage(at: Device, s: SessionId)
    requires s in at.sessions && at.locked.None?
    ensures Apply(at, s, CloseSession) == Some(RevertOwn(at, s).(sessions := at.sessions - {s}))
  {
  }

  // ---- Records ----

  lemma SentAs(start: Device, s: SessionId, rpc: Rpc, outcome: Outcome, end: Device) returns (c: Sent)
    requires Apply(start, s, rpc) == Some(end) && outcome != Refused
    ensures c == Sent(start, [], rpc, outcome, outcome == Delivered, end) && SentOk(c, s)
  {
    hide Apply;
    c := Sent(start, [], rpc, outcome, outcome == Delivered, end);
  }

  lemma ChainedSnoc(d: Device, s: SessionId, calls: seq<Sent>, end: Device, c: Sent)
    requires Chained(d, s, calls, end) && SentOk(c, s) && c.start == end
    ensures Chained(d, s, calls + [c], c.end)
  {
    hide SentOk;
    assert (calls + [c])[..|calls|] == calls;
  }

  /** The record of the first four operations, all answered. */
  lemma FourAnswered(d: Device, edit: Config -> Config) returns (body: seq<Sent>)
    requires Settled(d)
    ensures |body| == 4 && Chained(AtOpen(d), d.nextSession, body, AtCommit(d, edit))
    ensures body[0].rpc == Lock && body[1].rpc == EditConfig(edit) && body[2].rpc == Validate
    ensures body[3].rpc == Commit(Some(30), None, None) && body[0].end == AtLock(d)
    ensures forall i :: 0 <= i < 4 ==> body[i].replied && body[i].before == []
  {
    LockStage(d);
    EditStages(d, edit);
    CommitStage(d, edit);
    hide Apply, Step, SentOk, AtOpen, AtLock, AtEdit, AtCommit;
    var s := d.nextSession;
    var c1 := SentAs(AtOpen(d), s, Lock, Delivered, AtLock(d));
    var c2 := SentAs(AtLock(d), s, EditConfig(edit), Delivered, AtEdit(d, edit));
    var c3 := SentAs(AtEdit(d, edit), s, Validate, Delivered, AtEdit(d, edit));
    var c4 := SentAs(AtEdit(d, edit), s, Commit(Some(30), None, None), Delivered, AtCommit(d, edit));
    ChainedSnoc(AtOpen(d), s, [], AtOpen(d), c1);
    ChainedSnoc(AtOpen(d), s, [] + [c1], c1.end, c2);
    ChainedSnoc(AtOpen(d), s, [] + [c1] + [c2], c2.end, c3);
    ChainedSnoc(AtOpen(d), s, [] + [c1] + [c2] + [c3], c3.end, c4);
    body := [] + [c1] + [c2] + [c3] + [c4];
  }

  /** ... and after a body, unlock and close-session. */
  lemma ClosedAfter(d: Device, s: SessionId, body: seq<Sent>, at: Device) returns (unlock: Sent, closing: Sent)
    requires Chained(d, s, body, at)
    requires s in at.sessions && at.locked == Some(s) && at.candidate == at.running && !at.dirty
    ensures unlock.rpc == Unlock && unlock.before == [] && unlock.replied
    ensures closing.rpc == CloseSession && closing.before == []
    ensures Chained(d, s, body + [unlock] + [closing], closing.end)
    ensures closing.end == RevertOwn(AtUnlock(at), s).(sessions := at.sessions - {s})
  {
    UnlockStage(at, s);
    CloseStage(AtUnlock(at), s);
    hide Apply, Step, SentOk, RevertOwn;
    unlock := SentAs(at, s, Unlock, Delivered, AtUnlock(at));
    closing := SentAs(AtUnlock(at), s, CloseSession, Delivered, RevertOwn(AtUnlock(at), s).(sessions := at.sessions - {s}));
    ChainedSnoc(d, s, body, at, unlock);
    ChainedSnoc(d, s, body + [unlock], unlock.end, closing);
  }

  lemma RunOfOne(d: Device)
    ensures Run(d, [Opened]) == AtOpen(d) && Run(d, [Opened][..0]) == d
    ensures NothingConfirms(d, [Opened]) && forall start :: NothingConfirms(start, [])
  {
    assert [Opened][..0] == [];
  }

  lemma PlanFor(edit: Config -> Config, finalize: bool)
    ensures var request := RequestFor(edit, finalize);
            && Acceptable(request)
            && Plan(request) == [Lock, EditConfig(edit), Validate, Commit(Some(30), None, None)]
                                + if finalize then [Commit(None, None, None)] else []
  {
    assert 30.0 == 30.0.Floor as real && 30.0.Floor == 30;
  }

  /** Where unlock finds the two kinds of call, and where close-session leaves them. */
  lemma EndsOfCalls(d: Device, edit: Config -> Config)
    requires Settled(d)
    ensures var s, at := d.nextSession, AtCommit(d, edit);
            && s in at.sessions && at.locked == Some(s) && at.candidate == at.running && !at.dirty
            && RevertOwn(AtUnlock(at), s).(sessions := at.sessions - {s})
               == d.(candidate := edit(d.candidate), nextSession := s + 1)
    ensures var s, at := d.nextSession, AtFinalize(d, edit);
            && s in at.sessions && at.locked == Some(s) && at.candidate == at.running && !at.dirty
            && RevertOwn(AtUnlock(at), s).(sessions := at.sessions - {s})
               == d.(candidate := edit(d.candidate), running := edit(d.candidate), nextSession := s + 1)
  {
    assert d.sessions + {d.nextSession} - {d.nextSession} == d.sessions;
  }

  /** A call without finalize from any settled device, undisturbed and fully answered, and what it leaves. */
  lemma AnsweredWithoutFinalize(d: Device, edit: Config -> Config) returns (r: Report, end: Device)
    requires Settled(d)
    ensures var request := RequestFor(edit, false);
            Acceptable(request) && Accounts(d, request, r, end) && Undisturbed(d, r) && AllReplied(request, r)
    ensures end == d.(candidate := edit(d.candidate), nextSession := d.nextSession + 1)
  {
    var s := d.nextSession;
    PlanFor(edit, false);
    RunOfOne(d);
    var body := FourAnswered(d, edit);
    EndsOfCalls(d, edit);
    var unlock, closing := ClosedAfter(AtOpen(d), s, body, AtCommit(d, edit));
    end := closing.end;
    r := Report([Opened], s, AtOpen(d), body, [unlock], closing);
    hide RevertOwn, AtUnlock, Run, Step, Apply, Chained, NothingConfirms, Plan, AtOpen, AtCommit, AtLock, ConfirmTimeoutText;
    assert Calls(r) == body + [unlock] + [closing];
  }

  /** The record of the first four operations and a confirming commit that is carried out. */
  lemma FiveCarried(d: Device, edit: Config -> Config, outcome: Outcome) returns (body: seq<Sent>)
    requires Settled(d) && outcome != Refused
    ensures |body| == 5 && Chained(AtOpen(d), d.nextSession, body, AtFinalize(d, edit))
    ensures body[0].rpc == Lock && body[1].rpc == EditConfig(edit) && body[2].rpc == Validate
    ensures body[3].rpc == Commit(Some(30), None, None) && body[4].rpc == Commit(None, None, None)
    ensures (forall i :: 0 <= i < 5 ==> body[i].before == []) && forall i :: 0 <= i < 4 ==> body[i].replied
    ensures body[4].outcome == outcome && (body[4].replied <==> outcome == Delivered)
    ensures Apply(Arrival(body[4]), d.nextSession, Commit(None, None, None)).Some?
  {
    FinalizeStage(d, edit);
    hide Step, Apply, AtOpen, AtCommit, AtLock, AtFinalize, SentOk, Chained;
    var four := FourAnswered(d, edit);
    var last := SentAs(AtCommit(d, edit), d.nextSession, Commit(None, None, None), outcome, AtFinalize(d, edit));
    assert Arrival(last) == AtCommit(d, edit);
    ChainedSnoc(AtOpen(d), d.nextSession, four, AtCommit(d, edit), last);
    body := four + [last];
  }

  /** One with finalize, whose confirming commit is carried out; `outcome` says whether its reply arrives. */
  lemma CarriedFinalize(d: Device, edit: Config -> Config, outcome: Outcome) returns (r: Report, end: Device)
    requires Settled(d) && outcome != Refused
    ensures var request := RequestFor(edit, true);
            && Acceptable(request) && Accounts(d, request, r, end) && Undisturbed(d, r)
            && FinalizeCarried(request, r) && (AllReplied(request, r) <==> outcome == Delivered)
    ensures r.opening == [Opened] && r.body != [] && r.body[0].before == []
    ensures end == d.(candidate := edit(d.candidate), running := edit(d.candidate), nextSession := d.nextSession + 1)
  {
    var s := d.nextSession;
    PlanFor(edit, true);
    RunOfOne(d);
    EndsOfCalls(d, edit);
    hide Step, Apply, AtOpen, AtCommit, AtLock, AtFinalize, AtUnlock, RevertOwn, SentOk, Chained, Stable,
         Run, NothingConfirms, Plan, ConfirmTimeoutText, Settled;
    var body := FiveCarried(d, edit, outcome);
    var unlock, closing := ClosedAfter(AtOpen(d), s, body, AtFinalize(d, edit));
    end := closing.end;
    r := Report([Opened], s, AtOpen(d), body, [unlock], closing);
    assert Calls(r) == body + [unlock] + [closing];
  }

  /**
   The reply of the confirming commit is lost: from any settled device and for any edit that changes
   something, the caller gets an error, yet the edit is there for good.  So an error from a call with
   finalize says nothing about running; FinalizeDecides says what does.
   */
  lemma ErrorAfterFinalizeCanBePermanent(d: Device, edit: Config -> Config) returns (r: Report, end: Device)
    requires Settled(d) && edit(d.candidate) != d.running
    ensures var request := RequestFor(edit, true);
            && Acceptable(request) && Accounts(d, request, r, end) && Undisturbed(d, r) && !AllReplied(request, r)
            && Stable(end) == edit(d.candidate) != Stable(d)
  {
    hide Accounts, Undisturbed, FinalizeCarried;
    r, end := CarriedFinalize(d, edit, ReplyLost);
  }
}
