/**
 A NETCONF server with a candidate datastore and confirmed commits, as RFC 6241 describes it
 (sections 7.5, 7.6, 8.3.4, 8.3.5.2, 8.4.1 and 8.4.4.1): the device the client's transaction talks to.
 */
module NetconfDevice {
  import opened Basics

  type Config = map<string, string>
  type SessionId = nat
  type PersistId = string
  type Seconds = x: int | 1 <= x witness 1

  /** An unconfirmed commit: what to go back to, who sent it, its persist token and when it expires. */
  datatype Pending = Pending(rollback: Config, issuer: SessionId, persist: Option<PersistId>, deadline: nat)

  /**
   `dirty`: candidate has changes that were neither committed nor discarded.  `revertFirst`: which
   effect of a session's end comes first, which the standard leaves to the server.
   */
  datatype Device = Device(
    running: Config,
    candidate: Config,
    dirty: bool,
    locked: Option<SessionId>,
    pending: Option<Pending>,
    sessions: set<SessionId>,
    nextSession: SessionId,
    now: nat,
    revertFirst: bool)

  /** The operations the client sends.  An edit is whatever change its <config> makes to a datastore. */
  datatype Rpc =
    | Lock
    | EditConfig(edit: Config -> Config)
    | Validate
    | Commit(confirmTimeout: Option<Seconds>, persist: Option<PersistId>, persistId: Option<PersistId>)
    | Get
    | DiscardChanges
    | Unlock
    | CancelCommit(cancelId: Option<PersistId>)
    | CloseSession

  /** Section 8.4.1: without persist only the issuing session, with persist only the matching persist-id. */
  predicate Authorised(p: Pending, s: SessionId, persistId: Option<PersistId>) {
    match p.persist
    case None => persistId.None? && s == p.issuer
    case Some(token) => persistId == Some(token)
  }

  predicate LockedByOther(d: Device, s: SessionId) { d.locked.Some? && d.locked.value != s }

  function Revert(d: Device): Device {
    if d.pending.None? then d else d.(running := d.pending.value.rollback, pending := None)
  }

  /** Section 8.3.5.2: outstanding changes are discarded when the candidate lock goes. */
  function ReleaseLock(d: Device, s: SessionId): Device {
    if d.locked == Some(s) then d.(locked := None, candidate := d.running, dirty := false) else d
  }

  /** Section 8.4.1: the end of the issuing session reverts its commit unless that one persists. */
  function RevertOwn(d: Device, s: SessionId): Device {
    if d.pending.Some? && d.pending.value.issuer == s && d.pending.value.persist.None? then Revert(d) else d
  }

  function EndSession(d: Device, s: SessionId): Device {
    var ended := if d.revertFirst then ReleaseLock(RevertOwn(d, s), s) else RevertOwn(ReleaseLock(d, s), s);
    ended.(sessions := d.sessions - {s})
  }

  /** What an operation does when the device carries it out, or None when the device must refuse it. */
  function Apply(d: Device, s: SessionId, rpc: Rpc): Option<Device> {
    if s !in d.sessions then None
    else match rpc
      case Lock =>
        if d.locked.Some? || d.dirty then None else Some(d.(locked := Some(s)))
      case EditConfig(edit) =>
        if LockedByOther(d, s) then None else Some(d.(candidate := edit(d.candidate), dirty := true))
      case Validate => Some(d)
      case Get => Some(d)
      case Commit(confirmTimeout, persist, persistId) =>
        if LockedByOther(d, s) then None
        else if d.pending.None? && persistId.Some? then None
        else if d.pending.Some? && !Authorised(d.pending.value, s, persistId) then None
        else
          var pending := if confirmTimeout.None? then None
                         else Some(Pending(Stable(d), s, persist, d.now + confirmTimeout.value));
          Some(d.(running := d.candidate, dirty := false, pending := pending))
      case DiscardChanges =>
        if LockedByOther(d, s) then None else Some(d.(candidate := d.running, dirty := false))
      case Unlock =>
        if d.locked != Some(s) then None else Some(ReleaseLock(d, s))
      case CancelCommit(id) =>
        if d.pending.None? || !Authorised(d.pending.value, s, id) then None else Some(Revert(d))
      case CloseSession => Some(EndSession(d, s))
  }

  /** Everything that can happen to a device. */
  datatype Event =
    | Opened                                          // a session starts, with the next free id
    | Carried(session: SessionId, rpc: Rpc)           // an operation is carried out, replied to or not
    | Lost(session: SessionId)                        // a session dies: transport failure, kill-session
    | Tick(elapsed: nat)                              // time passes

  function Step(d: Device, e: Event): Device {
    match e
    case Opened => d.(sessions := d.sessions + {d.nextSession}, nextSession := d.nextSession + 1)
    case Carried(s, rpc) => if Apply(d, s, rpc).Some? then Apply(d, s, rpc).value else d
    case Lost(s) => if s in d.sessions then EndSession(d, s) else d
    case Tick(elapsed) =>
      var later := d.(now := d.now + elapsed);
      if later.pending.Some? && later.pending.value.deadline <= later.now then Revert(later) else later
  }

  function Run(d: Device, events: seq<Event>): Device
    decreases |events|
  {
    if events == [] then d else Step(Run(d, events[..|events| - 1]), events[|events| - 1])
  }

  /** The configuration that running has, or goes back to unless somebody confirms. */
  function Stable(d: Device): Config {
    if d.pending.Some? then d.pending.value.rollback else d.running
  }

  ghost predicate Inv(d: Device) {
    && (forall s <- d.sessions :: s < d.nextSession)
    && (d.locked.Some? ==> d.locked.value in d.sessions)
    && (d.pending.Some? ==>
          && d.now < d.pending.value.deadline
          && d.pending.value.issuer < d.nextSession
          && (d.pending.value.persist.None? ==> d.pending.value.issuer in d.sessions))
  }

  /** The event is a commit without <confirmed> that the device carries out. */
  predicate Confirms(d: Device, e: Event) {
    && e.Carried? && e.rpc.Commit? && e.rpc.confirmTimeout.None?
    && Apply(d, e.session, e.rpc).Some?
  }

  predicate ConfirmsAt(d: Device, events: seq<Event>, k: int) {
    0 <= k < |events| && Confirms(Run(d, events[..k]), events[k])
  }

  ghost predicate NothingConfirms(d: Device, events: seq<Event>) {
    forall k :: !ConfirmsAt(d, events, k)
  }

  // ---- One step ----

  lemma StepKeepsInv(d: Device, e: Event)
    requires Inv(d)
    ensures Inv(Step(d, e))
  {
    hide EndSession, Apply;
    match e
    case Opened =>
    case Carried(s, rpc) => if Apply(d, s, rpc).Some? { ApplyKeepsInv(d, s, rpc); }
    case Lost(s) => if s in d.sessions { EndSessionKeepsInv(d, s); }
    case Tick(_) =>
  }

  lemma ApplyKeepsInv(d: Device, s: SessionId, rpc: Rpc)
    requires Inv(d) && Apply(d, s, rpc).Some?
    ensures Inv(Apply(d, s, rpc).value)
  {
    hide EndSession;
    if rpc.CloseSession? { EndSessionKeepsInv(d, s); }
  }

  /** A session's end leaves it neither the candidate lock nor a pending commit without persist. */
  lemma EndSessionKeepsInv(d: Device, s: SessionId)
    requires Inv(d)
    ensures var ended := EndSession(d, s);
            && Inv(ended) && s !in ended.sessions && ended.locked != Some(s)
            && Stable(ended) == Stable(d)
  {
  }

  /** No single event but a carried-out confirming commit moves the stable configuration. */
  lemma StepKeepsStable(d: Device, e: Event)
    requires Inv(d)
    ensures Stable(Step(d, e)) == if Confirms(d, e) then d.candidate else Stable(d)
  {
    hide EndSession;
    if (e.Lost? && e.session in d.sessions) || (e.Carried? && e.rpc.CloseSession? && e.session in d.sessions) {
      EndSessionKeepsInv(d, e.session);
    }
  }

  lemma EndSessionCounters(d: Device, s: SessionId)
    ensures var ended := EndSession(d, s);
            ended.now == d.now && ended.nextSession == d.nextSession && (ended.pending.None? || ended.pending == d.pending)
  {
  }

  /** After one operation the pending commit is gone, the same, or the one that operation starts. */
  lemma ApplyPending(d: Device, s: SessionId, rpc: Rpc)
    requires Apply(d, s, rpc).Some?
    ensures var after := Apply(d, s, rpc).value;
            && after.now == d.now && after.nextSession == d.nextSession
            && (|| after.pending.None? || after.pending == d.pending
                || (rpc.Commit? && rpc.confirmTimeout.Some?
                    && after.pending == Some(Pending(Stable(d), s, rpc.persist, d.now + rpc.confirmTimeout.value))))
  {
    hide EndSession, Stable;
    EndSessionCounters(d, s);
  }

  lemma StepPending(d: Device, e: Event)
    ensures var after := Step(d, e);
            || after.pending.None? || after.pending == d.pending
            || (e.Carried? && e.rpc.Commit? && e.rpc.confirmTimeout.Some?
                && after.pending == Some(Pending(Stable(d), e.session, e.rpc.persist, d.now + e.rpc.confirmTimeout.value)))
  {
    hide Apply, EndSession, Stable;
    match e
    case Opened =>
    case Carried(s, rpc) => if Apply(d, s, rpc).Some? { ApplyPending(d, s, rpc); }
    case Lost(s) => EndSessionCounters(d, s);
    case Tick(_) =>
  }

  lemma StepOnlyGrows(d: Device, e: Event)
    ensures d.nextSession <= Step(d, e).nextSession && d.now <= Step(d, e).now
  {
    hide Apply, EndSession;
    match e
    case Opened =>
    case Carried(s, rpc) => if Apply(d, s, rpc).Some? { ApplyPending(d, s, rpc); }
    case Lost(s) => EndSessionCounters(d, s);
    case Tick(_) =>
  }

  lemma {:induction false} RunOnlyGrows(d: Device, events: seq<Event>)
    ensures d.nextSession <= Run(d, events).nextSession && d.now <= Run(d, events).now
    decreases |events|
  {
    hide Step;
    if events != [] {
      RunOnlyGrows(d, events[..|events| - 1]);
      StepOnlyGrows(Run(d, events[..|events| - 1]), events[|events| - 1]);
    }
  }

  /**
   Who may confirm: nobody else holds the candidate, and a pending commit is the session's own or, when it
   persists, the one whose token is given.
   */
  lemma ConfirmingIsAuthorised(d: Device, e: Event)
    ensures Confirms(d, e) <==>
            && e.Carried? && e.rpc.Commit? && e.rpc.confirmTimeout.None?
            && e.session in d.sessions && (d.locked.None? || d.locked == Some(e.session))
            && MayFollow(d, e.session, e.rpc.persistId) && (d.pending.None? ==> e.rpc.persistId.None?)
    ensures Confirms(d, e) ==> Step(d, e).pending.None? && Step(d, e).running == d.candidate
  {
  }

  /** Without persist only the session that sent the pending commit, with persist only who has the token. */
  ghost predicate MayFollow(d: Device, s: SessionId, token: Option<PersistId>) {
    d.pending.Some? ==>
      token == d.pending.value.persist && (d.pending.value.persist.None? ==> d.pending.value.issuer == s)
  }

  /** What a device carries out, requirement by requirement; anything else it refuses. */
  lemma CarriedOutIff(d: Device, s: SessionId, rpc: Rpc)
    ensures Apply(d, s, rpc).Some? <==>
            && s in d.sessions
            && (rpc.Lock? ==> d.locked.None? && !d.dirty)
            && (rpc.EditConfig? || rpc.Commit? || rpc.DiscardChanges? ==> d.locked.None? || d.locked == Some(s))
            && (rpc.Unlock? ==> d.locked == Some(s))
            && (rpc.CancelCommit? ==> d.pending.Some? && MayFollow(d, s, rpc.cancelId))
            && (rpc.Commit? ==> MayFollow(d, s, rpc.persistId) && (d.pending.None? ==> rpc.persistId.None?))
  {
  }

  /** A session's end reverts its own commit that does not persist, and no other, and gives up its lock. */
  lemma EndSessionTerms(d: Device, s: SessionId)
    ensures var end := EndSession(d, s);
            var own := d.pending.Some? && d.pending.value.issuer == s && d.pending.value.persist.None?;
            && end.sessions == d.sessions - {s} && end.nextSession == d.nextSession && end.now == d.now
            && (own ==> end.pending.None? && end.running == d.pending.value.rollback)
            && (!own ==> end.pending == d.pending && end.running == d.running)
            && (d.locked != Some(s) ==> end.locked == d.locked && end.candidate == d.candidate && end.dirty == d.dirty)
            && (d.locked == Some(s) ==> end.locked.None? && !end.dirty && end.candidate in {d.running, end.running})
  {
  }

  /** A pending commit is reverted by the clock exactly from its deadline on. */
  lemma ExpiryTerms(d: Device, elapsed: nat)
    ensures var later := Step(d, Tick(elapsed));
            && later.now == d.now + elapsed && later.candidate == d.candidate && later.locked == d.locked
            && (d.pending.Some? && d.pending.value.deadline <= d.now + elapsed ==>
                  later.pending.None? && later.running == d.pending.value.rollback)
            && (d.pending.None? || d.pending.value.deadline > d.now + elapsed ==>
                  later.pending == d.pending && later.running == d.running)
  {
  }

  // ---- Whole runs ----

  lemma {:induction false} RunConcat(d: Device, a: seq<Event>, b: seq<Event>)
    ensures Run(d, a + b) == Run(Run(d, a), b)
    decreases |b|
  {
    hide Step;
    if b == [] {
      assert a + b == a;
    } else {
      RunConcat(d, a, b[..|b| - 1]);
      assert (a + b)[..|a + b| - 1] == a + b[..|b| - 1];
    }
  }

  lemma {:induction false} RunKeepsInv(d: Device, events: seq<Event>)
    requires Inv(d)
    ensures Inv(Run(d, events))
    decreases |events|
  {
    if events != [] {
      var before := events[..|events| - 1];
      RunKeepsInv(d, before);
      StepKeepsInv(Run(d, before), events[|events| - 1]);
    }
  }

  lemma ConfirmsAtPrefix(d: Device, events: seq<Event>, k: int)
    requires events != [] && k < |events| - 1
    ensures ConfirmsAt(d, events, k) <==> ConfirmsAt(d, events[..|events| - 1], k)
  {
    if 0 <= k { assert events[..|events| - 1][..k] == events[..k]; }
  }

  /** The candidate at the last confirming commit of a run, or the stable configuration it began with. */
  function LastConfirmed(d: Device, events: seq<Event>): Config
    decreases |events|
  {
    if events == [] then Stable(d)
    else
      var before := events[..|events| - 1];
      if Confirms(Run(d, before), events[|events| - 1]) then Run(d, before).candidate else LastConfirmed(d, before)
  }

  /**
   Section 8.4 over every run of every client, every loss and every passing of time: what running
   has once nothing is pending is the candidate of the last confirming commit carried out, else
   what it had at the start.
   */
  lemma {:induction false} RunningFollowsConfirmations(d: Device, events: seq<Event>)
    requires Inv(d)
    ensures Stable(Run(d, events)) == LastConfirmed(d, events)
    ensures Run(d, events).pending.None? ==> Run(d, events).running == LastConfirmed(d, events)
    decreases |events|
  {
    if events != [] {
      var before := events[..|events| - 1];
      RunningFollowsConfirmations(d, before);
      RunKeepsInv(d, before);
      StepKeepsStable(Run(d, before), events[|events| - 1]);
    }
  }

  /** A permanent change of running has a confirming commit to answer for it. */
  lemma {:induction false} NoConfirmationNoChange(d: Device, events: seq<Event>)
    requires NothingConfirms(d, events)
    ensures LastConfirmed(d, events) == Stable(d)
    decreases |events|
  {
    if events != [] {
      var before := events[..|events| - 1];
      assert !ConfirmsAt(d, events, |events| - 1);
      forall k ensures !ConfirmsAt(d, before, k) {
        assert !ConfirmsAt(d, events, k);
        if k < |before| { ConfirmsAtPrefix(d, events, k); }
      }
      NoConfirmationNoChange(d, before);
    }
  }
}
