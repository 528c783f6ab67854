/**
 The confirmed-commit transaction of the NETCONF client and the two operations that settle a
 persisted commit later.  Every operation sent can be carried out and answered, be refused without
 effect, or be carried out with its reply lost; between any two of them the other sessions of the
 device act and time passes.
 */
module NetconfClient {
  import opened Basics
  import opened Text
  import opened NetconfDevice

  // ---- Capabilities ----

  const CANDIDATE := "urn:ietf:params:netconf:capability:candidate:1.0"
  const CONFIRMED_COMMIT_1_0 := "urn:ietf:params:netconf:capability:confirmed-commit:1.0"
  const CONFIRMED_COMMIT_1_1 := "urn:ietf:params:netconf:capability:confirmed-commit:1.1"

  datatype Requirement = Requirement(name: string, uris: seq<string>)

  const REQUIRED_MUTATION_CAPABILITIES: seq<Requirement> :=
    [Requirement(":candidate", [CANDIDATE]),
     Requirement(":confirmed-commit", [CONFIRMED_COMMIT_1_0, CONFIRMED_COMMIT_1_1])]

  const REQUIRED_PERSIST_CAPABILITIES: seq<Requirement> :=
    [Requirement(":candidate", [CANDIDATE]), Requirement(":confirmed-commit:1.1", [CONFIRMED_COMMIT_1_1])]

  function BeforeQuery(uri: string): string {
    if uri == [] || uri[0] == '?' then [] else [uri[0]] + BeforeQuery(uri[1..])
  }

  predicate Advertises(capabilities: seq<string>, uri: string) {
    exists c <- capabilities :: Strip(BeforeQuery(c)) == uri
  }

  /** The capability is the URI, white space around it, and perhaps a query after a question mark. */
  ghost predicate Spells(capability: string, uri: string) {
    exists left, right, query :: SpelledAs(capability, uri, left, right, query)
  }

  predicate SpelledAs(capability: string, uri: string, left: string, right: string, query: string) {
    capability == left + uri + right + query && AllSpace(left) && AllSpace(right) && (query == [] || query[0] == '?')
  }

  lemma {:induction false} BeforeQueryOf(core: string, query: string)
    requires '?' !in core && (query == [] || query[0] == '?')
    ensures BeforeQuery(core + query) == core
    decreases |core|
  {
    if core == [] {
      assert core + query == query;
    } else {
      assert (core + query)[0] == core[0] && core[0] in core;
      assert (core + query)[1..] == core[1..] + query;
      BeforeQueryOf(core[1..], query);
      assert [core[0]] + core[1..] == core;
    }
  }

  lemma {:induction false} QueryIsCut(text: string) returns (query: string)
    ensures text == BeforeQuery(text) + query && '?' !in BeforeQuery(text) && (query == [] || query[0] == '?')
  {
    if text == [] || text[0] == '?' {
      query := text;
    } else {
      var rest := text[1..];
      query := QueryIsCut(rest);
      var before := BeforeQuery(rest);
      assert BeforeQuery(text) == [text[0]] + before;
      hide BeforeQuery;
      assert text == [text[0]] + rest == [text[0]] + before + query;
    }
  }

  lemma SpaceIsNoMark(s: string)
    requires AllSpace(s)
    ensures '?' !in s
  {
  }

  /** Advertised is what some capability spells: queries and white space do not matter. */
  lemma AdvertisesIff(capabilities: seq<string>, uri: string)
    requires Trimmed(uri) && '?' !in uri
    ensures Advertises(capabilities, uri) <==> exists c <- capabilities :: Spells(c, uri)
  {
    forall c <- capabilities ensures Strip(BeforeQuery(c)) == uri <==> Spells(c, uri) { SpellsIff(c, uri); }
  }

  lemma SpellsIff(c: string, uri: string)
    requires Trimmed(uri) && '?' !in uri
    ensures Strip(BeforeQuery(c)) == uri <==> Spells(c, uri)
  {
    hide Strip, IsSpace, Trimmed, BeforeQuery, AllSpace;
    if Strip(BeforeQuery(c)) == uri {
      var query := QueryIsCut(c);
      var left, right := StripPads(BeforeQuery(c));
      assert SpelledAs(c, uri, left, right, query);
    }
    if Spells(c, uri) {
      var left, right, query :| SpelledAs(c, uri, left, right, query);
      SpelledIsFound(left, uri, right, query);
    }
  }

  lemma SpelledIsFound(left: string, uri: string, right: string, query: string)
    requires Trimmed(uri) && '?' !in uri && AllSpace(left) && AllSpace(right) && (query == [] || query[0] == '?')
    ensures Strip(BeforeQuery(left + uri + right + query)) == uri
  {
    SpaceIsNoMark(left);
    SpaceIsNoMark(right);
    hide Strip, IsSpace, Trimmed, BeforeQuery, AllSpace;
    BeforeQueryOf(left + uri + right, query);
    StripOfPadded(left, uri, right);
  }

  predicate Met(capabilities: seq<string>, r: Requirement) {
    exists uri <- r.uris :: Advertises(capabilities, uri)
  }

  function MissingCapabilities(capabilities: seq<string>, required: seq<Requirement>): seq<string> {
    if required == [] then []
    else
      (if Met(capabilities, required[0]) then [] else [required[0].name])
      + MissingCapabilities(capabilities, required[1..])
  }

  /** Nothing is missing exactly when each requirement has one of its URIs advertised. */
  lemma {:induction false} NothingMissingIff(capabilities: seq<string>, required: seq<Requirement>)
    ensures MissingCapabilities(capabilities, required) == [] <==>
            forall r <- required :: Met(capabilities, r)
  {
    hide Met;
    if required != [] {
      NothingMissingIff(capabilities, required[1..]);
      assert required == [required[0]] + required[1..];
    }
  }

  // ---- Arguments and results ----

  datatype Request = Request(
    edit: Config -> Config,
    verify: bool,
    confirmTimeout: real,
    finalize: bool,
    persist: Option<PersistId>)

  datatype MutationResult = MutationResult(
    steps: seq<string>,
    finalized: bool,
    confirmTimeout: real,
    persist: Option<PersistId>)

  datatype Error =
    | InvalidTimeout
    | InvalidPersistId
    | NoSession
    | MissingCapability(names: seq<string>)
    | StepFailed(step: string)

  /** The <confirm-timeout> text: a whole number of seconds, at least one; anything else is refused. */
  function ConfirmTimeoutText(timeout: real): (text: Option<string>)
    ensures text.Some? <==> timeout >= 1.0 && timeout == timeout.Floor as real
    ensures text.Some? ==> (forall c <- text.value :: IsDigit(c)) && DecimalValue(text.value) as real == timeout
  {
    if timeout < 1.0 then None
    else if timeout != timeout.Floor as real then None
    else
      DecimalRoundTrip(timeout.Floor);
      Some(Decimal(timeout.Floor))
  }

  predicate Acceptable(request: Request) {
    ConfirmTimeoutText(request.confirmTimeout).Some? && (request.persist.Some? ==> !Blank(request.persist.value))
  }

  /** What the call sets out to send, in order. */
  function Plan(request: Request): seq<Rpc>
    requires Acceptable(request)
  {
    [Lock, EditConfig(request.edit), Validate, Commit(Some(request.confirmTimeout.Floor), request.persist, None)]
    + (if request.verify then [Get] else [])
    + (if request.finalize then [Commit(None, None, request.persist)] else [])
  }

  function PlanNames(request: Request): seq<string> {
    ["lock", "edit-config", "validate", "commit"]
    + (if request.verify then ["verify"] else [])
    + (if request.finalize then ["finalize"] else [])
  }

  // ---- The record of a call ----

  datatype Outcome = Delivered | Refused | ReplyLost

  /** One operation sent: what happened before it arrived, how it ended, and the device around it. */
  datatype Sent = Sent(start: Device, before: seq<Event>, rpc: Rpc, outcome: Outcome, replied: bool, end: Device)

  /** The session belongs to this client: nobody else sends on it. */
  predicate Others(events: seq<Event>, s: SessionId) {
    forall i :: 0 <= i < |events| ==> events[i].Carried? ==> events[i].session != s
  }

  function Arrival(c: Sent): Device { Run(c.start, c.before) }

  function SentEvents(c: Sent, s: SessionId): seq<Event> {
    c.before + if c.outcome == Refused then [] else [Carried(s, c.rpc)]
  }

  predicate SentOk(c: Sent, s: SessionId) {
    && Others(c.before, s)
    && c.end == (if c.outcome == Refused then Arrival(c) else Step(Arrival(c), Carried(s, c.rpc)))
    && c.replied == (c.outcome == Delivered && Apply(Arrival(c), s, c.rpc).Some?)
  }

  ghost predicate Chained(d: Device, s: SessionId, calls: seq<Sent>, end: Device)
    decreases |calls|
  {
    if calls == [] then end == d
    else
      var last := calls[|calls| - 1];
      SentOk(last, s) && last.end == end && Chained(d, s, calls[..|calls| - 1], last.start)
  }

  function History(s: SessionId, calls: seq<Sent>): seq<Event>
    decreases |calls|
  {
    if calls == [] then [] else History(s, calls[..|calls| - 1]) + SentEvents(calls[|calls| - 1], s)
  }

  /** A call's part of the run is a run of the device. */
  lemma {:induction false} ChainIsRun(d: Device, s: SessionId, calls: seq<Sent>, end: Device)
    requires Chained(d, s, calls, end)
    ensures end == Run(d, History(s, calls))
    decreases |calls|
  {
    if calls != [] {
      var last, front := calls[|calls| - 1], calls[..|calls| - 1];
      ChainIsRun(d, s, front, last.start);
      SentIsRun(last, s);
      RunConcat(d, History(s, front), SentEvents(last, s));
    }
  }

  lemma SentIsRun(c: Sent, s: SessionId)
    requires SentOk(c, s)
    ensures c.end == Run(c.start, SentEvents(c, s))
  {
    if c.outcome == Refused {
      assert SentEvents(c, s) == c.before;
    } else {
      var e := Carried(s, c.rpc);
      assert SentEvents(c, s)[..|c.before|] == c.before;
    }
  }

  /** The operations of the plan sent so far: in order, each answered before the next goes out. */
  ghost predicate BodySoFar(plan: seq<Rpc>, body: seq<Sent>) {
    && |body| <= |plan|
    && (forall i :: 0 <= i < |body| ==> body[i].rpc == plan[i])
    && (forall i :: 0 <= i < |body| - 1 ==> body[i].replied)
  }

  predicate LastReplied(body: seq<Sent>) { body == [] || body[|body| - 1].replied }

  /** ... and the plan is left only at its end or at its first failure. */
  ghost predicate BodyOk(plan: seq<Rpc>, body: seq<Sent>) {
    BodySoFar(plan, body) && (body != [] && LastReplied(body) ==> |body| == |plan|)
  }

  /** The commit reply arrived. */
  predicate Committed(body: seq<Sent>) { |body| >= 4 && body[3].replied }

  /** The cleanup owed: none without a lock reply; discard-changes first unless the commit reply arrived. */
  function CleanupPlan(body: seq<Sent>): seq<Rpc> {
    if body == [] || !body[0].replied then []
    else if Committed(body) then [Unlock]
    else [DiscardChanges, Unlock]
  }

  ghost predicate Sends(calls: seq<Sent>, rpcs: seq<Rpc>) {
    |calls| == |rpcs| && forall i :: 0 <= i < |calls| ==> calls[i].rpc == rpcs[i]
  }

  /** The whole of one call: before its session opened, the plan sent, the cleanup, close-session. */
  datatype Report = Report(
    opening: seq<Event>,
    session: SessionId,
    established: Device,
    body: seq<Sent>,
    cleanup: seq<Sent>,
    closing: Sent)

  function Calls(r: Report): seq<Sent> { r.body + r.cleanup + [r.closing] }

  function ReportEvents(r: Report): seq<Event> { r.opening + History(r.session, Calls(r)) }

  /** `r` accounts for the device going from `d` to `end` in one call made for `request`. */
  ghost predicate Accounts(d: Device, request: Request, r: Report, end: Device)
    requires Acceptable(request)
  {
    && r.opening != [] && r.opening[|r.opening| - 1] == Opened
    && r.established == Run(d, r.opening)
    && r.session == Run(d, r.opening[..|r.opening| - 1]).nextSession
    && Chained(r.established, r.session, Calls(r), end)
    && BodyOk(Plan(request), r.body)
    && Sends(r.cleanup, CleanupPlan(r.body))
    && r.closing.rpc == CloseSession
  }

  predicate AllReplied(request: Request, r: Report)
    requires Acceptable(request)
  {
    r.body != [] && LastReplied(r.body)
  }

  // ---- The call as the source makes it ----

  /** What the environment does around the next thing the client sends. */
  datatype Turn = Turn(before: seq<Event>, outcome: Outcome)

  /** With nothing planned nobody acts and the client is answered. */
  function FirstTurn(turns: seq<Turn>): Turn { if turns == [] then Turn([], Delivered) else turns[0] }

  /** What an attempt to open a session comes to on the device. */
  function Opening(turn: Turn): seq<Event> { turn.before + if turn.outcome == Refused then [] else [Opened] }

  class Server {
    var device: Device
    var turns: seq<Turn>
    const capabilities: seq<string>

    constructor (device: Device, turns: seq<Turn>, capabilities: seq<string>)
      ensures this.device == device && this.turns == turns && this.capabilities == capabilities
    {
      this.device, this.turns, this.capabilities := device, turns, capabilities;
    }

    method NextTurn() returns (turn: Turn)
      modifies this`turns
      ensures turn == FirstTurn(old(turns)) && turns == if old(turns) == [] then [] else old(turns)[1..]
    {
      turn := FirstTurn(turns);
      if turns != [] {
        turns := turns[1..];
      }
    }

    /** A session opens, or the attempt fails, perhaps after the device opened one. */
    method Connect() returns (session: Option<SessionId>, ghost opening: seq<Event>)
      modifies this
      ensures opening == Opening(FirstTurn(old(turns))) && device == Run(old(device), opening)
      ensures session.Some? <==> FirstTurn(old(turns)).outcome == Delivered
      ensures session.Some? ==>
                && opening != [] && opening[|opening| - 1] == Opened
                && session.value == Run(old(device), opening[..|opening| - 1]).nextSession
    {
      var turn := NextTurn();
      var arrival := Run(device, turn.before);
      opening := Opening(turn);
      session := if turn.outcome == Delivered then Some(arrival.nextSession) else None;
      device := if turn.outcome == Refused then arrival else Step(arrival, Opened);
      assert opening[..|turn.before|] == turn.before;
      assert turn.outcome == Refused ==> opening == turn.before;
    }

    /** One operation on the session, with `calls` sent on it before. */
    method Send(s: SessionId, rpc: Rpc, ghost established: Device, ghost calls: seq<Sent>)
      returns (replied: bool, ghost sent: Sent)
      requires Chained(established, s, calls, device)
      modifies this
      ensures SentOk(sent, s) && sent.rpc == rpc && sent.replied == replied
      ensures sent.start == old(device) && sent.end == device
      ensures Chained(established, s, calls + [sent], device)
    {
      hide Apply, Step;
      ghost var start := device;
      var turn := NextTurn();
      var before := if Others(turn.before, s) then turn.before else [];
      var arrival := Run(device, before);
      replied := turn.outcome == Delivered && Apply(arrival, s, rpc).Some?;
      device := if turn.outcome == Refused then arrival else Step(arrival, Carried(s, rpc));
      sent := Sent(start, before, rpc, turn.outcome, replied, device);
      assert (calls + [sent])[..|calls|] == calls;
    }
  }

  /** One planned step: its name is recorded when its reply arrives. */
  method TimeStep(server: Server, s: SessionId, step: string, rpc: Rpc, steps: seq<string>,
                  ghost plan: seq<Rpc>, ghost established: Device, ghost body: seq<Sent>)
    returns (replied: bool, steps': seq<string>, ghost body': seq<Sent>)
    requires Chained(established, s, body, server.device)
    requires BodySoFar(plan, body) && LastReplied(body) && |body| < |plan| && plan[|body|] == rpc
    modifies server
    ensures Chained(established, s, body', server.device)
    ensures |body'| == |body| + 1 && body'[..|body|] == body
    ensures BodySoFar(plan, body') && LastReplied(body') == replied
    ensures steps' == steps + if replied then [step] else []
  {
    hide Chained, SentOk, BodySoFar, LastReplied;
    ghost var sent;
    replied, sent := server.Send(s, rpc, established, body);
    BodyNext(plan, body, sent);
    body' := body + [sent];
    steps' := steps + if replied then [step] else [];
  }

  lemma BodyNext(plan: seq<Rpc>, body: seq<Sent>, sent: Sent)
    requires BodySoFar(plan, body) && LastReplied(body) && |body| < |plan| && plan[|body|] == sent.rpc
    ensures BodySoFar(plan, body + [sent]) && LastReplied(body + [sent]) == sent.replied
  {
  }

  lemma NothingSentYet(plan: seq<Rpc>, s: SessionId, d: Device)
    ensures BodySoFar(plan, []) && Chained(d, s, [], d)
  {
  }

  /** The plan and its names, place by place. */
  lemma PlanShape(request: Request)
    requires Acceptable(request)
    ensures var plan, names := Plan(request), PlanNames(request);
            var last := 4 + if request.verify then 1 else 0;
            && |plan| == |names| == last + (if request.finalize then 1 else 0)
            && plan[0] == Lock && plan[1] == EditConfig(request.edit) && plan[2] == Validate
            && plan[3] == Commit(Some(request.confirmTimeout.Floor), request.persist, None)
            && names[..4] == ["lock", "edit-config", "validate", "commit"]
            && (request.verify ==> plan[4] == Get && names[4] == "verify")
            && (request.finalize ==> plan[last] == Commit(None, None, request.persist) && names[last] == "finalize")
  {
  }

  /** The planned steps: each statement runs only when no exception is on its way. */
  method RunPlan(server: Server, s: SessionId, request: Request, ghost established: Device)
    returns (locked: bool, committed: bool, failed: Option<string>, steps: seq<string>, ghost body: seq<Sent>)
    requires Acceptable(request) && established == server.device
    modifies server
    ensures Chained(established, s, body, server.device)
    ensures body != [] && BodyOk(Plan(request), body) && |body| <= |PlanNames(request)|
    ensures locked == body[0].replied && committed == Committed(body)
    ensures failed == if LastReplied(body) then None else Some(PlanNames(request)[|body| - 1])
    ensures LastReplied(body) ==> locked && committed && steps == PlanNames(request)
  {
    hide Chained, BodySoFar, ConfirmTimeoutText, Blank, Plan, PlanNames;
    PlanShape(request);
    ghost var plan := Plan(request);
    NothingSentYet(plan, s, established);
    steps, body, committed, failed := [], [], false, None;
    var ok;
    ok, steps, body := TimeStep(server, s, "lock", Lock, steps, plan, established, body);
    locked := ok;
    if !ok { failed := Some("lock"); }
    if ok {
      ok, steps, body := TimeStep(server, s, "edit-config", EditConfig(request.edit), steps, plan, established, body);
      if !ok { failed := Some("edit-config"); }
    }
    if ok {
      ok, steps, body := TimeStep(server, s, "validate", Validate, steps, plan, established, body);
      if !ok { failed := Some("validate"); }
    }
    if ok {
      var seconds := DecimalValue(ConfirmTimeoutText(request.confirmTimeout).value);
      ok, steps, body := TimeStep(server, s, "commit", Commit(Some(seconds), request.persist, None),
                                  steps, plan, established, body);
      if !ok { failed := Some("commit"); }
      committed := ok;
    }
    if ok && request.verify {
      ok, steps, body := TimeStep(server, s, "verify", Get, steps, plan, established, body);
      if !ok { failed := Some("verify"); }
    }
    if ok && request.finalize {
      ok, steps, body := TimeStep(server, s, "finalize", Commit(None, None, request.persist),
                                  steps, plan, established, body);
      if !ok { failed := Some("finalize"); }
    }
  }

  /** The inner finally: what it sends may fail, and its failures are swallowed. */
  method CleanUp(server: Server, s: SessionId, committed: bool, steps: seq<string>,
                 ghost established: Device, ghost body: seq<Sent>)
    returns (steps': seq<string>, ghost cleanup: seq<Sent>)
    requires Chained(established, s, body, server.device)
    modifies server
    ensures Chained(established, s, body + cleanup, server.device)
    ensures Sends(cleanup, if committed then [Unlock] else [DiscardChanges, Unlock])
    ensures committed ==> steps' == steps + if cleanup[|cleanup| - 1].replied then ["unlock"] else []
  {
    hide Chained;
    cleanup, steps' := [], steps;
    assert body + cleanup == body;
    if !committed {
      var discarded;
      ghost var sent;
      discarded, sent := server.Send(s, DiscardChanges, established, body);
      steps' := steps' + if discarded then ["discard-changes"] else [];
      cleanup := [sent];
      assert body + [sent] == body + cleanup;
    }
    var unlocked;
    ghost var sent;
    unlocked, sent := server.Send(s, Unlock, established, body + cleanup);
    steps' := steps' + if unlocked then ["unlock"] else [];
    assert body + cleanup + [sent] == body + (cleanup + [sent]);
    cleanup := cleanup + [sent];
  }

  method ExecuteConfirmedCommit(server: Server, request: Request)
    returns (r: Result<MutationResult, Error>, ghost report: Option<Report>)
    modifies server
    ensures !Acceptable(request) ==>
              && report.None? && server.device == old(server.device)
              && r == Err(if ConfirmTimeoutText(request.confirmTimeout).None? then InvalidTimeout else InvalidPersistId)
    ensures Acceptable(request) && report.None? ==>
              && r == Err(NoSession) && FirstTurn(old(server.turns)).outcome != Delivered
              && server.device == Run(old(server.device), Opening(FirstTurn(old(server.turns))))
    ensures Acceptable(request) && report.Some? ==>
              && Accounts(old(server.device), request, report.value, server.device)
              && r == Answer(request, server.capabilities, report.value)
              && FirstTurn(old(server.turns)).outcome == Delivered
              && (report.value.body == [] <==> MissingFor(request, server.capabilities) != [])
    ensures report.Some? && report.value.body != [] ==>
              var body, cleanup := report.value.body, report.value.cleanup;
              var names := ["lock", "edit-config", "validate", "commit"] + (if request.verify then ["verify"] else [])
                           + (if request.finalize then ["finalize"] else []);
              var unlocked := cleanup != [] && cleanup[|cleanup| - 1].replied;
              && |body| <= |names|
              && r == if body[|body| - 1].replied
                      then Ok(MutationResult(names + (if unlocked then ["unlock"] else []), request.finalize,
                                             request.confirmTimeout, request.persist))
                      else Err(StepFailed(names[|body| - 1]))
    // In literal terms: who is refused at once, and with what.
    ensures !(request.confirmTimeout >= 1.0 && request.confirmTimeout == request.confirmTimeout.Floor as real) ==>
              r == Err(InvalidTimeout) && report.None?
    ensures request.confirmTimeout >= 1.0 && request.confirmTimeout == request.confirmTimeout.Floor as real
            && request.persist.Some? && AllSpace(request.persist.value) ==>
              r == Err(InvalidPersistId) && report.None?
    // With persist the plan is sent exactly when candidate and confirmed-commit 1.1 are advertised, ...
    ensures report.Some? && request.persist.Some? ==>
              var candidate := Advertises(server.capabilities, "urn:ietf:params:netconf:capability:candidate:1.0");
              var commit := Advertises(server.capabilities, "urn:ietf:params:netconf:capability:confirmed-commit:1.1");
              && (report.value.body != [] <==> candidate && commit)
              && (!(candidate && commit) ==>
                    r == Err(MissingCapability((if candidate then [] else [":candidate"])
                                               + (if commit then [] else [":confirmed-commit:1.1"]))))
    // ... without it exactly when candidate and either version are.
    ensures report.Some? && request.persist.None? ==>
              var candidate := Advertises(server.capabilities, "urn:ietf:params:netconf:capability:candidate:1.0");
              var commit := Advertises(server.capabilities, "urn:ietf:params:netconf:capability:confirmed-commit:1.0")
                            || Advertises(server.capabilities, "urn:ietf:params:netconf:capability:confirmed-commit:1.1");
              && (report.value.body != [] <==> candidate && commit)
              && (!(candidate && commit) ==>
                    r == Err(MissingCapability((if candidate then [] else [":candidate"])
                                               + (if commit then [] else [":confirmed-commit"]))))
  {
    hide Chained, BodySoFar, Run, ConfirmTimeoutText, Blank, MissingCapabilities, MissingFor, Advertises, AllSpace, Plan, PlanNames,
         SentOk, Opening, FirstTurn;
    NeededFor(request, server.capabilities);
    AcceptableIff(request);
    if Acceptable(request) { PlanShape(request); }
    var timeoutText := ConfirmTimeoutText(request.confirmTimeout);
    if timeoutText.None? {
      return Err(InvalidTimeout), None;
    }
    if request.persist.Some? && Blank(request.persist.value) {
      return Err(InvalidPersistId), None;
    }
    var session;
    ghost var opening;
    session, opening := server.Connect();
    if session.None? {
      return Err(NoSession), None;
    }
    var s := session.value;
    ghost var established := server.device;
    ghost var body: seq<Sent>, cleanup: seq<Sent> := [], [];
    NothingSentYet(Plan(request), s, established);
    assert body + cleanup == [];
    var steps: seq<string>, failed: Option<string> := [], None;

    var missing := MissingFor(request, server.capabilities);
    if missing == [] {
      var locked, committed;
      locked, committed, failed, steps, body := RunPlan(server, s, request, established);
      assert body + cleanup == body;
      if locked {
        steps, cleanup := CleanUp(server, s, committed, steps, established, body);
      }
    }
    // the outer finally
    var closed;
    ghost var closing;
    closed, closing := server.Send(s, CloseSession, established, body + cleanup);
    report := Some(Report(opening, s, established, body, cleanup, closing));
    if body != [] { AnswerTerms(request, server.capabilities, report.value); }
    if missing != [] {
      return Err(MissingCapability(missing)), report;
    }
    if failed.Some? {
      return Err(StepFailed(failed.value)), report;
    }
    return Ok(MutationResult(steps, request.finalize, request.confirmTimeout, request.persist)), report;
  }

  /** What two requirements come to. */
  lemma MissingOfTwo(capabilities: seq<string>, needed: seq<Requirement>)
    requires |needed| == 2
    ensures MissingCapabilities(capabilities, needed) ==
            (if Met(capabilities, needed[0]) then [] else [needed[0].name])
            + (if Met(capabilities, needed[1]) then [] else [needed[1].name])
  {
    hide Met;
    var rest := needed[1..];
    assert rest[0] == needed[1] && rest[1..] == [];
    assert MissingCapabilities(capabilities, []) == [];
    assert MissingCapabilities(capabilities, rest) == (if Met(capabilities, needed[1]) then [] else [needed[1].name]) + [];
  }

  lemma MetByOne(capabilities: seq<string>, r: Requirement, uri: string)
    requires r.uris == [uri]
    ensures Met(capabilities, r) <==> Advertises(capabilities, uri)
  {
    hide Advertises;
    assert uri in r.uris;
  }

  lemma MetByEither(capabilities: seq<string>, r: Requirement, one: string, two: string)
    requires r.uris == [one, two]
    ensures Met(capabilities, r) <==> Advertises(capabilities, one) || Advertises(capabilities, two)
  {
    hide Advertises;
    assert one in r.uris && two in r.uris;
  }

  /** What is missing, by name, for a call with or without persist. */
  lemma NeededFor(request: Request, capabilities: seq<string>)
    ensures var candidate := Advertises(capabilities, "urn:ietf:params:netconf:capability:candidate:1.0");
            var one := Advertises(capabilities, "urn:ietf:params:netconf:capability:confirmed-commit:1.0");
            var two := Advertises(capabilities, "urn:ietf:params:netconf:capability:confirmed-commit:1.1");
            var commit := if request.persist.Some? then two else one || two;
            var name := if request.persist.Some? then ":confirmed-commit:1.1" else ":confirmed-commit";
            && MissingFor(request, capabilities) == (if candidate then [] else [":candidate"]) + (if commit then [] else [name])
            && (MissingFor(request, capabilities) == [] <==> candidate && commit)
  {
    NeededToSettle(capabilities);
    var needed := REQUIRED_MUTATION_CAPABILITIES;
    MissingOfTwo(capabilities, needed);
    MetByOne(capabilities, needed[0], CANDIDATE);
    MetByEither(capabilities, needed[1], CONFIRMED_COMMIT_1_0, CONFIRMED_COMMIT_1_1);
    hide Advertises, Met, MissingCapabilities;
  }

  /** What is missing to settle a persisted commit. */
  lemma NeededToSettle(capabilities: seq<string>)
    ensures var candidate := Advertises(capabilities, "urn:ietf:params:netconf:capability:candidate:1.0");
            var commit := Advertises(capabilities, "urn:ietf:params:netconf:capability:confirmed-commit:1.1");
            var missing := MissingCapabilities(capabilities, REQUIRED_PERSIST_CAPABILITIES);
            && missing == (if candidate then [] else [":candidate"]) + (if commit then [] else [":confirmed-commit:1.1"])
            && (missing == [] <==> candidate && commit)
  {
    var needed := REQUIRED_PERSIST_CAPABILITIES;
    MissingOfTwo(capabilities, needed);
    MetByOne(capabilities, needed[0], CANDIDATE);
    MetByOne(capabilities, needed[1], CONFIRMED_COMMIT_1_1);
    hide Advertises, Met, MissingCapabilities;
  }

  lemma AcceptableIff(request: Request)
    ensures Acceptable(request) <==>
            && request.confirmTimeout >= 1.0 && request.confirmTimeout == request.confirmTimeout.Floor as real
            && (request.persist.Some? ==> !AllSpace(request.persist.value))
  {
    if request.persist.Some? { BlankIsAllSpace(request.persist.value); }
  }

  function MissingFor(request: Request, capabilities: seq<string>): seq<string> {
    MissingCapabilities(capabilities,
                        if request.persist.None? then REQUIRED_MUTATION_CAPABILITIES else REQUIRED_PERSIST_CAPABILITIES)
  }

  /** What the caller is told about a call: the first failure of the plan, or every step that was answered. */
  function Answer(request: Request, capabilities: seq<string>, r: Report): Result<MutationResult, Error>
    requires Acceptable(request) && |r.body| <= |PlanNames(request)|
  {
    if r.body == [] then Err(MissingCapability(MissingFor(request, capabilities)))
    else if !AllReplied(request, r) then Err(StepFailed(PlanNames(request)[|r.body| - 1]))
    else
      Ok(MutationResult(
           PlanNames(request) + (if r.cleanup != [] && r.cleanup[|r.cleanup| - 1].replied then ["unlock"] else []),
           request.finalize, request.confirmTimeout, request.persist))
  }

  /** In literal terms: the names of the steps, in order, and the one that failed. */
  lemma AnswerTerms(request: Request, capabilities: seq<string>, r: Report)
    requires Acceptable(request) && 0 < |r.body| <= |PlanNames(request)|
    ensures var names := ["lock", "edit-config", "validate", "commit"] + (if request.verify then ["verify"] else [])
                         + (if request.finalize then ["finalize"] else []);
            var unlocked := r.cleanup != [] && r.cleanup[|r.cleanup| - 1].replied;
            |r.body| <= |names| &&
            Answer(request, capabilities, r) ==
            if r.body[|r.body| - 1].replied
            then Ok(MutationResult(names + (if unlocked then ["unlock"] else []), request.finalize, request.confirmTimeout, request.persist))
            else Err(StepFailed(names[|r.body| - 1]))
  {
  }

  // ---- Settling a persisted commit from a later session ----

  /** The operation, when the capabilities are there, and close-session. */
  datatype Settling = Settling(opening: seq<Event>, session: SessionId, established: Device, calls: seq<Sent>)

  ghost predicate Settles(d: Device, rpc: Rpc, t: Settling, end: Device) {
    && t.opening != [] && t.opening[|t.opening| - 1] == Opened
    && t.established == Run(d, t.opening)
    && t.session == Run(d, t.opening[..|t.opening| - 1]).nextSession
    && Chained(t.established, t.session, t.calls, end)
    && (Sends(t.calls, [rpc, CloseSession]) || Sends(t.calls, [CloseSession]))
  }

  method RunPersistStep(server: Server, operation: string, rpc: Rpc)
    returns (r: Result<string, Error>, ghost settling: Option<Settling>)
    modifies server
    ensures settling.None? ==>
              && r == Err(NoSession) && FirstTurn(old(server.turns)).outcome != Delivered
              && server.device == Run(old(server.device), Opening(FirstTurn(old(server.turns))))
    ensures settling.Some? ==>
              && Settles(old(server.device), rpc, settling.value, server.device)
              && r == SettlingAnswer(operation, server.capabilities, settling.value)
              && (|settling.value.calls| == 1 <==>
                    MissingCapabilities(server.capabilities, REQUIRED_PERSIST_CAPABILITIES) != [])
    ensures settling.Some? ==>
              var candidate := Advertises(server.capabilities, "urn:ietf:params:netconf:capability:candidate:1.0");
              var commit := Advertises(server.capabilities, "urn:ietf:params:netconf:capability:confirmed-commit:1.1");
              && (|settling.value.calls| == 2 <==> candidate && commit)
              && (if candidate && commit then
                    r == if settling.value.calls[0].replied then Ok(operation) else Err(StepFailed(operation))
                  else
                    r == Err(MissingCapability((if candidate then [] else [":candidate"])
                                               + (if commit then [] else [":confirmed-commit:1.1"]))))
  {
    hide Chained, Run, MissingCapabilities, Advertises, SentOk, Opening, FirstTurn;
    NeededToSettle(server.capabilities);
    var session;
    ghost var opening;
    session, opening := server.Connect();
    if session.None? {
      return Err(NoSession), None;
    }
    var s := session.value;
    ghost var established := server.device;
    NothingSentYet([], s, established);
    ghost var calls: seq<Sent> := [];
    var missing := MissingCapabilities(server.capabilities, REQUIRED_PERSIST_CAPABILITIES);
    var replied := false;
    if missing == [] {
      ghost var sent;
      replied, sent := server.Send(s, rpc, established, calls);
      calls := calls + [sent];
    }
    var closed;
    ghost var closing;
    closed, closing := server.Send(s, CloseSession, established, calls);
    settling := Some(Settling(opening, s, established, calls + [closing]));
    if missing != [] {
      return Err(MissingCapability(missing)), settling;
    }
    r := if replied then Ok(operation) else Err(StepFailed(operation));
  }

  function SettlingAnswer(operation: string, capabilities: seq<string>, t: Settling): Result<string, Error> {
    if |t.calls| < 2 then Err(MissingCapability(MissingCapabilities(capabilities, REQUIRED_PERSIST_CAPABILITIES)))
    else if t.calls[0].replied then Ok(operation)
    else Err(StepFailed(operation))
  }

  method ConfirmPersistedCommit(server: Server, persistId: PersistId)
    returns (r: Result<string, Error>, ghost settling: Option<Settling>)
    modifies server
    ensures Blank(persistId) ==> r == Err(InvalidPersistId) && settling.None? && server.device == old(server.device)
    ensures !Blank(persistId) && settling.None? ==>
              && r == Err(NoSession) && FirstTurn(old(server.turns)).outcome != Delivered
              && server.device == Run(old(server.device), Opening(FirstTurn(old(server.turns))))
    ensures settling.Some? ==>
              && Settles(old(server.device), Commit(None, None, Some(persistId)), settling.value, server.device)
              && r == SettlingAnswer("confirm-commit", server.capabilities, settling.value)
    ensures settling.Some? ==>
              var candidate := Advertises(server.capabilities, "urn:ietf:params:netconf:capability:candidate:1.0");
              var commit := Advertises(server.capabilities, "urn:ietf:params:netconf:capability:confirmed-commit:1.1");
              && (|settling.value.calls| == 2 <==> candidate && commit)
              && (candidate && commit ==>
                    r == if settling.value.calls[0].replied then Ok("confirm-commit") else Err(StepFailed("confirm-commit")))
  {
    if Blank(persistId) {
      return Err(InvalidPersistId), None;
    }
    r, settling := RunPersistStep(server, "confirm-commit", Commit(None, None, Some(persistId)));
  }

  method CancelPersistedCommit(server: Server, persistId: PersistId)
    returns (r: Result<string, Error>, ghost settling: Option<Settling>)
    modifies server
    ensures Blank(persistId) ==> r == Err(InvalidPersistId) && settling.None? && server.device == old(server.device)
    ensures !Blank(persistId) && settling.None? ==>
              && r == Err(NoSession) && FirstTurn(old(server.turns)).outcome != Delivered
              && server.device == Run(old(server.device), Opening(FirstTurn(old(server.turns))))
    ensures settling.Some? ==>
              && Settles(old(server.device), CancelCommit(Some(persistId)), settling.value, server.device)
              && r == SettlingAnswer("cancel-commit", server.capabilities, settling.value)
    ensures settling.Some? ==>
              var candidate := Advertises(server.capabilities, "urn:ietf:params:netconf:capability:candidate:1.0");
              var commit := Advertises(server.capabilities, "urn:ietf:params:netconf:capability:confirmed-commit:1.1");
              && (|settling.value.calls| == 2 <==> candidate && commit)
              && (candidate && commit ==>
                    r == if settling.value.calls[0].replied then Ok("cancel-commit") else Err(StepFailed("cancel-commit")))
  {
    if Blank(persistId) {
      return Err(InvalidPersistId), None;
    }
    r, settling := RunPersistStep(server, "cancel-commit", CancelCommit(Some(persistId)));
  }
}
