/**
 The cross-process counting semaphore on token files: processes that create, release and sweep tokens
 and crash, interleaved step by step.
 */
module Semaphore {
  import opened Basics

  type Pid = nat
  type HolderId = nat   // one per attempt to get a token, never used twice

  /** A token file is empty from the moment it is created until its JSON is written. */
  datatype Content = Torn | Owner(pid: Pid)

  datatype File = File(creator: HolderId, content: Content)

  datatype Hold = Hold(index: nat, pid: Pid)

  /**
   The token directory of one semaphore and the processes on the host.  `opening` and `checked` hold the
   halves of operations that are not one step: a file created but not written, a token found stale but
   not yet unlinked.
   */
  datatype Host = Host(
    maxTokens: nat,
    files: map<nat, File>,
    live: set<Pid>,
    user: Pid -> nat,
    holders: map<HolderId, Hold>,
    opening: map<HolderId, Hold>,
    checked: map<Pid, nat>)

  datatype Step =
    | Start(pid: Pid)
    | Crash(pid: Pid)                                   // the process ends and its token files stay
    | Create(holder: HolderId, pid: Pid, index: nat)    // exclusive creation and content as one step
    | Release(holder: HolderId)
    | Sweep(pid: Pid, index: nat)                       // stale check and unlink as one step
    | Open(holder: HolderId, pid: Pid, index: nat)      // exclusive creation alone
    | Write(holder: HolderId)                           // content alone
    | Check(pid: Pid, index: nat)                       // stale check alone
    | Unlink(pid: Pid)                                  // unlink of the token checked

  /** os.kill(pid, 0): fails for a process that is gone, and for a process of another user. */
  predicate CanSignal(s: Host, from: Pid, to: Pid) {
    to in s.live && (s.user(from) == 0 || s.user(from) == s.user(to))
  }

  /** What the sweeping process takes for a stale token. */
  predicate IsStale(s: Host, sweeper: Pid, content: Content) {
    content.Torn? || (content.pid != sweeper && !CanSignal(s, sweeper, content.pid))
  }

  predicate CanCreate(s: Host, h: HolderId, p: Pid, i: nat) {
    p in s.live && i < s.maxTokens && i !in s.files && h !in s.holders && h !in s.opening
  }

  function WithoutProcess(holds: map<HolderId, Hold>, p: Pid): map<HolderId, Hold> {
    map h | h in holds && holds[h].pid != p :: holds[h]
  }

  /** Steps that are not possible in a state change nothing. */
  function Next(s: Host, step: Step): Host {
    match step
    case Start(p) => s.(live := s.live + {p})
    case Crash(p) =>
      s.(live := s.live - {p}, holders := WithoutProcess(s.holders, p), opening := WithoutProcess(s.opening, p),
         checked := s.checked - {p})
    case Create(h, p, i) =>
      if CanCreate(s, h, p, i)
      then s.(files := s.files[i := File(h, Owner(p))], holders := s.holders[h := Hold(i, p)]) else s
    case Release(h) =>
      if h in s.holders then s.(files := s.files - {s.holders[h].index}, holders := s.holders - {h}) else s
    case Sweep(p, i) =>
      if p in s.live && i in s.files && IsStale(s, p, s.files[i].content) then s.(files := s.files - {i}) else s
    case Open(h, p, i) =>
      if CanCreate(s, h, p, i)
      then s.(files := s.files[i := File(h, Torn)], opening := s.opening[h := Hold(i, p)]) else s
    case Write(h) =>
      if h !in s.opening then s
      else
        var hold := s.opening[h];
        var mine := hold.index in s.files && s.files[hold.index].creator == h;
        s.(files := if mine then s.files[hold.index := File(h, Owner(hold.pid))] else s.files,
           holders := s.holders[h := hold], opening := s.opening - {h})
    case Check(p, i) =>
      if p in s.live && i in s.files && IsStale(s, p, s.files[i].content) then s.(checked := s.checked[p := i]) else s
    case Unlink(p) =>
      if p in s.checked then s.(files := s.files - {s.checked[p]}, checked := s.checked - {p}) else s
  }

  function Run(s: Host, steps: seq<Step>): Host
    decreases |steps|
  {
    if steps == [] then s else Next(Run(s, steps[..|steps| - 1]), steps[|steps| - 1])
  }

  /** The premises: creation with content is one step, check with unlink is one step, ... */
  predicate Atomic(steps: seq<Step>) {
    forall i :: 0 <= i < |steps| ==>
      steps[i].Start? || steps[i].Crash? || steps[i].Create? || steps[i].Release? || steps[i].Sweep?
  }

  /** ... and all processes that share the directory belong to one user. */
  ghost predicate OneUser(s: Host) { forall p, q :: s.user(p) == s.user(q) }

  /** Every live holder has its own token file, with its own name on it. */
  ghost predicate Inv(s: Host) {
    forall h <- s.holders ::
      var hold := s.holders[h];
      hold.pid in s.live && hold.index < s.maxTokens
      && hold.index in s.files && s.files[hold.index] == File(h, Owner(hold.pid))
  }

  ghost predicate Empty(s: Host) {
    s.files == map[] && s.holders == map[] && s.opening == map[] && s.checked == map[]
  }

  lemma NextKeepsInv(s: Host, step: Step)
    requires Inv(s) && OneUser(s) && Atomic([step])
    ensures Inv(Next(s, step)) && OneUser(Next(s, step)) && Next(s, step).maxTokens == s.maxTokens
  {
    assert step == [step][0];
  }

  lemma {:induction false} RunKeepsInv(s: Host, steps: seq<Step>)
    requires Inv(s) && OneUser(s) && Atomic(steps)
    ensures Inv(Run(s, steps)) && OneUser(Run(s, steps)) && Run(s, steps).maxTokens == s.maxTokens
    decreases |steps|
  {
    hide Next, Inv, OneUser;
    if steps != [] {
      RunKeepsInv(s, steps[..|steps| - 1]);
      NextKeepsInv(Run(s, steps[..|steps| - 1]), steps[|steps| - 1]);
    }
  }

  /** Holders with indices of their own below `n` are at most `n`. */
  lemma {:induction false} CountByIndex(holders: map<HolderId, Hold>, n: nat)
    requires forall h <- holders :: holders[h].index < n
    requires forall g <- holders, h <- holders :: holders[g].index == holders[h].index ==> g == h
    ensures |holders| <= n
    decreases n
  {
    if n == 0 {
      assert holders.Keys == {};
    } else if h :| h in holders && holders[h].index == n - 1 {
      var rest := holders - {h};
      assert rest.Keys == holders.Keys - {h};
      CountByIndex(rest, n - 1);
    } else {
      CountByIndex(holders, n - 1);
    }
  }

  /** No two live holders have the same token. */
  ghost predicate Exclusive(s: Host) {
    forall g <- s.holders, h <- s.holders :: s.holders[g].index == s.holders[h].index ==> g == h
  }

  /**
   The bound: in every interleaving of processes that start, acquire, release, sweep and crash, no two
   live holders have the same index and there are at most maxTokens of them.
   */
  lemma TokenBound(s: Host, steps: seq<Step>)
    requires Empty(s) && OneUser(s) && Atomic(steps)
    ensures var now := Run(s, steps);
            && |now.holders| <= s.maxTokens
            && Exclusive(now)
            && (forall h <- now.holders :: now.holders[h].index < s.maxTokens && now.holders[h].pid in now.live)
  {
    RunKeepsInv(s, steps);
    BoundFromInv(Run(s, steps));
  }

  lemma BoundFromInv(s: Host)
    requires Inv(s)
    ensures |s.holders| <= s.maxTokens && Exclusive(s)
  {
    CountByIndex(s.holders, s.maxTokens);
  }

  predicate NoStart(steps: seq<Step>, p: Pid) { forall i :: 0 <= i < |steps| ==> steps[i] != Start(p) }

  /** The tokens of a process that is gone. */
  ghost predicate Orphan(s: Host, p: Pid, i: nat) { p !in s.live && i in s.files && s.files[i].content == Owner(p) }

  /** Nothing of a process that is gone is still under way. */
  ghost predicate Gone(s: Host, p: Pid) { p !in s.live && forall h <- s.opening :: s.opening[h].pid != p }

  lemma GoneStays(s: Host, step: Step, p: Pid)
    requires Gone(s, p) && step != Start(p)
    ensures Gone(Next(s, step), p)
    ensures forall i :: Orphan(Next(s, step), p, i) ==> Orphan(s, p, i) && Next(s, step).files[i] == s.files[i]
  {
  }

  lemma {:induction false} GoneThroughout(s: Host, steps: seq<Step>, p: Pid)
    requires Gone(s, p) && NoStart(steps, p)
    ensures Gone(Run(s, steps), p)
    ensures forall i :: Orphan(Run(s, steps), p, i) ==> Orphan(s, p, i) && Run(s, steps).files[i] == s.files[i]
    decreases |steps|
  {
    hide Next, Gone, Orphan;
    if steps != [] {
      GoneThroughout(s, steps[..|steps| - 1], p);
      GoneStays(Run(s, steps[..|steps| - 1]), steps[|steps| - 1], p);
    }
  }

  /**
   A crashed process loses nothing for good: after any run of everybody else, as long as no new process
   gets its pid, its tokens are among those it had when it crashed, and any sweep takes the one it looks
   at away without touching anybody's hold.
   */
  lemma CrashIsRecovered(s: Host, p: Pid, steps: seq<Step>, sweeper: Pid, i: nat)
    requires NoStart(steps, p)
    ensures var crashed := Next(s, Crash(p));
            var now := Run(crashed, steps);
            && (Orphan(now, p, i) ==> Orphan(crashed, p, i) && now.files[i] == s.files[i])
            && (Orphan(now, p, i) && sweeper in now.live ==>
                  i !in Next(now, Sweep(sweeper, i)).files && Next(now, Sweep(sweeper, i)).holders == now.holders)
  {
    hide Run;
    GoneThroughout(Next(s, Crash(p)), steps, p);
  }

  /** With one user a sweep takes another process's token exactly when no process has the pid on it: a pid used again keeps it. */
  lemma SweptIff(s: Host, p: Pid, i: nat, sweeper: Pid)
    requires OneUser(s) && i in s.files && s.files[i].content == Owner(p) && sweeper in s.live && sweeper != p
    ensures i !in Next(s, Sweep(sweeper, i)).files <==> p !in s.live
  {
  }

  // ---- Without the premises ----

  /** Release undoes acquire: the directory and everybody's holds are as they were. */
  lemma ReleaseUndoesCreate(s: Host, h: HolderId, p: Pid, i: nat)
    requires CanCreate(s, h, p, i)
    ensures h in Next(s, Create(h, p, i)).holders
    ensures Next(Next(s, Create(h, p, i)), Release(h)) == s
  {
    var taken := Next(s, Create(h, p, i));
    assert taken.files - {i} == s.files;
    assert taken.holders - {h} == s.holders;
  }

  /** Two processes, both of them holding the only token. */
  ghost predicate BoundBroken(s: Host) {
    s.maxTokens == 1 && 1 in s.holders && 2 in s.holders && s.holders[1].index == s.holders[2].index == 0
  }

  function OneToken(user: Pid -> nat): Host { Host(1, map[], {10, 20}, user, map[], map[], map[]) }

  lemma {:induction false} RunConcat(s: Host, a: seq<Step>, b: seq<Step>)
    ensures Run(s, a + b) == Run(Run(s, a), b)
    decreases |b|
  {
    if b == [] {
      assert a + b == a;
    } else {
      RunConcat(s, a, b[..|b| - 1]);
      assert (a + b)[..|a + b| - 1] == a + b[..|b| - 1];
    }
  }

  lemma RunCons(s: Host, step: Step, rest: seq<Step>)
    ensures Run(s, [step] + rest) == Run(Next(s, step), rest)
  {
    assert [step][..0] == [];
    assert Run(s, [step]) == Next(s, step);
    RunConcat(s, [step], rest);
  }

  /** Creation split from writing: an empty file reads as stale, so the sweeper takes a token being born. */
  lemma SplitCreationBreaksTheBound()
    ensures BoundBroken(Run(OneToken(_ => 0), [Open(1, 10, 0), Sweep(20, 0), Create(2, 20, 0), Write(1)]))
  {
    var s0 := OneToken(_ => 0);
    var s1 := Next(s0, Open(1, 10, 0));
    var s2 := Next(s1, Sweep(20, 0));
    var s3 := Next(s2, Create(2, 20, 0));
    var s4 := Next(s3, Write(1));
    assert BoundBroken(s4);
    hide Next, BoundBroken;
    FourSteps(s0, Open(1, 10, 0), Sweep(20, 0), Create(2, 20, 0), Write(1));
  }

  lemma FourSteps(s: Host, a: Step, b: Step, c: Step, d: Step)
    ensures Run(s, [a, b, c, d]) == Next(Next(Next(Next(s, a), b), c), d)
  {
    hide Next;
    var r := Next(Next(Next(s, a), b), c);
    assert Run(r, [d]) == Next(r, d) by { assert [d][..0] == []; }
    RunCons(Next(Next(s, a), b), c, [d]);
    RunCons(Next(s, a), b, [c, d]);
    RunCons(s, a, [b, c, d]);
    assert [c] + [d] == [c, d] && [b] + [c, d] == [b, c, d] && [a] + [b, c, d] == [a, b, c, d];
  }

  lemma SplitSweepEnds(s: Host)
    requires s == OneToken(_ => 0).(files := map[0 := File(0, Owner(30))])
    ensures BoundBroken(Next(Next(Next(Next(Next(s, Check(10, 0)), Sweep(20, 0)), Create(2, 20, 0)), Unlink(10)), Create(1, 10, 0)))
  {
    var s1 := Next(s, Check(10, 0));
    assert s1.checked == map[10 := 0];
    var s2 := Next(s1, Sweep(20, 0));
    assert s2.files == map[];
    var s3 := Next(s2, Create(2, 20, 0));
    var s4 := Next(s3, Unlink(10));
    assert s4.files == map[];
  }

  /** Check split from unlink: release has no ownership check, so a late unlink takes somebody's new token. */
  lemma SplitSweepBreaksTheBound()
    ensures exists s: Host :: s.holders == map[] && s.maxTokens == 1 && OneUser(s)
              && BoundBroken(Run(s, [Check(10, 0), Sweep(20, 0), Create(2, 20, 0), Unlink(10)] + [Create(1, 10, 0)]))
  {
    hide Next, BoundBroken;
    var s0 := OneToken(_ => 0).(files := map[0 := File(0, Owner(30))]);   // left by a crashed process
    SplitSweepEnds(s0);
    var s4 := Next(Next(Next(Next(s0, Check(10, 0)), Sweep(20, 0)), Create(2, 20, 0)), Unlink(10));
    var s5 := Next(s4, Create(1, 10, 0));
    var four := [Check(10, 0), Sweep(20, 0), Create(2, 20, 0), Unlink(10)];
    FourSteps(s0, Check(10, 0), Sweep(20, 0), Create(2, 20, 0), Unlink(10));
    RunConcat(s0, four, [Create(1, 10, 0)]);
    assert Run(s4, [Create(1, 10, 0)]) == s5 by { assert [Create(1, 10, 0)][..0] == []; }
    assert BoundBroken(Run(s0, four + [Create(1, 10, 0)]));
  }

  /**
   Two different users, anyhow: the one that is not root cannot signal a process of the other, so its sweep
   takes a live token, and both hold index 0.
   */
  lemma TwoUsersBreakTheBound(s: Host, p: Pid, q: Pid) returns (steps: seq<Step>)
    requires Empty(s) && s.maxTokens >= 1 && s.user(p) != s.user(q) && s.user(q) != 0
    ensures Atomic(steps) && !Exclusive(Run(s, steps))
  {
    var s1 := Next(Next(s, Start(p)), Start(q));
    var s2 := Next(s1, Create(1, p, 0));
    var s3 := Next(s2, Sweep(q, 0));
    var s4 := Next(s3, Create(2, q, 0));
    steps := [Start(p), Start(q), Create(1, p, 0), Sweep(q, 0)] + [Create(2, q, 0)];
    assert s4.holders[1].index == s4.holders[2].index;
    assert !Exclusive(s4);
    hide Next, Exclusive;
    FourSteps(s, Start(p), Start(q), Create(1, p, 0), Sweep(q, 0));
    RunConcat(s, [Start(p), Start(q), Create(1, p, 0), Sweep(q, 0)], [Create(2, q, 0)]);
    assert Run(s3, [Create(2, q, 0)]) == s4 by { assert [Create(2, q, 0)][..0] == []; }
  }

  /** Exclusive over every run in which the split operations are single steps. */
  ghost predicate AlwaysExclusive(s: Host) { forall steps :: Atomic(steps) ==> Exclusive(Run(s, steps)) }

  /** The exact condition: the tokens exclude one another over every atomic run exactly when there is one user. */
  lemma ExclusiveIffOneUser(s: Host)
    requires Empty(s) && s.maxTokens >= 1
    ensures AlwaysExclusive(s) <==> OneUser(s)
  {
    hide Next, Exclusive, Run, Atomic;
    if OneUser(s) {
      forall steps | Atomic(steps) ensures Exclusive(Run(s, steps)) { TokenBound(s, steps); }
    } else {
      var p, q :| s.user(p) != s.user(q);
      var steps;
      if s.user(q) != 0 { steps := TwoUsersBreakTheBound(s, p, q); } else { steps := TwoUsersBreakTheBound(s, q, p); }
      assert !Exclusive(Run(s, steps));
    }
  }

  // ---- acquire as the source runs it ----

  /** What the other processes do, and how long it takes, before this one's next step. */
  datatype Turn = Turn(steps: seq<Step>, elapsed: nat)

  /** Steps of others, under the premises: nobody else acts for this attempt, this process does not crash. */
  predicate OfOthers(steps: seq<Step>, me: Pid, h: HolderId) {
    Atomic(steps) &&
    forall i :: 0 <= i < |steps| ==>
      match steps[i]
      case Create(g, _, _) => g != h
      case Release(g) => g != h
      case Crash(p) => p != me
      case _ => true
  }

  /** Where a pass of acquire stands in the log: see PassSoFar. */
  datatype Pass = Pass(sweep: nat, scan: nat, seen: seq<nat>)

  lemma RunNothing(s: Host)
    ensures Run(s, []) == s
  {
  }

  /** Alive and empty-handed. */
  predicate Trying(s: Host, me: Pid, h: HolderId) { me in s.live && h !in s.holders && h !in s.opening }

  /** One by one: what others may do between this attempt's steps, and that they may do all of it. */
  lemma OthersTerms(steps: seq<Step>, me: Pid, h: HolderId)
    ensures OfOthers(steps, me, h) <==>
            forall e <- steps ::
              || (exists p :: e == Start(p) || (e == Crash(p) && p != me))
              || (exists g, p, i :: e == Create(g, p, i) && g != h)
              || (exists g :: e == Release(g) && g != h)
              || (exists p, i :: e == Sweep(p, i))
  {
    assert forall i :: 0 <= i < |steps| ==> steps[i] in steps;
  }

  lemma {:induction false} OthersKeepTrying(s: Host, steps: seq<Step>, me: Pid, h: HolderId)
    requires Trying(s, me, h) && OfOthers(steps, me, h)
    ensures Trying(Run(s, steps), me, h) && Run(s, steps).maxTokens == s.maxTokens
    decreases |steps|
  {
    if steps != [] {
      OthersKeepTrying(s, steps[..|steps| - 1], me, h);
    }
  }

  /** The time that passes in the turns to come. */
  ghost function Elapsing(turns: seq<Turn>): nat {
    if turns == [] then 0 else turns[0].elapsed + Elapsing(turns[1..])
  }

  class TokenDirectory {
    var host: Host
    var now: nat              // milliseconds
    var turns: seq<Turn>

    constructor (host: Host, turns: seq<Turn>)
      ensures this.host == host && this.turns == turns && now == 0
    {
      this.host, this.turns, now := host, turns, 0;
    }

    /** The others act and time passes: as much as their turn says, and no other time. */
    method Interfere(me: Pid, h: HolderId, ghost start: Host, ghost log: seq<Step>) returns (ghost log': seq<Step>)
      requires Trying(host, me, h) && host == Run(start, log) && Atomic(log)
      modifies this
      ensures Trying(host, me, h) && host == Run(start, log') && host.maxTokens == old(host.maxTokens)
      ensures now >= old(now) && now + Elapsing(turns) == old(now + Elapsing(turns)) && log <= log' && Atomic(log')
    {
      hide Next, Trying, OfOthers;
      log' := log;
      if turns != [] {
        var steps := if OfOthers(turns[0].steps, me, h) then turns[0].steps else [];
        assert OfOthers([], me, h) by { NobodyActs(me, h); }
        assert Atomic(log + steps) by { OthersAreAtomic(log, steps, me, h); }
        OthersKeepTrying(host, steps, me, h);
        RunConcat(start, log, steps);
        host, now, turns := Run(host, steps), now + turns[0].elapsed, turns[1..];
        log' := log + steps;
      }
    }

    /** A step of this process. */
    method Act(step: Step, ghost start: Host, ghost log: seq<Step>) returns (ghost log': seq<Step>)
      requires host == Run(start, log)
      modifies this`host
      ensures host == Next(old(host), step) && host == Run(start, log') && log' == log + [step]
    {
      hide Next;
      log' := log + [step];
      assert log'[..|log|] == log;
      host := Next(host, step);
    }

    method RemoveStaleTokens(me: Pid, h: HolderId, ghost start: Host, ghost log: seq<Step>)
      returns (ghost log': seq<Step>)
      requires Trying(host, me, h) && host == Run(start, log) && Atomic(log)
      modifies this
      ensures Trying(host, me, h) && host == Run(start, log') && host.maxTokens == old(host.maxTokens)
      ensures now >= old(now) && now + Elapsing(turns) == old(now + Elapsing(turns)) && log <= log' && Atomic(log')
      ensures Swept(old(host).files.Keys, me, log'[|log|..])
    {
      log' := log;
      var found := host.files.Keys;
      while found != {}
        invariant log <= log' && forall index <- old(host).files.Keys - found :: Sweep(me, index) in log'[|log|..]
        invariant Trying(host, me, h) && host == Run(start, log') && host.maxTokens == old(host.maxTokens)
        invariant now >= old(now) && now + Elapsing(turns) == old(now + Elapsing(turns)) && log <= log' && Atomic(log')
        decreases found
      {
        var index :| index in found;
        found := found - {index};
        ghost var before := log';
        log' := Interfere(me, h, start, log');
        log' := Act(Sweep(me, index), start, log');
        assert before[|log|..] <= log'[|log|..] && log'[|log'| - 1] == Sweep(me, index);
        assert log'[|log|..][|log'| - 1 - |log|] == Sweep(me, index);
      }
    }

    ghost predicate Swept(found: set<nat>, me: Pid, steps: seq<Step>) {
      forall index <- found :: Sweep(me, index) in steps
    }

    /**
     One pass, so far: at `sweep` it set out to sweep every token there was and at `scan` it had; since then
     it saw the first indices taken, one after the other, at the moments `seen`.
     */
    ghost predicate PassSoFar(start: Host, log: seq<Step>, me: Pid, pass: Pass) {
      var n := |pass.seen|;
      && pass.sweep <= pass.scan <= |log|
      && Swept(Run(start, log[..pass.sweep]).files.Keys, me, log[pass.sweep..pass.scan])
      && (forall i :: 0 <= i < n ==> pass.scan <= pass.seen[i] <= |log| && i in Run(start, log[..pass.seen[i]]).files)
      && (forall i, j :: 0 <= i < j < n ==> pass.seen[i] <= pass.seen[j])
    }

    /** ... and a whole pass that ends now: every index seen taken, the last one at this moment. */
    ghost predicate PassEndsNow(start: Host, log: seq<Step>, me: Pid, pass: Pass, n: nat) {
      PassSoFar(start, log, me, pass) && |pass.seen| == n && (n > 0 ==> pass.seen[n - 1] == |log|)
    }

    lemma PassGoesOn(start: Host, log: seq<Step>, log': seq<Step>, me: Pid, pass: Pass)
      requires log <= log' && PassSoFar(start, log, me, pass)
      ensures PassSoFar(start, log', me, pass)
    {
      hide Run;
      assert log'[..pass.sweep] == log[..pass.sweep] && log'[pass.sweep..pass.scan] == log[pass.sweep..pass.scan];
      forall i | 0 <= i < |pass.seen| ensures log'[..pass.seen[i]] == log[..pass.seen[i]] {}
    }

    lemma PassSees(start: Host, log: seq<Step>, me: Pid, pass: Pass)
      requires PassSoFar(start, log, me, pass) && |pass.seen| in Run(start, log).files
      ensures PassEndsNow(start, log, me, pass.(seen := pass.seen + [|log|]), |pass.seen| + 1)
    {
      hide Run;
      assert log[..|log|] == log;
    }

    lemma PassBegins(start: Host, before: seq<Step>, log: seq<Step>, me: Pid)
      requires before <= log && Swept(Run(start, before).files.Keys, me, log[|before|..])
      ensures PassEndsNow(start, log, me, Pass(|before|, |log|, []), 0)
    {
      hide Run;
      assert log[..|before|] == before && log[|before|..|log|] == log[|before|..];
    }

    /**
     Sweep, try every index, and again every 200 ms until the deadline.  A token comes back as this
     attempt's own; a timeout only at the deadline, at the end of a pass that swept every token it found and
     then saw every index taken.  Of the time that passes, all but the others' turns is pauses of 200 ms, each
     begun before the deadline.
     */
    method Acquire(me: Pid, h: HolderId, timeout: nat)
      returns (index: Option<nat>, ghost log: seq<Step>, ghost pass: Pass, ghost pauses: nat)
      requires Trying(host, me, h)
      modifies this
      ensures host == Run(old(host), log) && Atomic(log)
      ensures index.Some? ==>
                && index.value < host.maxTokens && host.holders[h := Hold(index.value, me)] == host.holders
                && host.files[index.value := File(h, Owner(me))] == host.files
                && log != [] && log[|log| - 1] == Create(h, me, index.value)
      ensures index.None? ==>
                && Trying(host, me, h) && now >= old(now) + timeout
                && PassEndsNow(old(host), log, me, pass, host.maxTokens)
      ensures now + Elapsing(turns) == old(now + Elapsing(turns)) + 200 * pauses
      ensures pauses > 0 ==> 200 * (pauses - 1) < timeout
    {
      hide Next, Trying, Run, PassSoFar, Swept;
      ghost var start := host;
      log, pass, pauses := [], Pass(0, 0, []), 0;
      RunNothing(start);
      var deadline := now + timeout;
      while true
        invariant host == Run(start, log) && Trying(host, me, h) && host.maxTokens == start.maxTokens && Atomic(log)
        invariant now + Elapsing(turns) == old(now + Elapsing(turns)) + 200 * pauses
        invariant now >= old(now) + 200 * pauses && (pauses > 0 ==> 200 * (pauses - 1) < timeout)
        decreases deadline + 200 - now
      {
        ghost var before, began := log, now;
        log := RemoveStaleTokens(me, h, start, log);
        PassBegins(start, before, log, me);
        pass := Pass(|before|, |log|, []);
        var i := 0;
        while i < host.maxTokens
          invariant host == Run(start, log) && Trying(host, me, h) && host.maxTokens == start.maxTokens && Atomic(log)
          invariant 0 <= i <= host.maxTokens && now >= began && PassEndsNow(start, log, me, pass, i)
          invariant now + Elapsing(turns) == old(now + Elapsing(turns)) + 200 * pauses
          decreases host.maxTokens - i
        {
          ghost var earlier := log;
          log := Interfere(me, h, start, log);
          PassGoesOn(start, earlier, log, me, pass);
          if i !in host.files {
            Creates(host, h, me, i);
            log := Act(Create(h, me, i), start, log);
            return Some(i), log, pass, pauses;
          }
          PassSees(start, log, me, pass);
          pass := pass.(seen := pass.seen + [|log|]);
          i := i + 1;
        }
        if now >= deadline {
          return None, log, pass, pauses;
        }
        now, pauses := now + 200, pauses + 1;
      }
    }
  }

  lemma OthersAreAtomic(log: seq<Step>, steps: seq<Step>, me: Pid, h: HolderId)
    requires Atomic(log) && OfOthers(steps, me, h)
    ensures Atomic(log + steps)
  {
  }

  lemma NobodyActs(me: Pid, h: HolderId)
    ensures OfOthers([], me, h)
  {
  }

  lemma Creates(s: Host, h: HolderId, me: Pid, i: nat)
    requires Trying(s, me, h) && i < s.maxTokens && i !in s.files
    ensures var next := Next(s, Create(h, me, i));
            && next.maxTokens == s.maxTokens && h in next.holders && next.holders[h] == Hold(i, me)
            && i in next.files && next.files[i] == File(h, Owner(me))
  {
  }
}
