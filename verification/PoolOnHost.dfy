/**
 The pool on the host it runs on.  Every acquire of every process also sweeps tokens that look stale, which
 the pool's own machine knows only as tokens of others going away.  Here both machines run together: each
 step of the pool that makes or removes a token file is one step of the semaphore, each step of the others
 is one step of the pool or none, and under the semaphore's premises (one user, creation and sweep as
 single steps) no sweep ever takes a token of this pool.
 */
module PoolOnHost {
  import opened Basics
  import P = Pool
  import S = Semaphore

  /** A pool of process `me`, its host, and the holder behind each token the pool owns. */
  datatype Joint = Joint(pool: P.State, host: S.Host, me: S.Pid, mine: map<P.Token, S.HolderId>)

  datatype Step =
    | Ours(e: P.Step, h: S.HolderId)   // `h`: the attempt, when the step takes a token
    | Theirs(step: S.Step)             // anybody's, this process's sweeps included

  predicate IsForeign(e: P.Step) { e.ForeignTake? || e.ForeignRelease? }

  /** The token file that a step of the pool creates, ... */
  function Taken(s: P.State, e: P.Step): Option<P.Token> {
    if e.TakeToken? && e.token !in s.directory && e.token < s.maxSessions then Some(e.token) else None
  }

  /** ... and the one it removes. */
  function Freed(s: P.State, e: P.Step): Option<P.Token> {
    match e
    case PopIdle(healthy, closeRaises) =>
      if s.idle != [] && !healthy && !closeRaises then Some(s.idle[|s.idle| - 1].token) else None
    case ConnectFailed(t) =>
      if t < |s.busy| && s.busy[t].Connecting? then Some(s.busy[t].lease.token) else None
    case CommandFailed(t, closeRaises) =>
      if t < |s.busy| && s.busy[t].Working? && !closeRaises then Some(s.busy[t].lease.token) else None
    case Finish(t, healthy, closeRaises) =>
      if t < |s.busy| && s.busy[t].Working? && !(s.reuseSessions && healthy) && !closeRaises
      then Some(s.busy[t].lease.token) else None
    case DrainOne(t, closeRaises) =>
      if t < |s.busy| && s.busy[t].Draining? && s.busy[t].leases != [] && !closeRaises
      then Some(s.busy[t].leases[0].token) else None
    case _ => None
  }

  /** A pool step changes the directory by these and by nothing else. */
  lemma DirectoryStep(s: P.State, e: P.Step)
    requires !IsForeign(e)
    ensures var next := P.Next(s, e);
            && next.foreign == s.foreign && next.maxSessions == s.maxSessions
            && next.directory == (match Taken(s, e)
                                  case Some(token) => s.directory + {token}
                                  case None =>
                                    match Freed(s, e)
                                    case Some(token) => s.directory - {token}
                                    case None => s.directory)
  {
    hide P.TokensOf, P.Without;
    match e
    case PopIdle(_, _) =>
    case TakeToken(_, _) =>
    case Connected(_) =>
    case ConnectFailed(_) =>
    case CommandFailed(_, _) =>
    case Finish(_, _, _) =>
    case DrainStart =>
    case DrainOne(_, _) =>
    case _ =>
  }

  /** What the semaphore sees of a pool step. */
  function HostStep(j: Joint, e: P.Step, h: S.HolderId): Option<S.Step> {
    match Taken(j.pool, e)
    case Some(token) => Some(S.Create(h, j.me, token))
    case None =>
      match Freed(j.pool, e)
      case Some(token) => if token in j.mine then Some(S.Release(j.mine[token])) else None
      case None => None
  }

  /** What the pool sees of a semaphore step. */
  function PoolStep(host: S.Host, step: S.Step): Option<P.Step> {
    var next := S.Next(host, step);
    match step
    case Create(_, _, i) => if i !in host.files && i in next.files then Some(P.ForeignTake(i)) else None
    case Release(h) => if h in host.holders then Some(P.ForeignRelease(host.holders[h].index)) else None
    case Sweep(_, i) => if i in host.files && i !in next.files then Some(P.ForeignRelease(i)) else None
    case _ => None
  }

  /** Others may do anything in single steps but end this process or release its tokens; its sweeps are among theirs. */
  predicate Permitted(j: Joint, step: S.Step) {
    && S.Atomic([step])
    && (step.Crash? ==> step.pid != j.me)
    && (step.Release? ==> step.holder !in j.mine.Values)
  }

  function Next(j: Joint, step: Step): Joint {
    match step
    case Ours(e, h) => OursNext(j, e, h)
    case Theirs(s) =>
      if !Permitted(j, s) then j
      else if PoolStep(j.host, s).Some? then j.(pool := P.Next(j.pool, PoolStep(j.host, s).value), host := S.Next(j.host, s))
      else j.(host := S.Next(j.host, s))
  }

  function OursNext(j: Joint, e: P.Step, h: S.HolderId): Joint {
    var host := HostStep(j, e, h);
    if IsForeign(e) then j
    else if Taken(j.pool, e).Some? then
      if S.CanCreate(j.host, h, j.me, e.token)
      then j.(pool := P.Next(j.pool, e), host := S.Next(j.host, host.value), mine := j.mine[e.token := h]) else j
    else if host.Some? then
      j.(pool := P.Next(j.pool, e), host := S.Next(j.host, host.value), mine := j.mine - {Freed(j.pool, e).value})
    else j.(pool := P.Next(j.pool, e))
  }

  function Run(j: Joint, steps: seq<Step>): Joint
    decreases |steps|
  {
    if steps == [] then j else Next(Run(j, steps[..|steps| - 1]), steps[|steps| - 1])
  }

  function Owned(s: P.State): multiset<P.Token> { P.TokensOf(s.idle) + P.TokensOfBusy(s.busy) + s.leaked }

  /** Both machines in their invariants, about the same directory; what the pool owns, its process holds. */
  ghost predicate Coupled(j: Joint) {
    && P.Balanced(j.pool) && S.Inv(j.host) && S.OneUser(j.host) && j.me in j.host.live
    && j.pool.directory == j.host.files.Keys && j.pool.maxSessions == j.host.maxTokens
    && (forall token <- j.mine :: j.mine[token] in j.host.holders && j.host.holders[j.mine[token]] == S.Hold(token, j.me))
    && (forall token :: token in j.mine <==> token in Owned(j.pool))
  }

  /** A pool that starts on a host in order: every token there is somebody else's. */
  lemma StartsCoupled(host: S.Host, me: S.Pid, reuseSessions: bool)
    requires S.Inv(host) && S.OneUser(host) && me in host.live && forall i <- host.files :: i < host.maxTokens
    ensures Coupled(Joint(P.State(host.maxTokens, reuseSessions, host.files.Keys, [], [], multiset{}, multiset(host.files.Keys)),
                          host, me, map[]))
  {
    assert multiset{} + multiset(host.files.Keys) == multiset(host.files.Keys);
  }

  // ---- Who owns what ----

  /** What the pool owns is the directory without what is foreign. */
  lemma OwnedIs(s: P.State)
    requires P.Balanced(s)
    ensures forall token :: Owned(s)[token] + s.foreign[token] == if token in s.directory then 1 else 0
  {
    hide P.TokensOf, P.TokensOfBusy;
    forall token ensures Owned(s)[token] + s.foreign[token] == if token in s.directory then 1 else 0 {
      assert (Owned(s) + s.foreign)[token] == multiset(s.directory)[token];
    }
  }

  /** With the foreign tokens alike, owning changes as the directory does. */
  lemma BothOwn(s: P.State, next: P.State, token: P.Token)
    requires P.Balanced(s) && P.Balanced(next) && next.foreign == s.foreign
    ensures (token in next.directory <==> token in s.directory) ==> (token in Owned(next) <==> token in Owned(s))
    ensures token !in next.directory ==> token !in Owned(next)
    ensures token in next.directory && token !in s.directory ==> token in Owned(next)
    ensures token !in next.directory && token in s.directory ==> token in Owned(s)
  {
    hide P.Balanced, Owned;
    OwnedIs(s);
    OwnedIs(next);
  }

  /** A token that the others take or give back was never this pool's. */
  lemma ForeignStep(s: P.State, e: P.Step)
    requires P.Balanced(s) && IsForeign(e)
    ensures var next := P.Next(s, e);
            && next.maxSessions == s.maxSessions && Owned(next) == Owned(s)
            && (e.ForeignTake? && e.token !in s.directory && e.token < s.maxSessions ==>
                  next.directory == s.directory + {e.token})
            && (e.ForeignRelease? && e.token in s.directory && e.token !in Owned(s) ==>
                  next.directory == s.directory - {e.token})
  {
    OwnedIs(s);
    hide P.TokensOf, P.TokensOfBusy, P.Balanced;
  }

  /** A sweep takes only tokens nobody holds, and a release only the one released. */
  lemma NotMine(j: Joint, step: S.Step)
    requires Coupled(j) && Permitted(j, step)
    ensures step.Sweep? && step.index in j.host.files && step.index !in S.Next(j.host, step).files ==>
              step.index !in j.mine
    ensures step.Release? && step.holder in j.host.holders ==> j.host.holders[step.holder].index !in j.mine
  {
    hide P.Balanced, Owned;
  }

  // ---- The coupling is kept ----

  lemma OursKeepsCoupled(j: Joint, e: P.Step, h: S.HolderId)
    requires Coupled(j) && !IsForeign(e)
    ensures Coupled(OursNext(j, e, h))
  {
    hide Coupled, OursNext;
    if Taken(j.pool, e).Some? {
      TakingKeepsCoupled(j, e, h);
    } else if Freed(j.pool, e).Some? {
      FreeingKeepsCoupled(j, e, h);
    } else {
      OtherwiseKeepsCoupled(j, e, h);
    }
  }

  /** The pool's part and the host's part of a coupling, put together. */
  lemma CoupledAfter(j: Joint, next: Joint)
    requires Coupled(j) && next.me == j.me
    requires P.Balanced(next.pool) && S.Inv(next.host) && S.OneUser(next.host) && j.me in next.host.live
    requires next.pool.directory == next.host.files.Keys && next.pool.maxSessions == next.host.maxTokens
    requires next.pool.foreign == j.pool.foreign
    requires forall token <- next.mine ::
               next.mine[token] in next.host.holders && next.host.holders[next.mine[token]] == S.Hold(token, j.me)
    requires forall token :: token in next.mine <==>
               token in next.pool.directory && (token in j.mine || token !in j.pool.directory)
    ensures Coupled(next)
  {
    hide P.Balanced, S.Inv, S.OneUser, Owned;
    forall token ensures token in next.mine <==> token in Owned(next.pool) {
      BothOwn(j.pool, next.pool, token);
    }
  }

  lemma MineIsThere(j: Joint)
    requires Coupled(j)
    ensures forall token <- j.mine :: token in j.pool.directory
  {
    OwnedIs(j.pool);
    hide P.Balanced, S.Inv, S.OneUser, Owned;
    forall token <- j.mine ensures token in j.pool.directory { assert token in Owned(j.pool); }
  }

  lemma TakingKeepsCoupled(j: Joint, e: P.Step, h: S.HolderId)
    requires Coupled(j) && !IsForeign(e) && Taken(j.pool, e).Some?
    ensures Coupled(OursNext(j, e, h))
  {
    if S.CanCreate(j.host, h, j.me, e.token) {
      P.NextKeepsBalance(j.pool, e);
      DirectoryStep(j.pool, e);
      CreateMine(j, h, e.token);
      MineIsThere(j);
      var next := OursNext(j, e, h);
      assert next.pool == P.Next(j.pool, e) && next.mine == j.mine[e.token := h];
      hide P.Next, S.Next, S.CanCreate, P.Balanced, S.Inv, S.OneUser, OursNext;
      CoupledAfter(j, next);
    }
  }

  lemma CreateMine(j: Joint, h: S.HolderId, token: P.Token)
    requires Coupled(j) && S.CanCreate(j.host, h, j.me, token)
    ensures var next := S.Next(j.host, S.Create(h, j.me, token));
            && S.Inv(next) && S.OneUser(next) && next.files.Keys == j.host.files.Keys + {token}
            && next.maxTokens == j.host.maxTokens && next.live == j.host.live
            && h in next.holders && next.holders[h] == S.Hold(token, j.me)
            && forall t <- j.mine :: j.mine[t] in next.holders && next.holders[j.mine[t]] == S.Hold(t, j.me)
  {
    hide Owned, P.Balanced;
    S.NextKeepsInv(j.host, S.Create(h, j.me, token));
  }

  lemma FreeingKeepsCoupled(j: Joint, e: P.Step, h: S.HolderId)
    requires Coupled(j) && !IsForeign(e) && Taken(j.pool, e).None? && Freed(j.pool, e).Some?
    ensures Coupled(OursNext(j, e, h))
  {
    hide Freed;
    P.NextKeepsBalance(j.pool, e);
    DirectoryStep(j.pool, e);
    MineIsThere(j);
    var token := Freed(j.pool, e).value;
    if token in j.mine {
      ReleaseMine(j, token);
    } else {
      FreedIsMine(j, e);
    }
    var next := OursNext(j, e, h);
    assert next.pool == P.Next(j.pool, e);
    hide P.Next, S.Next, P.Balanced, S.Inv, S.OneUser, OursNext;
    CoupledAfter(j, next);
  }

  /** A token the pool frees is one of its own, or there is no such file. */
  lemma FreedIsMine(j: Joint, e: P.Step)
    requires Coupled(j) && !IsForeign(e) && Taken(j.pool, e).None? && Freed(j.pool, e).Some?
    ensures Freed(j.pool, e).value in j.mine || Freed(j.pool, e).value !in j.pool.directory
  {
    hide Freed;
    P.NextKeepsBalance(j.pool, e);
    DirectoryStep(j.pool, e);
    hide P.Next, P.Balanced, Owned;
    BothOwn(j.pool, P.Next(j.pool, e), Freed(j.pool, e).value);
  }

  lemma OtherwiseKeepsCoupled(j: Joint, e: P.Step, h: S.HolderId)
    requires Coupled(j) && !IsForeign(e) && Taken(j.pool, e).None? && Freed(j.pool, e).None?
    ensures Coupled(OursNext(j, e, h))
  {
    hide Freed;
    P.NextKeepsBalance(j.pool, e);
    DirectoryStep(j.pool, e);
    MineIsThere(j);
    var next := OursNext(j, e, h);
    assert next.pool == P.Next(j.pool, e);
    hide P.Next, S.Next, P.Balanced, S.Inv, S.OneUser, OursNext;
    CoupledAfter(j, next);
  }

  lemma ReleaseMine(j: Joint, token: P.Token)
    requires Coupled(j) && token in j.mine
    ensures var next := S.Next(j.host, S.Release(j.mine[token]));
            && S.Inv(next) && S.OneUser(next) && next.files == j.host.files - {token}
            && next.maxTokens == j.host.maxTokens && next.live == j.host.live
            && forall t <- j.mine :: t != token ==> j.mine[t] in next.holders && next.holders[j.mine[t]] == S.Hold(t, j.me)
  {
    hide Owned, P.Balanced;
    S.NextKeepsInv(j.host, S.Release(j.mine[token]));
  }

  lemma TheirsKeepsHost(j: Joint, step: S.Step)
    requires Coupled(j) && Permitted(j, step)
    ensures var next := S.Next(j.host, step);
            && S.Inv(next) && S.OneUser(next) && j.me in next.live && next.maxTokens == j.host.maxTokens
            && forall t <- j.mine :: j.mine[t] in next.holders && next.holders[j.mine[t]] == S.Hold(t, j.me)
  {
    hide Owned, P.Balanced;
    S.NextKeepsInv(j.host, step);
    assert step == [step][0];
  }

  /** The directory changes as the pool sees it change. */
  lemma TheirsFiles(j: Joint, step: S.Step)
    requires Coupled(j) && Permitted(j, step)
    ensures var keys := S.Next(j.host, step).files.Keys;
            match PoolStep(j.host, step)
            case None => keys == j.host.files.Keys
            case Some(ForeignTake(i)) => i !in j.host.files && i < j.host.maxTokens && keys == j.host.files.Keys + {i}
            case Some(ForeignRelease(i)) => i in j.host.files && i !in j.mine && keys == j.host.files.Keys - {i}
            case Some(_) => false
  {
    hide Owned, P.Balanced;
    NotMine(j, step);
    assert step == [step][0];
  }

  lemma TheirsKeepsCoupled(j: Joint, step: S.Step)
    requires Coupled(j) && Permitted(j, step)
    ensures Coupled(Next(j, Theirs(step)))
  {
    hide P.Next, S.Next, Owned, P.Balanced, PoolStep, Permitted;
    TheirsKeepsHost(j, step);
    TheirsFiles(j, step);
    var e := PoolStep(j.host, step);
    if e.Some? {
      P.NextKeepsBalance(j.pool, e.value);
      ForeignStep(j.pool, e.value);
    }
  }

  lemma {:induction false} RunKeepsCoupled(j: Joint, steps: seq<Step>)
    requires Coupled(j)
    ensures Coupled(Run(j, steps)) && Run(j, steps).host.maxTokens == j.host.maxTokens && Run(j, steps).me == j.me
    decreases |steps|
  {
    hide Coupled, Next, Permitted;
    if steps != [] {
      var front, step := steps[..|steps| - 1], steps[|steps| - 1];
      RunKeepsCoupled(j, front);
      NextKeepsCoupled(Run(j, front), step);
    }
  }

  lemma NextKeepsCoupled(j: Joint, step: Step)
    requires Coupled(j)
    ensures Coupled(Next(j, step)) && Next(j, step).host.maxTokens == j.host.maxTokens && Next(j, step).me == j.me
  {
    hide Coupled, Permitted, P.Next, Taken, Freed, PoolStep;
    match step
    case Ours(e, h) => if !IsForeign(e) { OursKeepsCoupled(j, e, h); }
    case Theirs(s) => if Permitted(j, s) { TheirsKeepsCoupled(j, s); }
  }

  // ---- Refinement ----

  function Pools(j: Joint, steps: seq<Step>): seq<P.Step>
    decreases |steps|
  {
    if steps == [] then []
    else
      var before, step := Run(j, steps[..|steps| - 1]), steps[|steps| - 1];
      Pools(j, steps[..|steps| - 1]) + if Next(before, step).pool == before.pool then [] else [PoolPart(before, step)]
  }

  function PoolPart(j: Joint, step: Step): P.Step {
    match step
    case Ours(e, _) => e
    case Theirs(s) => if PoolStep(j.host, s).Some? then PoolStep(j.host, s).value else P.DrainStart
  }

  lemma PartIsStep(j: Joint, step: Step)
    ensures Next(j, step).pool == j.pool || Next(j, step).pool == P.Next(j.pool, PoolPart(j, step))
  {
    hide P.Next, S.Next, Permitted, PoolStep, Taken, Freed;
  }

  /** Seen from the pool, a joint run is a run of the pool machine, the sweeps being releases by others. */
  lemma {:induction false} PoolFollows(j: Joint, steps: seq<Step>)
    ensures Run(j, steps).pool == P.Run(j.pool, Pools(j, steps))
    decreases |steps|
  {
    hide Next, P.Next, PoolPart;
    if steps != [] {
      var front, step := steps[..|steps| - 1], steps[|steps| - 1];
      PoolFollows(j, front);
      PartIsStep(Run(j, front), step);
      var part := PoolPart(Run(j, front), step);
      assert Pools(j, front) + [] == Pools(j, front);
      assert (Pools(j, front) + [part])[..|Pools(j, front)|] == Pools(j, front);
    }
  }

  /**
   The pool's bound with sweeps and crashes of others going on: in every reachable joint state its sessions
   are at most maxTokens, and the file of every token it owns is there with this process's pid on it, so no
   sweep by anybody takes it.
   */
  lemma PoolBoundOnHost(j: Joint, steps: seq<Step>)
    requires Coupled(j)
    ensures var now := Run(j, steps);
            && |now.pool.idle| + P.SessionsOfBusy(now.pool.busy) <= now.host.maxTokens
            && (forall token <- Owned(now.pool) ::
                  && Owned(now.pool)[token] == 1 && token in now.mine && token in now.host.files
                  && now.host.files[token] == S.File(now.mine[token], S.Owner(now.me)))
            && (forall token <- Owned(now.pool), sweeper :: token in S.Next(now.host, S.Sweep(sweeper, token)).files)
  {
    hide Run, Coupled, Owned;
    RunKeepsCoupled(j, steps);
    CoupledBound(Run(j, steps));
  }

  lemma CoupledBound(j: Joint)
    requires Coupled(j)
    ensures |j.pool.idle| + P.SessionsOfBusy(j.pool.busy) <= j.host.maxTokens
    ensures forall token <- Owned(j.pool) ::
              && Owned(j.pool)[token] == 1 && token in j.mine && token in j.host.files
              && j.host.files[token] == S.File(j.mine[token], S.Owner(j.me))
    ensures forall token <- Owned(j.pool), sweeper :: token in S.Next(j.host, S.Sweep(sweeper, token)).files
  {
    hide P.Balanced, P.TokensOf, P.TokensOfBusy, P.Next;
    OwnedIs(j.pool);
    assert P.Run(j.pool, []) == j.pool;
    P.PoolBound(j.pool, []);
    hide Owned;
    forall token <- Owned(j.pool), sweeper ensures token in S.Next(j.host, S.Sweep(sweeper, token)).files {
      assert token in j.mine;
    }
  }
}
