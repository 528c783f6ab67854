/**
 The SSH session pool: idle sessions, the sessions its threads work with, and the semaphore tokens that
 all of them own.  Tokens are counted, so the law is a balance: nothing is lost and nothing owned twice.
 Sweeps of stale tokens appear here only as tokens of others going away; that none of this pool's ever goes
 that way is what the semaphore's premises are needed for, and is proved in PoolOnHost.
 */
module Pool {
  import opened Basics

  type SessionId = nat
  type Token = nat   // index of a token file

  datatype Lease = Lease(session: SessionId, token: Token)

  /** What a thread of the process is doing with sessions that are not idle. */
  datatype Activity =
    | Connecting(lease: Lease)
    | Working(lease: Lease)
    | Draining(leases: seq<Lease>)   // close_all after it took the idle list

  /**
   `directory`: the indices that have a token file.  `foreign`: those owned by other pools and processes.
   `leaked`: those this pool owns but has no session for any more.
   */
  datatype State = State(
    maxSessions: nat,
    reuseSessions: bool,
    directory: set<Token>,
    idle: seq<Lease>,
    busy: seq<Activity>,
    leaked: multiset<Token>,
    foreign: multiset<Token>)

  /** The steps of all threads and processes; whether a session is healthy and a close raises is anybody's guess. */
  datatype Step =
    | PopIdle(healthy: bool, closeRaises: bool)
    | TakeToken(session: SessionId, token: Token)
    | Connected(thread: nat)
    | ConnectFailed(thread: nat)
    | CommandFailed(thread: nat, closeRaises: bool)
    | Finish(thread: nat, healthy: bool, closeRaises: bool)
    | DrainStart
    | DrainOne(thread: nat, closeRaises: bool)
    | ForeignTake(token: Token)
    | ForeignRelease(token: Token)

  function Without<T>(s: seq<T>, k: nat): seq<T>
    requires k < |s|
  {
    s[..k] + s[k + 1..]
  }

  /** discard: close, then release; a close that raises skips the release. */
  function Discard(s: State, token: Token, closeRaises: bool): State {
    if closeRaises then s.(leaked := s.leaked + multiset{token}) else s.(directory := s.directory - {token})
  }

  function TokensOf(leases: seq<Lease>): multiset<Token> {
    if leases == [] then multiset{} else multiset{leases[0].token} + TokensOf(leases[1..])
  }

  function TokensOfActivity(a: Activity): multiset<Token> {
    match a
    case Connecting(lease) => multiset{lease.token}
    case Working(lease) => multiset{lease.token}
    case Draining(leases) => TokensOf(leases)
  }

  function TokensOfBusy(busy: seq<Activity>): multiset<Token> {
    if busy == [] then multiset{} else TokensOfActivity(busy[0]) + TokensOfBusy(busy[1..])
  }

  function Next(s: State, e: Step): State {
    match e
    case PopIdle(healthy, closeRaises) =>
      if s.idle == [] then s
      else
        var lease := s.idle[|s.idle| - 1];
        var popped := s.(idle := s.idle[..|s.idle| - 1]);
        if healthy then popped.(busy := s.busy + [Working(lease)]) else Discard(popped, lease.token, closeRaises)
    case TakeToken(session, token) =>
      if token in s.directory || token >= s.maxSessions then s
      else s.(directory := s.directory + {token}, busy := s.busy + [Connecting(Lease(session, token))])
    case Connected(t) =>
      if t < |s.busy| && s.busy[t].Connecting? then s.(busy := s.busy[t := Working(s.busy[t].lease)]) else s
    case ConnectFailed(t) =>
      // the token goes before the session is closed
      if t < |s.busy| && s.busy[t].Connecting?
      then s.(busy := Without(s.busy, t), directory := s.directory - {s.busy[t].lease.token}) else s
    case CommandFailed(t, closeRaises) =>
      if t < |s.busy| && s.busy[t].Working?
      then Discard(s.(busy := Without(s.busy, t)), s.busy[t].lease.token, closeRaises) else s
    case Finish(t, healthy, closeRaises) =>
      if t < |s.busy| && s.busy[t].Working? then
        var lease, rest := s.busy[t].lease, s.(busy := Without(s.busy, t));
        if s.reuseSessions && healthy then rest.(idle := s.idle + [lease]) else Discard(rest, lease.token, closeRaises)
      else s
    case DrainStart => s.(idle := [], busy := s.busy + [Draining(s.idle)])
    case DrainOne(t, closeRaises) =>
      if t < |s.busy| && s.busy[t].Draining? then
        var leases := s.busy[t].leases;
        if leases == [] then s.(busy := Without(s.busy, t))
        else if closeRaises then s.(busy := Without(s.busy, t), leaked := s.leaked + TokensOf(leases))
        else s.(busy := s.busy[t := Draining(leases[1..])], directory := s.directory - {leases[0].token})
      else s
    case ForeignTake(token) =>
      if token in s.directory || token >= s.maxSessions then s
      else s.(directory := s.directory + {token}, foreign := s.foreign + multiset{token})
    case ForeignRelease(token) =>
      if token in s.foreign then s.(directory := s.directory - {token}, foreign := s.foreign - multiset{token}) else s
  }

  function Run(s: State, steps: seq<Step>): State
    decreases |steps|
  {
    if steps == [] then s else Next(Run(s, steps[..|steps| - 1]), steps[|steps| - 1])
  }

  /** Every token file has exactly one owner, and every owner its token file. */
  ghost predicate Balanced(s: State) {
    && TokensOf(s.idle) + TokensOfBusy(s.busy) + s.leaked + s.foreign == multiset(s.directory)
    && forall token <- s.directory :: token < s.maxSessions
  }

  // ---- Counting ----

  lemma {:induction false} TokensOfConcat(a: seq<Lease>, b: seq<Lease>)
    ensures TokensOf(a + b) == TokensOf(a) + TokensOf(b)
  {
    if a == [] {
      assert a + b == b;
    } else {
      assert (a + b)[1..] == a[1..] + b;
      TokensOfConcat(a[1..], b);
    }
  }

  lemma {:induction false} TokensOfBusyConcat(a: seq<Activity>, b: seq<Activity>)
    ensures TokensOfBusy(a + b) == TokensOfBusy(a) + TokensOfBusy(b)
  {
    if a == [] {
      assert a + b == b;
    } else {
      assert (a + b)[1..] == a[1..] + b;
      TokensOfBusyConcat(a[1..], b);
    }
  }

  lemma TokensOfLast(leases: seq<Lease>, lease: Lease)
    ensures TokensOf(leases + [lease]) == TokensOf(leases) + multiset{lease.token}
  {
    TokensOfConcat(leases, [lease]);
  }

  lemma TokensOfBusyLast(busy: seq<Activity>, a: Activity)
    ensures TokensOfBusy(busy + [a]) == TokensOfBusy(busy) + TokensOfActivity(a)
  {
    TokensOfBusyConcat(busy, [a]);
    assert TokensOfBusy([a]) == TokensOfActivity(a);
  }

  lemma TokensOfBusyAt(busy: seq<Activity>, k: nat, a: Activity)
    requires k < |busy|
    ensures TokensOfBusy(busy) == TokensOfBusy(Without(busy, k)) + TokensOfActivity(busy[k])
    ensures TokensOfBusy(busy[k := a]) == TokensOfBusy(Without(busy, k)) + TokensOfActivity(a)
  {
    hide TokensOfBusy, TokensOfActivity;
    Around(busy[..k], busy[k], busy[k + 1..]);
    Around(busy[..k], a, busy[k + 1..]);
    assert busy == busy[..k] + [busy[k]] + busy[k + 1..];
    assert busy[k := a] == busy[..k] + [a] + busy[k + 1..];
  }

  lemma Around(left: seq<Activity>, a: Activity, right: seq<Activity>)
    ensures TokensOfBusy(left + [a] + right) == TokensOfBusy(left + right) + TokensOfActivity(a)
  {
    hide TokensOfBusy, TokensOfActivity;
    TokensOfBusyLast(left, a);
    TokensOfBusyConcat(left + [a], right);
    TokensOfBusyConcat(left, right);
  }

  /** Making a token's file adds it to what is owned. */
  lemma Linked(directory: set<Token>, token: Token)
    requires token !in directory
    ensures multiset(directory + {token}) == multiset(directory) + multiset{token}
  {
    forall t ensures multiset(directory + {token})[t] == (multiset(directory) + multiset{token})[t] {}
  }

  /** Taking one owned token's file away keeps the balance of the rest. */
  lemma Unlinked(directory: set<Token>, token: Token, rest: multiset<Token>)
    requires multiset{token} + rest == multiset(directory)
    ensures rest == multiset(directory - {token}) && token in directory
  {
    assert (multiset{token} + rest)[token] >= 1;
    forall t ensures rest[t] == multiset(directory - {token})[t] {
      assert (multiset{token} + rest)[t] == multiset(directory)[t];
    }
  }

  // ---- Conservation ----

  lemma DiscardKeepsBalance(s: State, token: Token, closeRaises: bool, rest: multiset<Token>)
    requires TokensOf(s.idle) + TokensOfBusy(s.busy) + s.leaked + s.foreign == rest
    requires multiset{token} + rest == multiset(s.directory) && forall t <- s.directory :: t < s.maxSessions
    ensures Balanced(Discard(s, token, closeRaises))
  {
    Unlinked(s.directory, token, rest);
  }

  lemma NextKeepsBalance(s: State, e: Step)
    requires Balanced(s)
    ensures Balanced(Next(s, e)) && Next(s, e).maxSessions == s.maxSessions
  {
    hide Balanced, Without;
    match e
    case PopIdle(healthy, closeRaises) => PopKeepsBalance(s, healthy, closeRaises);
    case TakeToken(session, token) => TakeKeepsBalance(s, session, token);
    case Connected(t) => ConnectedKeepsBalance(s, t);
    case ConnectFailed(t) => if t < |s.busy| { ThreadEnds(s, t, false); }
    case CommandFailed(t, closeRaises) => if t < |s.busy| { ThreadEnds(s, t, closeRaises); }
    case Finish(t, healthy, closeRaises) =>
      if t < |s.busy| && s.busy[t].Working? {
        ThreadEnds(s, t, closeRaises);
        ReturnKeepsBalance(s, t);
      }
    case DrainStart => DrainStartKeepsBalance(s);
    case DrainOne(t, closeRaises) => if t < |s.busy| && s.busy[t].Draining? { DrainKeepsBalance(s, t, closeRaises); }
    case ForeignTake(token) => ForeignKeepsBalance(s, token);
    case ForeignRelease(token) => ForeignKeepsBalance(s, token);
  }

  lemma PopKeepsBalance(s: State, healthy: bool, closeRaises: bool)
    requires Balanced(s)
    ensures Balanced(Next(s, PopIdle(healthy, closeRaises)))
  {
    hide TokensOf, TokensOfBusy, Discard;
    if s.idle != [] {
      var lease, front := s.idle[|s.idle| - 1], s.idle[..|s.idle| - 1];
      assert s.idle == front + [lease];
      TokensOfLast(front, lease);
      if healthy {
        TokensOfBusyLast(s.busy, Working(lease));
      } else {
        DropKeepsBalance(s.(idle := front), lease.token, closeRaises);
      }
    }
  }

  lemma TakeKeepsBalance(s: State, session: SessionId, token: Token)
    requires Balanced(s)
    ensures Balanced(Next(s, TakeToken(session, token)))
  {
    hide TokensOf, TokensOfBusy;
    TokensOfBusyLast(s.busy, Connecting(Lease(session, token)));
    if token !in s.directory { Linked(s.directory, token); }
  }

  lemma ConnectedKeepsBalance(s: State, t: nat)
    requires Balanced(s)
    ensures Balanced(Next(s, Connected(t)))
  {
    hide TokensOf, TokensOfBusy;
    if t < |s.busy| && s.busy[t].Connecting? { TokensOfBusyAt(s.busy, t, Working(s.busy[t].lease)); }
  }

  lemma ReturnKeepsBalance(s: State, t: nat)
    requires Balanced(s) && t < |s.busy| && s.busy[t].Working?
    ensures Balanced(s.(busy := Without(s.busy, t), idle := s.idle + [s.busy[t].lease]))
  {
    hide TokensOf, TokensOfBusy;
    TokensOfBusyAt(s.busy, t, s.busy[t]);
    TokensOfLast(s.idle, s.busy[t].lease);
  }

  lemma ForeignKeepsBalance(s: State, token: Token)
    requires Balanced(s)
    ensures Balanced(Next(s, ForeignTake(token))) && Balanced(Next(s, ForeignRelease(token)))
  {
    hide TokensOf, TokensOfBusy;
    if token !in s.directory { Linked(s.directory, token); }
    if token in s.foreign {
      Unlinked(s.directory, token,
               TokensOf(s.idle) + TokensOfBusy(s.busy) + s.leaked + (s.foreign - multiset{token}));
    }
  }

  lemma DropKeepsBalance(s: State, token: Token, closeRaises: bool)
    requires TokensOf(s.idle) + multiset{token} + TokensOfBusy(s.busy) + s.leaked + s.foreign == multiset(s.directory)
    requires forall t <- s.directory :: t < s.maxSessions
    ensures Balanced(Discard(s, token, closeRaises))
  {
    hide TokensOf, TokensOfBusy;
    DiscardKeepsBalance(s, token, closeRaises, TokensOf(s.idle) + TokensOfBusy(s.busy) + s.leaked + s.foreign);
  }

  lemma ThreadEnds(s: State, t: nat, closeRaises: bool)
    requires Balanced(s) && t < |s.busy|
    ensures !s.busy[t].Draining? ==> Balanced(Discard(s.(busy := Without(s.busy, t)), s.busy[t].lease.token, closeRaises))
  {
    hide TokensOf, TokensOfBusy;
    TokensOfBusyAt(s.busy, t, s.busy[t]);
    if !s.busy[t].Draining? {
      DropKeepsBalance(s.(busy := Without(s.busy, t)), s.busy[t].lease.token, closeRaises);
    }
  }

  lemma DrainStartKeepsBalance(s: State)
    requires Balanced(s)
    ensures Balanced(Next(s, DrainStart))
  {
    hide TokensOfBusy;
    TokensOfBusyLast(s.busy, Draining(s.idle));
  }

  lemma DrainKeepsBalance(s: State, t: nat, closeRaises: bool)
    requires Balanced(s) && t < |s.busy| && s.busy[t].Draining?
    ensures Balanced(Next(s, DrainOne(t, closeRaises)))
  {
    var leases := s.busy[t].leases;
    assert leases == [] ==> TokensOf(leases) == multiset{};
    assert leases != [] ==> TokensOf(leases) == multiset{leases[0].token} + TokensOf(leases[1..]);
    hide TokensOf, Balanced, Without;
    DrainStopKeepsBalance(s, t);
    if leases != [] { DrainNextKeepsBalance(s, t, leases[0], leases[1..]); }
  }

  lemma DrainStopKeepsBalance(s: State, t: nat)
    requires Balanced(s) && t < |s.busy| && s.busy[t].Draining?
    ensures Balanced(s.(busy := Without(s.busy, t), leaked := s.leaked + TokensOf(s.busy[t].leases)))
    ensures s.busy[t].leases == [] ==> Balanced(s.(busy := Without(s.busy, t)))
  {
    hide TokensOfBusy, Without;
    TokensOfBusyAt(s.busy, t, s.busy[t]);
    if s.busy[t].leases == [] { assert s.leaked + multiset{} == s.leaked; }
  }

  lemma DrainNextKeepsBalance(s: State, t: nat, first: Lease, rest: seq<Lease>)
    requires Balanced(s) && t < |s.busy| && s.busy[t].Draining?
    requires TokensOf(s.busy[t].leases) == multiset{first.token} + TokensOf(rest)
    ensures Balanced(s.(busy := s.busy[t := Draining(rest)], directory := s.directory - {first.token}))
  {
    hide TokensOf, TokensOfBusy, Without;
    var next := Draining(rest);
    TokensOfBusyAt(s.busy, t, next);
    Unlinked(s.directory, first.token, TokensOf(s.idle) + TokensOfBusy(s.busy[t := next]) + s.leaked + s.foreign);
  }

  /**
   Conservation over every interleaving of threads, other processes, failures and raising closes, as long as
   others remove only their own tokens (PoolOnHost: one user, creation and sweep single steps).
   */
  lemma {:induction false} RunKeepsBalance(s: State, steps: seq<Step>)
    requires Balanced(s)
    ensures Balanced(Run(s, steps)) && Run(s, steps).maxSessions == s.maxSessions
    decreases |steps|
  {
    hide Next, Balanced;
    if steps != [] {
      RunKeepsBalance(s, steps[..|steps| - 1]);
      NextKeepsBalance(Run(s, steps[..|steps| - 1]), steps[|steps| - 1]);
    }
  }

  function SessionsOf(a: Activity): nat { if a.Draining? then |a.leases| else 1 }

  function SessionsOfBusy(busy: seq<Activity>): nat {
    if busy == [] then 0 else SessionsOf(busy[0]) + SessionsOfBusy(busy[1..])
  }

  lemma {:induction false} OneTokenASession(leases: seq<Lease>)
    ensures |TokensOf(leases)| == |leases|
  {
    if leases != [] { OneTokenASession(leases[1..]); }
  }

  lemma {:induction false} OneTokenABusySession(busy: seq<Activity>)
    ensures |TokensOfBusy(busy)| == SessionsOfBusy(busy)
  {
    if busy != [] {
      OneTokenABusySession(busy[1..]);
      if busy[0].Draining? { OneTokenASession(busy[0].leases); }
    }
  }

  lemma {:induction false} AtMost(directory: set<Token>, n: nat)
    requires forall token <- directory :: token < n
    ensures |directory| <= n
    decreases n
  {
    if n == 0 {
      assert directory == {};
    } else {
      AtMost(directory - {n - 1}, n - 1);
      assert directory <= (directory - {n - 1}) + {n - 1};
      assert |directory| <= |(directory - {n - 1}) + {n - 1}|;
    }
  }

  /**
   In every reachable state, under the same premise: idle and busy sessions of this pool are at most maxSessions, no token is
   owned twice, by one of them or by anybody else, and each has its file.
   */
  lemma PoolBound(s: State, steps: seq<Step>)
    requires Balanced(s)
    ensures var now := Run(s, steps);
            var owned := TokensOf(now.idle) + TokensOfBusy(now.busy);
            && |now.idle| + SessionsOfBusy(now.busy) <= s.maxSessions
            && (forall token :: owned[token] + now.leaked[token] + now.foreign[token]
                                == if token in now.directory then 1 else 0)
  {
    hide TokensOf, TokensOfBusy;
    RunKeepsBalance(s, steps);
    var now := Run(s, steps);
    OneTokenASession(now.idle);
    OneTokenABusySession(now.busy);
    AtMost(now.directory, s.maxSessions);
    var owned := TokensOf(now.idle) + TokensOfBusy(now.busy);
    assert owned + now.leaked + now.foreign == multiset(now.directory);
    assert |multiset(now.directory)| == |now.directory|;
    forall token ensures owned[token] + now.leaked[token] + now.foreign[token]
                         == if token in now.directory then 1 else 0 {
      assert (owned + now.leaked + now.foreign)[token] == multiset(now.directory)[token];
    }
  }

  /** The step closes a session that then does not come back, and the close raises. */
  predicate RaisesWhileClosing(s: State, e: Step) {
    match e
    case PopIdle(healthy, closeRaises) => s.idle != [] && !healthy && closeRaises
    case CommandFailed(t, closeRaises) => t < |s.busy| && s.busy[t].Working? && closeRaises
    case Finish(t, healthy, closeRaises) =>
      t < |s.busy| && s.busy[t].Working? && !(s.reuseSessions && healthy) && closeRaises
    case DrainOne(t, closeRaises) => t < |s.busy| && s.busy[t].Draining? && s.busy[t].leases != [] && closeRaises
    case _ => false
  }

  /** A token leaks exactly when a session's close raises; a failed connect never leaks. */
  lemma LeaksExactlyWhenCloseRaises(s: State, e: Step)
    ensures Next(s, e).leaked != s.leaked <==> RaisesWhileClosing(s, e)
    ensures s.leaked <= Next(s, e).leaked
  {
    forall m: multiset<Token>, t: Token ensures (m + multiset{t})[t] != m[t] {}
  }

  // ---- The pool as the source runs it, one thread at a time ----

  function TokenSet(leases: seq<Lease>): set<Token> { set lease <- leases :: lease.token }

  lemma TokensAtEnds(leases: seq<Lease>)
    ensures leases[|leases|..] == [] && leases[0..] == leases && leases[..0] == []
    ensures TokensOf([]) == multiset{} && TokenSet([]) == {}
  {
  }

  lemma TokenSetNext(leases: seq<Lease>, k: nat)
    requires k < |leases|
    ensures TokenSet(leases[k..]) == {leases[k].token} + TokenSet(leases[k + 1..])
    ensures TokenSet(leases[..k + 1]) == TokenSet(leases[..k]) + {leases[k].token}
  {
    assert leases[k..] == [leases[k]] + leases[k + 1..];
    assert leases[..k + 1] == leases[..k] + [leases[k]];
  }

  /** The idle sessions from `k` on are gone, closed and released, ... */
  function ClosedFrom(s: State, k: nat): State
    requires k <= |s.idle|
  {
    s.(idle := s.idle[..k], directory := s.directory - TokenSet(s.idle[k..]))
  }

  /** ... and the one before them as well: handed out, or leaked by a close that raises. */
  function PoppedAt(s: State, k: nat, raised: bool): State
    requires k < |s.idle|
  {
    var rest := ClosedFrom(s, k + 1).(idle := s.idle[..k]);
    if raised then rest.(leaked := s.leaked + multiset{s.idle[k].token})
    else rest.(busy := s.busy + [Working(s.idle[k])])
  }

  lemma PopNext(s: State, k: nat)
    requires k < |s.idle|
    ensures Next(ClosedFrom(s, k + 1), PopIdle(true, false)) == PoppedAt(s, k, false)
    ensures Next(ClosedFrom(s, k + 1), PopIdle(false, true)) == PoppedAt(s, k, true)
    ensures Next(ClosedFrom(s, k + 1), PopIdle(false, false)) == ClosedFrom(s, k)
  {
    hide TokenSet;
    TokenSetNext(s.idle, k);
    assert s.idle[..k + 1][..k] == s.idle[..k];
  }

  /** One round of the loop is one step of the machine. */
  lemma PopHere(before: State, after: State, healthy: bool, closeRaises: bool)
    requires before.idle != []
    requires var last, popped := before.idle[|before.idle| - 1], before.(idle := before.idle[..|before.idle| - 1]);
             after == if healthy then popped.(busy := before.busy + [Working(last)]) else Discard(popped, last.token, closeRaises)
    ensures after == Next(before, PopIdle(healthy, closeRaises))
  {
    hide Discard;
  }

  lemma NoneClosed(s: State)
    ensures ClosedFrom(s, |s.idle|) == s
  {
    TokensAtEnds(s.idle);
    assert s.directory - {} == s.directory;
  }

  class SshSessionPool {
    var idle: seq<Lease>
    var directory: set<Token>
    const maxSessions: nat
    const reuseSessions: bool
    var sessionsMade: SessionId
    ghost var busy: seq<Activity>
    ghost var leaked: multiset<Token>
    ghost var foreign: multiset<Token>

    ghost function Now(): State
      reads this
    {
      State(maxSessions, reuseSessions, directory, idle, busy, leaked, foreign)
    }

    constructor (maxSessions: nat, reuseSessions: bool)
      ensures Balanced(Now()) && Now() == State(maxSessions, reuseSessions, {}, [], [], multiset{}, multiset{})
    {
      this.maxSessions, this.reuseSessions := maxSessions, reuseSessions;
      idle, directory, sessionsMade := [], {}, 0;
      busy, leaked, foreign := [], multiset{}, multiset{};
    }

    /** The session is closed and its token released, unless the close raises. */
    method Close(token: Token) returns (raised: bool)
      modifies this`directory, this`leaked
      ensures Now() == Discard(old(Now()), token, raised)
    {
      raised := *;
      if raised {
        leaked := leaked + multiset{token};
      } else {
        directory := directory - {token};
      }
    }

    /** Exclusive creation of the first free token file; none only when all are taken. */
    method AcquireToken() returns (token: Option<Token>)
      modifies this`directory
      ensures token.Some? ==> token.value < maxSessions && token.value !in old(directory)
                              && directory == old(directory) + {token.value}
      ensures token.None? ==> directory == old(directory)
      ensures forall i :: 0 <= i < (if token.Some? then token.value else maxSessions) ==> i in old(directory)
    {
      token := None;
      var i := 0;
      while i < maxSessions
        invariant directory == old(directory) && i <= maxSessions
        invariant forall j :: 0 <= j < i ==> j in directory
      {
        if i !in directory {
          directory := directory + {i};
          return Some(i);
        }
        i := i + 1;
      }
    }

    /**
     The last idle session that is among the healthy ones.  The unhealthy ones behind it are closed and their
     tokens released, up to one whose close raises: that one's token leaks and the idle ones before it stay.
     */
    method TakeIdle(healthy: set<SessionId>) returns (lease: Option<Lease>, raised: bool, ghost log: seq<Step>)
      modifies this`idle, this`directory, this`busy, this`leaked
      ensures Now() == Run(old(Now()), log) && |idle| <= |old(idle)|
      ensures lease.None? && !raised ==> idle == [] && Now() == ClosedFrom(old(Now()), 0)
      ensures lease.Some? || raised ==> |idle| < |old(idle)| && Now() == PoppedAt(old(Now()), |idle|, raised)
      ensures lease.Some? ==> !raised && lease.value == old(idle)[|idle|]
      ensures forall k :: |idle| <= k < |old(idle)| ==>
                (old(idle)[k].session in healthy <==> k == |idle| && lease.Some?)
    {
      hide Run, Next, TokenSet, ClosedFrom, PoppedAt;
      ghost var start := Now();
      log, raised := [], false;
      RunNothing(start);
      NoneClosed(start);
      while idle != []
        invariant Now() == Run(start, log) && |idle| <= |start.idle| && Now() == ClosedFrom(start, |idle|)
        invariant idle == start.idle[..|idle|]
        invariant forall k :: |idle| <= k < |start.idle| ==> start.idle[k].session !in healthy
        decreases |idle|
      {
        ghost var before := Now();
        ghost var k := |idle| - 1;
        var last := idle[|idle| - 1];
        PopNext(start, k);
        idle := idle[..|idle| - 1];
        if last.session in healthy {
          busy := busy + [Working(last)];
          PopHere(before, Now(), true, false);
          log := Logged(start, log, before, PopIdle(true, false), Now());
          return Some(last), false, log;
        }
        raised := Close(last.token);
        PopHere(before, Now(), false, raised);
        log := Logged(start, log, before, PopIdle(false, raised), Now());
        if raised {
          return None, true, log;
        }
      }
      lease := None;
    }

    /** A new session, when a token is free and its connect works; a failed connect gives the token back at once. */
    method Connect(works: bool) returns (lease: Option<Lease>, ghost log: seq<Step>)
      modifies this
      ensures Now() == Run(old(Now()), log)
      ensures busy == old(busy) + if lease.Some? then [Working(lease.value)] else []
      ensures foreign == old(foreign) && idle == old(idle) && leaked == old(leaked)
      ensures directory == old(directory) + if lease.Some? then {lease.value.token} else {}
      ensures lease.Some? ==> lease.value.token !in old(directory)
      ensures lease.Some? ==> lease.value.session == old(sessionsMade) < sessionsMade
      ensures lease.Some? <==> works && exists i :: 0 <= i < maxSessions && i !in old(directory)
    {
      hide Run;
      ghost var start := Now();
      log := [];
      RunNothing(start);
      var token := AcquireToken();
      if token.None? {
        return None, log;
      }
      lease := Some(Lease(sessionsMade, token.value));
      sessionsMade := sessionsMade + 1;
      busy := busy + [Connecting(lease.value)];
      log := Logged(start, log, start, TakeToken(lease.value.session, token.value), Now());

      ghost var before := Now();
      ghost var mine := |busy| - 1;
      if !works {
        directory := directory - {token.value};
        busy := busy[..mine];
        log := Logged(start, log, before, ConnectFailed(mine), Now());
        return None, log;
      }
      busy := busy[mine := Working(lease.value)];
      log := Logged(start, log, before, Connected(mine), Now());
    }

    /**
     Of the idle sessions from `left` on, which are idle no more, only the first can be healthy, and then it
     is the one handed out; a session of number `next`, a new one, is handed out only when all were unhealthy.
     */
    static ghost predicate Preferred(
      was: seq<Lease>, left: nat, healthy: set<SessionId>, lease: Option<Lease>, next: SessionId)
    {
      && left <= |was|
      && (forall k :: left <= k < |was| && was[k].session in healthy ==> k == left && lease == Some(was[k]))
      && (lease.Some? ==>
            || (left < |was| && was[left].session in healthy && lease.value == was[left])
            || (left == 0 && (forall k :: 0 <= k < |was| ==> was[k].session !in healthy) && lease.value.session == next))
    }

    /**
     The last healthy idle session; a new one only when no idle one is healthy.  The session handed out is the
     last of the busy ones; without one, nothing is left behind.
     */
    method Acquire(healthy: set<SessionId>, works: bool)
      returns (lease: Option<Lease>, raised: bool, ghost log: seq<Step>)
      modifies this
      ensures Now() == Run(old(Now()), log)
      ensures busy == old(busy) + if lease.Some? then [Working(lease.value)] else []
      ensures foreign == old(foreign) && |idle| <= |old(idle)| && idle == old(idle)[..|idle|]
      ensures !raised ==> leaked == old(leaked)
      ensures lease.Some? ==> !raised
      ensures lease.None? && !raised ==> idle == [] && (works ==> forall i :: 0 <= i < maxSessions ==> i in directory)
      ensures Preferred(old(idle), |idle|, healthy, lease, old(sessionsMade))
    {
      hide Run;
      lease, raised, log := TakeIdle(healthy);
      if lease.None? && !raised {
        ghost var more;
        lease, more := Connect(works);
        RunConcat(old(Now()), log, more);
        log := log + more;
      }
    }

    /** Back to the idle list when it may be reused, else closed. */
    method Release(lease: Lease, healthy: bool, ghost start: State, ghost log: seq<Step>)
      returns (raised: bool, ghost log': seq<Step>)
      requires busy != [] && busy[|busy| - 1] == Working(lease) && Now() == Run(start, log)
      modifies this
      ensures Now() == Run(start, log') && log <= log'
      ensures var rest := old(Now()).(busy := old(busy)[..|old(busy)| - 1]);
              Now() == if reuseSessions && healthy then rest.(idle := rest.idle + [lease]) else Discard(rest, lease.token, raised)
    {
      hide Run;
      ghost var before := Now();
      ghost var mine := |busy| - 1;
      raised := false;
      busy := busy[..mine];
      if reuseSessions && healthy {
        idle := idle + [lease];
      } else {
        raised := Close(lease.token);
      }
      log' := Logged(start, log, before, Finish(mine, healthy, raised), Now());
    }

    /**
     One call: acquire, run the commands, release or discard.  The last healthy idle session is taken, and a
     new one made only when there is none.  The call succeeds exactly when a session was handed out and no
     command raised.  Then a reusable, healthy session goes back to the idle list; after any failure, or when
     it may not be reused, it is closed and its token released, or leaked when that raises.
     */
    method RunCommands(healthy: set<SessionId>, works: bool, commandRaises: seq<bool>, healthyAfter: bool)
      returns (ok: bool, lease: Option<Lease>, raised: bool, ghost taken: nat, ghost log: seq<Step>)
      requires Balanced(Now())
      modifies this
      ensures Now() == Run(old(Now()), log) && Balanced(Now())
      ensures busy == old(busy) && foreign == old(foreign)
      ensures TokensOf(idle) + leaked == multiset(directory) - TokensOfBusy(busy) - foreign
      ensures !raised ==> leaked == old(leaked)
      ensures ok <==> lease.Some? && true !in commandRaises
      ensures taken <= |log|
      ensures var acquired := Run(old(Now()), log[..taken]);
              && acquired.busy == old(busy) + (if lease.Some? then [Working(lease.value)] else [])
              && |acquired.idle| <= |old(idle)| && acquired.idle == old(idle)[..|acquired.idle|]
              && Preferred(old(idle), |acquired.idle|, healthy, lease, old(sessionsMade))
              && (lease.None? ==> Now() == acquired)
              && (lease.Some? ==>
                    var rest := acquired.(busy := old(busy));
                    Now() == if ok && reuseSessions && healthyAfter then rest.(idle := acquired.idle + [lease.value])
                             else Discard(rest, lease.value.token, raised))
    {
      hide Run, Balanced;
      ghost var start := Now();
      lease, raised, log := Acquire(healthy, works);
      taken := |log|;
      ghost var acquired := Now();
      assert log[..taken] == log;
      if lease.None? {
        ok := false;
      } else {
        var failed := false;
        var i := 0;
        while i < |commandRaises| && !failed
          invariant 0 <= i <= |commandRaises|
          invariant failed <==> true in commandRaises[..i]
        {
          failed := commandRaises[i];
          i := i + 1;
        }
        assert failed <==> true in commandRaises by {
          assert !failed ==> commandRaises[..i] == commandRaises;
        }
        assert busy[..|busy| - 1] == start.busy;
        ghost var before := log;
        if failed {
          ghost var mine := |busy| - 1;
          busy := busy[..mine];
          raised := Close(lease.value.token);
          log := Logged(start, log, acquired, CommandFailed(mine, raised), Now());
        } else {
          raised, log := Release(lease.value, healthyAfter, start, log);
        }
        assert log[..taken] == before;
        ok := !failed;
      }
      RunKeepsBalance(start, log);
      BalanceReadOff(Now());
    }

    /** close_all's next session: closed and released, or the rest lost to a close that raises. */
    method DrainFirst(sessions: seq<Lease>, ghost start: State, ghost log: seq<Step>)
      returns (raised: bool, ghost log': seq<Step>)
      requires sessions != [] && busy != [] && busy[|busy| - 1] == Draining(sessions) && Now() == Run(start, log)
      modifies this
      ensures Now() == Run(start, log') && idle == old(idle) && foreign == old(foreign)
      ensures raised ==> busy == old(busy)[..|old(busy)| - 1]
      ensures !raised ==> busy == old(busy)[..|old(busy)| - 1] + [Draining(sessions[1..])] && leaked == old(leaked)
      ensures leaked == old(leaked) + if raised then TokensOf(sessions) else multiset{}
      ensures directory == old(directory) - if raised then {} else {sessions[0].token}
    {
      hide Run, TokensOf;
      ghost var before := Now();
      ghost var mine := |busy| - 1;
      raised := *;
      if raised {
        leaked := leaked + TokensOf(sessions);
        busy := busy[..mine];
      } else {
        directory := directory - {sessions[0].token};
        busy := busy[mine := Draining(sessions[1..])];
      }
      log' := Logged(start, log, before, DrainOne(mine, raised), Now());
    }

    /** The loop of close_all. */
    method DrainAll(sessions: seq<Lease>, ghost start: State, ghost log: seq<Step>)
      returns (raised: bool, closed: nat, ghost log': seq<Step>)
      requires busy != [] && busy[|busy| - 1] == Draining(sessions) && Now() == Run(start, log)
      modifies this
      ensures Now() == Run(start, log') && idle == old(idle) && foreign == old(foreign)
      ensures closed <= |sessions| && (raised <==> closed < |sessions|)
      ensures busy == old(busy)[..|old(busy)| - 1] + if raised then [] else [Draining([])]
      ensures directory == old(directory) - TokenSet(sessions[..closed])
      ensures leaked == old(leaked) + TokensOf(sessions[closed..])
    {
      hide Run, TokensOf, TokenSet, Next;
      raised, closed, log' := false, 0, log;
      TokensAtEnds(sessions);
      while closed < |sessions| && !raised
        invariant Now() == Run(start, log') && idle == old(idle) && foreign == old(foreign)
        invariant closed <= |sessions| && (raised ==> closed < |sessions|)
        invariant busy == old(busy)[..|old(busy)| - 1] + if raised then [] else [Draining(sessions[closed..])]
        invariant directory == old(directory) - TokenSet(sessions[..closed])
        invariant leaked == old(leaked) + if raised then TokensOf(sessions[closed..]) else multiset{}
        decreases |sessions| - closed, !raised
      {
        TokenSetNext(sessions, closed);
        raised, log' := DrainFirst(sessions[closed..], start, log');
        if !raised {
          assert sessions[closed..][1..] == sessions[closed + 1..];
          closed := closed + 1;
        }
      }
    }

    /** Every idle session is closed and its token released, up to the first close that raises; the rest leak. */
    method CloseAll() returns (raised: bool, closed: nat, ghost log: seq<Step>)
      modifies this
      ensures Now() == Run(old(Now()), log) && idle == [] && busy == old(busy) && foreign == old(foreign)
      ensures closed <= |old(idle)| && (raised <==> closed < |old(idle)|)
      ensures directory == old(directory) - TokenSet(old(idle)[..closed])
      ensures leaked == old(leaked) + TokensOf(old(idle)[closed..])
    {
      hide Run, TokensOf, TokenSet;
      ghost var start := Now();
      RunNothing(start);
      var sessions := idle;
      idle := [];
      busy := busy + [Draining(sessions)];
      log := Logged(start, [], start, DrainStart, Now());
      assert busy[..|busy| - 1] == start.busy;
      raised, closed, log := DrainAll(sessions, start, log);
      if !raised {
        ghost var before := Now();
        busy := busy[..|busy| - 1];
        log := Logged(start, log, before, DrainOne(|busy|, false), Now());
      }
    }
  }

  lemma {:induction false} RunConcat(s: State, a: seq<Step>, b: seq<Step>)
    ensures Run(s, a + b) == Run(Run(s, a), b)
    decreases |b|
  {
    hide Next;
    if b == [] {
      assert a + b == a;
    } else {
      RunConcat(s, a, b[..|b| - 1]);
      assert (a + b)[..|a + b| - 1] == a + b[..|b| - 1];
    }
  }

  lemma RunNothing(s: State)
    ensures Run(s, []) == s
  {
  }

  /** A step of the machine, made and noted down. */
  lemma Logged(start: State, log: seq<Step>, before: State, e: Step, after: State) returns (log': seq<Step>)
    requires before == Run(start, log) && after == Next(before, e)
    ensures log' == log + [e] && after == Run(start, log')
  {
    log' := log + [e];
    assert log'[..|log|] == log;
  }

  lemma BalanceReadOff(s: State)
    requires Balanced(s)
    ensures TokensOf(s.idle) + s.leaked == multiset(s.directory) - TokensOfBusy(s.busy) - s.foreign
  {
    hide TokensOf, TokensOfBusy;
  }
}
