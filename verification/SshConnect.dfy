/** The connect loop of an SSH session: bounded retries with exponential backoff. */
module SshConnect {
  import opened Basics

  /** Authentication errors come before the wider class they belong to; `Other` is anything unforeseen. */
  datatype Kind = Authentication | Transient | Other

  /** How one attempt ends.  `closeRaises`: the clean-up after a failure raises as well. */
  datatype Attempt =
    | Established
    | HostKeysRaise                                          // before the attempt's try block
    | ConnectRaises(kind: Kind, closeRaises: bool)
    | ShellRaises(kind: Kind, closeRaises: bool)             // no channel yet
    | BannerRaises(kind: Kind, closeRaises: bool)            // channel open, prompt not seen

  predicate Retryable(a: Attempt) {
    match a
    case Established => false
    case HostKeysRaise => false
    case _ => a.kind == Transient
  }

  function Pow2(n: nat): nat { if n == 0 then 1 else 2 * Pow2(n - 1) }

  function Sum(xs: seq<real>): real { if xs == [] then 0.0 else Sum(xs[..|xs| - 1]) + xs[|xs| - 1] }

  function Pause(base: real, retry: nat): real { base * Pow2(retry) as real }

  /** The pauses before attempts 2, 3, ...: each twice the one before. */
  function Backoffs(base: real, n: nat): seq<real> {
    if n == 0 then [] else Backoffs(base, n - 1) + [Pause(base, n - 1)]
  }

  /** Total backoff before attempt k. */
  lemma {:induction false} TotalBackoff(base: real, n: nat)
    ensures Sum(Backoffs(base, n)) == base * (Pow2(n) as real - 1.0)
  {
    if n > 0 {
      var all := Backoffs(base, n);
      assert all[..|all| - 1] == Backoffs(base, n - 1);
      TotalBackoff(base, n - 1);
      var p := Pow2(n - 1) as real;
      assert base * (p - 1.0) + base * p == base * (2.0 * p - 1.0);
    }
  }

  /** The first pause is the base, each later one twice the one before. */
  predicate Doubling(base: real, pauses: seq<real>) {
    (pauses != [] ==> pauses[0] == base) && forall i :: 0 < i < |pauses| ==> pauses[i] == 2.0 * pauses[i - 1]
  }

  lemma {:induction false} BackoffsDouble(base: real, n: nat)
    ensures |Backoffs(base, n)| == n && Doubling(base, Backoffs(base, n))
  {
    if n > 0 {
      BackoffsDouble(base, n - 1);
      if n > 1 {
        var p := Pow2(n - 2) as real;
        assert Backoffs(base, n - 1)[n - 2] == base * p && Pause(base, n - 1) == base * (2.0 * p) == 2.0 * (base * p);
      }
    }
  }

  lemma NoBackoff(base: real)
    ensures Backoffs(base, 0) == []
  {
  }

  lemma NextBackoff(base: real, n: nat)
    ensures Backoffs(base, n + 1) == Backoffs(base, n) + [Pause(base, n)]
    ensures |Backoffs(base, n)| == n && Doubling(base, Backoffs(base, n))
  {
    BackoffsDouble(base, n);
  }

  /** The attempt a run of `n` ends with: the first that is not worth a retry, or the last allowed. */
  predicate EndsAt(attempts: seq<Attempt>, n: nat, k: nat) {
    && 1 <= k <= n <= |attempts|
    && (forall i :: 0 <= i < k - 1 ==> Retryable(attempts[i]))
    && (k < n ==> !Retryable(attempts[k - 1]))
  }

  lemma EndsOnce(attempts: seq<Attempt>, n: nat, j: nat, k: nat)
    requires EndsAt(attempts, n, j) && EndsAt(attempts, n, k)
    ensures j == k
  {
  }

  class SshCliSession {
    const connectAttempts: nat
    const retryBackoffSeconds: real
    var client: bool            // a client object is held
    var channel: bool           // an open channel is held
    var healthy: bool           // what is_healthy would find out about them
    var prompt: bool
    var connectAttemptsUsed: nat
    var slept: seq<real>

    constructor (connectAttempts: nat, retryBackoffSeconds: real)
      requires connectAttempts >= 1 && retryBackoffSeconds >= 0.0
      ensures this.connectAttempts == connectAttempts && this.retryBackoffSeconds == retryBackoffSeconds
      ensures !client && !channel && slept == []
    {
      this.connectAttempts, this.retryBackoffSeconds := connectAttempts, retryBackoffSeconds;
      client, channel, healthy, prompt, connectAttemptsUsed, slept := false, false, false, false, 0, [];
    }

    predicate IsHealthy()
      reads this
    {
      client && channel && healthy
    }

    /**
     At most connectAttempts tries, a pause after every one that is retried and after no other; on
     failure neither client nor channel stays, save for a failure before the try block, which leaves the
     new client behind.
     */
    method Connect(attempts: seq<Attempt>) returns (error: Option<Attempt>)
      requires connectAttempts >= 1 && |attempts| >= connectAttempts
      modifies this
      ensures old(client && channel && healthy) ==>
                error.None? && client && channel && slept == old(slept) && connectAttemptsUsed == old(connectAttemptsUsed)
      ensures !old(client && channel && healthy) ==>
                var k := connectAttemptsUsed;
                && EndsAt(attempts, connectAttempts, k)
                && error == (if attempts[k - 1].Established? then None else Some(attempts[k - 1]))
                && slept == old(slept) + Backoffs(retryBackoffSeconds, k - 1)
                && (error.None? ==> client && channel && prompt)
                && (error.Some? && !error.value.HostKeysRaise? ==> !client && !channel)
                && (error == Some(HostKeysRaise) ==> client)
      // In terms of the errors themselves: what is tried again is a transient error in the attempt, and that
      // always, short of the last attempt; nothing follows an authentication error or an unforeseen one.
      ensures !old(client && channel && healthy) ==>
                var k := connectAttemptsUsed;
                && 1 <= k <= connectAttempts && |slept| == |old(slept)| + k - 1
                && (forall i :: 0 <= i < k - 1 ==>
                      && (attempts[i].ConnectRaises? || attempts[i].ShellRaises? || attempts[i].BannerRaises?)
                      && attempts[i].kind == Transient)
                && (k < connectAttempts ==>
                      var last := attempts[k - 1];
                      last.Established? || last.HostKeysRaise? || last.kind == Authentication || last.kind == Other)
                && Doubling(retryBackoffSeconds, slept[|old(slept)|..])
    {
      hide Backoffs, Doubling, Pause;
      if IsHealthy() {
        return None;
      }
      NoBackoff(retryBackoffSeconds);
      ghost var before := slept;
      var attempt := 1;
      while true
        invariant 1 <= attempt <= connectAttempts && |before| == |old(slept)| && |slept| == |before| + attempt - 1
        invariant forall i :: 0 <= i < attempt - 1 ==> Retryable(attempts[i])
        invariant slept == before + Backoffs(retryBackoffSeconds, attempt - 1)
        decreases connectAttempts - attempt
      {
        connectAttemptsUsed := attempt;
        client := true;
        NextBackoff(retryBackoffSeconds, attempt - 1);
        assert slept[|before|..] == Backoffs(retryBackoffSeconds, attempt - 1);
        var outcome := attempts[attempt - 1];
        if outcome.HostKeysRaise? {
          return Some(outcome);
        }
        if outcome.Established? {
          channel, prompt := true, true;
          return None;
        }
        if outcome.BannerRaises? {
          channel := true;
        }
        Close(outcome.closeRaises);
        if attempt >= connectAttempts || !Retryable(outcome) {
          return Some(outcome);
        }
        slept := slept + [Pause(retryBackoffSeconds, attempt - 1)];
        attempt := attempt + 1;
      }
    }

    /** close(logout=False) with its own failures swallowed: either way nothing is held any more. */
    method Close(raises: bool)
      modifies this`client, this`channel
      ensures !client && !channel
    {
      if raises {
        client, channel := false, false;   // by the caller's handler
      } else {
        channel := false;
        client := false;
      }
    }
  }
}
