/** The circuit breaker of one backend, each method one atomic step (manager/circuitbreaker.go). */
module Breaker {
  import opened Seqs

  const FAILURE_THRESHOLD: int := 3
  const COOLDOWN: int := 30_000_000_000  // nanoseconds

  datatype Phase = Closed | Open | HalfOpen

  datatype Breaker = Breaker(phase: Phase, failures: nat, lastFailure: int, probeGen: nat)

  const NEW := Breaker(Closed, 0, 0, 0)

  function Succeed(b: Breaker): Breaker { b.(failures := 0, phase := Closed) }

  function Fail(b: Breaker, now: int): Breaker {
    var counted := b.(lastFailure := now, failures := b.failures + 1);
    if counted.failures >= FAILURE_THRESHOLD then counted.(phase := Open) else counted
  }

  /** A probe is due: open, and the cooldown has run. */
  predicate Due(b: Breaker, now: int) { b.phase == Open && now - b.lastFailure >= COOLDOWN }

  function Claim(b: Breaker, now: int): (Breaker, Option<nat>) {
    if Due(b, now) then (b.(phase := HalfOpen, probeGen := b.probeGen + 1), Some(b.probeGen + 1)) else (b, None)
  }

  function Abort(b: Breaker, token: nat, now: int): (Breaker, bool) {
    if b.probeGen != token || b.phase != HalfOpen then (b, false)
    else (b.(lastFailure := now, phase := Open), true)
  }

  // ---- Runs -----------------------------------------------------------------------

  datatype Event = Success | Failure(now: int) | TryClaim(now: int) | TryAbort(token: nat, now: int)

  function Apply(b: Breaker, e: Event): Breaker {
    match e
    case Success => Succeed(b)
    case Failure(now) => Fail(b, now)
    case TryClaim(now) => Claim(b, now).0
    case TryAbort(token, now) => Abort(b, token, now).0
  }

  function After(run: seq<Event>): Breaker {
    if run == [] then NEW else Apply(After(run[..|run| - 1]), run[|run| - 1])
  }

  // ---- The same, told from the history alone ------------------------------------------

  /** Failures recorded since the last success. */
  function FailuresSince(run: seq<Event>): nat {
    if run == [] then 0
    else
      match run[|run| - 1]
      case Success => 0
      case Failure(_) => FailuresSince(run[..|run| - 1]) + 1
      case _ => FailuresSince(run[..|run| - 1])
  }

  /** How many claims have been granted, whose tokens are therefore 1 up to this. */
  function Granted(run: seq<Event>): nat
    decreases |run|, 0
  {
    if run == [] then 0
    else Granted(run[..|run| - 1]) + (if Grants(run[..|run| - 1], run[|run| - 1]) then 1 else 0)
  }

  /** The claim still waiting for its outcome: granted, and since then neither answered by a
      success or a failure nor aborted under its own token. */
  function LiveClaim(run: seq<Event>): Option<nat>
    decreases |run|, 0
  {
    if run == [] then None
    else
      var before := run[..|run| - 1];
      match run[|run| - 1]
      case Success => None
      case Failure(_) => None
      case TryClaim(now) => if Grants(before, TryClaim(now)) then Some(Granted(before) + 1) else LiveClaim(before)
      case TryAbort(token, _) => if LiveClaim(before) == Some(token) then None else LiveClaim(before)
  }

  /** When the cooldown last restarted: at a failure, or at the abort of the live claim. */
  function CooldownStart(run: seq<Event>): int
    decreases |run|, 0
  {
    if run == [] then 0
    else
      var before := run[..|run| - 1];
      match run[|run| - 1]
      case Failure(now) => now
      case TryAbort(token, now) => if LiveClaim(before) == Some(token) then now else CooldownStart(before)
      case _ => CooldownStart(before)
  }

  /** A claim is granted when three failures are on record, no claim is live and the cooldown ran. */
  predicate Grants(run: seq<Event>, e: Event)
    decreases |run|, 1
  {
    e.TryClaim? && FailuresSince(run) >= 3 && LiveClaim(run).None? &&
    e.now - CooldownStart(run) >= 30_000_000_000
  }

  /** The breaker's fields are these readings of its history. */
  ghost predicate Tells(run: seq<Event>, b: Breaker) {
    b.failures == FailuresSince(run) &&
    (b.phase == Closed <==> FailuresSince(run) < 3) &&
    (b.phase == HalfOpen <==> LiveClaim(run).Some?) &&
    (LiveClaim(run).Some? ==> LiveClaim(run).value == b.probeGen) &&
    b.probeGen == Granted(run) && b.lastFailure == CooldownStart(run)
  }

  /** In every run: closed exactly below three failures since the last success, half-open exactly
      while a claim is live, and that claim holds the latest token. */
  lemma {:induction false} RunTells(run: seq<Event>)
    ensures Tells(run, After(run))
  {
    if run != [] { RunTells(run[..|run| - 1]); }
  }

  /** A claim succeeds exactly when the history says so, with a token never handed out before. */
  lemma ClaimGrantedExactly(run: seq<Event>, now: int)
    ensures var (b, token) := Claim(After(run), now);
            (token.Some? <==> Grants(run, TryClaim(now))) && (token.Some? ==> token.value == Granted(run) + 1)
  {
    RunTells(run);
  }

  /** A token other than the live one changes nothing; the live one reopens the breaker. */
  lemma OnlyLiveTokenAborts(run: seq<Event>, token: nat, now: int)
    ensures var (b, ok) := Abort(After(run), token, now);
            (ok <==> LiveClaim(run) == Some(token)) && (!ok ==> b == After(run)) &&
            (ok ==> b.phase == Open && LiveClaim(run + [TryAbort(token, now)]).None?)
  {
    RunTells(run);
    assert (run + [TryAbort(token, now)])[..|run|] == run;
  }

  /** A failure while a probe is out always reopens the breaker. */
  lemma ProbeFailureReopens(run: seq<Event>, now: int)
    requires LiveClaim(run).Some?
    ensures After(run).phase == HalfOpen && Fail(After(run), now).phase == Open
  {
    RunTells(run);
  }

  // ---- The object ---------------------------------------------------------------------------

  class CircuitBreaker {
    var phase: Phase
    var consecutiveFailures: nat
    var lastFailureNano: int
    var probeGen: nat
    ghost var run: seq<Event>  // the calls so far

    ghost function State(): Breaker
      reads this
    {
      Breaker.Breaker(phase, consecutiveFailures, lastFailureNano, probeGen)
    }

    ghost predicate Valid()
      reads this
    {
      State() == After(run)
    }

    constructor ()
      ensures Valid() && run == []
    {
      phase, consecutiveFailures, lastFailureNano, probeGen, run := Closed, 0, 0, 0, [];
    }

    method RecordSuccess()
      requires Valid()
      modifies this
      ensures Valid() && run == old(run) + [Success] && phase == Closed
    {
      hide After;
      consecutiveFailures := 0;
      phase := Closed;
      Extend(run, Success);
      run := run + [Success];
    }

    method RecordFailure(now: int)
      requires Valid()
      modifies this
      ensures Valid() && run == old(run) + [Failure(now)]
      ensures phase == if FailuresSince(run) < 3 then Closed else Open
    {
      lastFailureNano := now;
      consecutiveFailures := consecutiveFailures + 1;
      if consecutiveFailures >= FAILURE_THRESHOLD { phase := Open; }
      Extend(run, Failure(now));
      run := run + [Failure(now)];
      RunTells(run);
      assert run[..|run| - 1] == old(run);
    }

    method ClaimProbe(now: int) returns (token: Option<nat>)
      requires Valid()
      modifies this
      ensures Valid() && run == old(run) + [TryClaim(now)]
      ensures token.Some? <==> Grants(old(run), TryClaim(now))
      ensures token.Some? ==> phase == HalfOpen && LiveClaim(run) == token && token.value == Granted(old(run)) + 1
    {
      ClaimGrantedExactly(run, now);
      Extend(run, TryClaim(now));
      run := run + [TryClaim(now)];
      assert run[..|run| - 1] == old(run);
      if phase != Open { return None; }
      if now - lastFailureNano < COOLDOWN { return None; }
      phase := HalfOpen;
      probeGen := probeGen + 1;
      token := Some(probeGen);
    }

    method AbortProbe(token: nat, now: int) returns (ok: bool)
      requires Valid()
      modifies this
      ensures Valid() && run == old(run) + [TryAbort(token, now)]
      ensures ok <==> LiveClaim(old(run)) == Some(token)
      ensures if ok then phase == Open && lastFailureNano == now else State() == old(State())
    {
      OnlyLiveTokenAborts(run, token, now);
      Extend(run, TryAbort(token, now));
      run := run + [TryAbort(token, now)];
      if probeGen != token || phase != HalfOpen { return false; }
      lastFailureNano := now;
      phase := Open;
      ok := true;
    }
  }

  lemma Extend(run: seq<Event>, e: Event)
    ensures After(run + [e]) == Apply(After(run), e)
  {
    assert (run + [e])[..|run|] == run;
  }
}
