/** Tiered replica selection over reservation pools (manager/routing_tiers.go). */
module Selection {
  import opened Seqs
  import Breaker
  import M = Metrics

  datatype Enclave = Enclave(
    host: string, attested: bool, cb: Option<Breaker.Breaker>, metrics: Option<M.Metrics>, inflight: int)

  type Fleet = map<string, Enclave>

  /** One selection: the replicas, the primary and spill filters, the caller's policy, the host to
      avoid ("" for none) and the time. */
  datatype Query = Query(fleet: Fleet, primary: Option<set<string>>, spill: set<string>, policy: M.Policy, excluded: string, now: int)

  const TIERS: seq<M.Tier> := [M.Preferred, M.Busy, M.Unknown, M.Overfull]

  // ---- Who is a candidate, and where ----------------------------------------------------

  /** pools: the primary filter, and the spill filter when it is not empty. A missing primary
      filter allows every host. */
  function Pools(q: Query): seq<Option<set<string>>> {
    [q.primary] + (if q.spill != {} then [Some(q.spill)] else [])
  }

  predicate Eligible(q: Query, pool: nat, h: string) {
    h in q.fleet && pool < |Pools(q)| && q.fleet[h].attested &&
    (q.excluded == "" || h != q.excluded) &&
    (Pools(q)[pool].None? || h in Pools(q)[pool].value)
  }

  predicate BreakerClosed(e: Enclave) { e.cb.None? || e.cb.value.phase == Breaker.Closed }

  function TierFor(q: Query, h: string): M.Tier
    requires h in q.fleet
  {
    if q.fleet[h].metrics.None? then M.Unknown else M.TierOf(q.fleet[h].metrics.value, q.policy, q.now).0
  }

  predicate InBucket(q: Query, tier: M.Tier, pool: nat, h: string) {
    Eligible(q, pool, h) && BreakerClosed(q.fleet[h]) && TierFor(q, h) == tier &&
    (q.excluded == "" || tier != M.Unknown)
  }

  predicate IsProbe(q: Query, pool: nat, h: string) {
    Eligible(q, pool, h) && !BreakerClosed(q.fleet[h]) && q.excluded == ""
  }

  predicate ProbeDue(q: Query, pool: nat, h: string) {
    IsProbe(q, pool, h) && Breaker.Due(q.fleet[h].cb.value, q.now)
  }

  function Bucket(q: Query, tier: M.Tier, pool: nat, walk: seq<string>): seq<string> {
    Filter((h: string) => InBucket(q, tier, pool, h), walk)
  }

  function Probes(q: Query, pool: nat, walk: seq<string>): seq<string> {
    Filter((h: string) => IsProbe(q, pool, h), walk)
  }

  // ---- What selection promises ------------------------------------------------------------

  datatype Pick =
    | Nobody
    | Probe(host: string, pool: nat)                 // a due recovery probe, now claimed
    | Serve(host: string, tier: M.Tier, pool: nat)   // overload is reported iff the tier is Overfull
    | Degraded(host: string)                         // last resort: every breaker is open

  ghost predicate Empty(q: Query, tier: M.Tier, pool: nat) {
    forall h :: !InBucket(q, tier, pool, h)
  }

  ghost predicate NoneDue(q: Query, pool: nat) {
    forall h :: !ProbeDue(q, pool, h)
  }

  function RankOf(tier: M.Tier): nat {
    match tier case Preferred => 0 case Busy => 1 case Unknown => 2 case Overfull => 3
  }

  /** (tier, pool) comes before (tier', pool') in selection order. */
  predicate Earlier(tier: M.Tier, pool: nat, tier': M.Tier, pool': nat) {
    RankOf(tier) < RankOf(tier') || (tier == tier' && pool < pool')
  }

  /** Every bucket before (tier, pool) is empty, and every probe offered before it was not due. */
  ghost predicate Reached(q: Query, claimProbes: bool, tier: M.Tier, pool: nat) {
    (forall t, p: nat :: p < 2 && Earlier(t, p, tier, pool) ==> Empty(q, t, p)) &&
    (claimProbes ==> forall p: nat :: p < 2 && Earlier(M.Preferred, p, tier, pool) ==> NoneDue(q, p))
  }

  ghost predicate Selected(q: Query, claimProbes: bool, pick: Pick) {
    match pick
    case Probe(h, pool) =>
      claimProbes && pool < 2 && ProbeDue(q, pool, h) && Reached(q, true, M.Preferred, pool)
    case Serve(h, tier, pool) =>
      pool < 2 && InBucket(q, tier, pool, h) && Reached(q, claimProbes, tier, pool) &&
      (claimProbes && tier == M.Preferred ==> NoneDue(q, pool))
    case Degraded(h) =>
      Reached(q, claimProbes, M.Overfull, 2) &&
      (IsProbe(q, 0, h) || (IsProbe(q, 1, h) && forall x :: !IsProbe(q, 0, x)))
    case Nobody =>
      Reached(q, claimProbes, M.Overfull, 2) && forall h, pool: nat :: pool < 2 ==> !IsProbe(q, pool, h)
  }

  // ---- Consequences -----------------------------------------------------------------------------

  /** h could serve under q: attested, allowed by some pool, not excluded and breaker-closed. */
  ghost predicate Usable(q: Query, h: string) {
    exists pool: nat :: pool < 2 && Eligible(q, pool, h) && BreakerClosed(q.fleet[h])
  }

  /** A breaker counts as closed exactly while its history has fewer than three failures since the last
      success, and its probe is due exactly when a claim would be granted. */
  lemma BreakerFromHistory(q: Query, h: string, run: seq<Breaker.Event>)
    requires h in q.fleet && q.fleet[h].cb == Some(Breaker.After(run))
    ensures BreakerClosed(q.fleet[h]) <==> Breaker.FailuresSince(run) < 3
    ensures forall pool: nat :: ProbeDue(q, pool, h) <==> IsProbe(q, pool, h) && Breaker.Grants(run, Breaker.TryClaim(q.now))
  {
    Breaker.RunTells(run);
    Breaker.ClaimGrantedExactly(run, q.now);
  }

  /** x could be handed out: attested, not the failed host, breaker closed, and in the primary filter or
      the spill set. */
  predicate Open(q: Query, x: string) {
    x in q.fleet && q.fleet[x].attested && BreakerClosed(q.fleet[x]) && (q.excluded == "" || x != q.excluded) &&
    (Primary(q, x) || x in q.spill)
  }

  predicate Primary(q: Query, x: string) { q.primary.None? || x in q.primary.value }

  lemma OpenIsEligible(q: Query, x: string)
    ensures x in q.fleet && q.fleet[x].attested && (q.excluded == "" || x != q.excluded) && Primary(q, x) <==> Eligible(q, 0, x)
    ensures x in q.fleet && q.fleet[x].attested && (q.excluded == "" || x != q.excluded) && x in q.spill <==> Eligible(q, 1, x)
  {}

  /** A served replica could be handed out, has its own tier, and none that could be is better: not one
      with room if it is busy, none of known load with room or queue if it is unknown, none but
      overloaded ones if it is overloaded; and it is from the spill set only if no primary one is of
      its tier. */
  lemma ServedIsBest(q: Query, claimProbes: bool, pick: Pick, x: string)
    requires Selected(q, claimProbes, pick) && pick.Serve? && Open(q, x) && (q.excluded == "" || TierFor(q, x) != M.Unknown)
    ensures Open(q, pick.host) && TierFor(q, pick.host) == pick.tier
    ensures pick.tier == M.Busy ==> TierFor(q, x) != M.Preferred
    ensures pick.tier == M.Unknown ==> TierFor(q, x) !in {M.Preferred, M.Busy}
    ensures pick.tier == M.Overfull ==> TierFor(q, x) == M.Overfull
    ensures TierFor(q, x) == pick.tier && Primary(q, x) ==> Primary(q, pick.host)
  {
    OpenIsEligible(q, x);
    OpenIsEligible(q, pick.host);
    var pool: nat := if Primary(q, x) then 0 else 1;
    assert InBucket(q, TierFor(q, x), pool, x);
    hide InBucket, TierFor;
    assert Earlier(TierFor(q, x), pool, pick.tier, pick.pool) ==> Empty(q, TierFor(q, x), pool);
    ServedEligible(q, claimProbes, pick);
  }

  lemma ServedEligible(q: Query, claimProbes: bool, pick: Pick)
    requires Selected(q, claimProbes, pick) && pick.Serve?
    ensures pick.pool < 2 && Eligible(q, pick.pool, pick.host) && BreakerClosed(q.fleet[pick.host]) && TierFor(q, pick.host) == pick.tier
  {}

  /** Overload is reported only if every usable replica is overloaded (a first selection considers
      replicas of unknown load as well). */
  lemma OverloadMeansAllOverloaded(q: Query, claimProbes: bool, pick: Pick, h: string)
    requires Selected(q, claimProbes, pick) && pick.Serve? && pick.tier == M.Overfull
    requires Usable(q, h) && (q.excluded == "" || TierFor(q, h) != M.Unknown)
    ensures TierFor(q, h) == M.Overfull
  {
    var pool: nat :| pool < 2 && Eligible(q, pool, h) && BreakerClosed(q.fleet[h]);
    assert InBucket(q, TierFor(q, h), pool, h);
    assert Earlier(TierFor(q, h), pool, M.Overfull, pick.pool) ==> Empty(q, TierFor(q, h), pool);
  }

  /** Without a claim, a replica whose breaker is not closed is returned only if none is. */
  lemma OpenOnlyIfNoneClosed(q: Query, claimProbes: bool, pick: Pick, h: string)
    requires Selected(q, claimProbes, pick) && (pick.Degraded? || pick.Nobody?) && q.excluded == ""
    ensures !Usable(q, h)
  {
    forall pool: nat | pool < 2 && Eligible(q, pool, h) && BreakerClosed(q.fleet[h]) ensures false {
      assert InBucket(q, TierFor(q, h), pool, h);
      assert Earlier(TierFor(q, h), pool, M.Overfull, 2);
    }
  }

  /** A probe of the spill pool is claimed only when no primary replica is preferred, and none of
      the primary pool's probes is due. */
  lemma SpillProbeNeedsIdlePrimary(q: Query, claimProbes: bool, pick: Pick)
    requires Selected(q, claimProbes, pick) && pick.Probe? && pick.pool == 1
    ensures Empty(q, M.Preferred, 0) && NoneDue(q, 0)
  {
    assert Earlier(M.Preferred, 0, M.Preferred, 1);
  }

  // ---- Retries --------------------------------------------------------------------------------

  /** SelectRetry refuses an overloaded pick. */
  function KeptPick(pick: Pick): Pick { if pick.Serve? && pick.tier == M.Overfull then Nobody else pick }

  /** A retry goes only to a closed, attested, preferred-or-busy replica other than the failed one. */
  ghost predicate GoodRetry(q: Query, pick: Pick) {
    pick.Nobody? ||
    (pick.Serve? && pick.host in q.fleet && (q.excluded == "" || pick.host != q.excluded) &&
     q.fleet[pick.host].attested && BreakerClosed(q.fleet[pick.host]) && TierFor(q, pick.host) in {M.Preferred, M.Busy})
  }

  /** Whatever selection does with q, the retry is good. */
  ghost predicate SafeQuery(q: Query) {
    forall pick :: Selected(q, false, pick) ==> GoodRetry(q, KeptPick(pick))
  }

  /** No query that names this failed host gets anything but a good retry. */
  ghost predicate SafeHost(failed: string) {
    forall q: Query :: q.excluded == failed ==> SafeQuery(q)
  }

  lemma RetryIsSafe(q: Query, pick: Pick)
    requires Selected(q, false, pick) && q.excluded != ""
    ensures GoodRetry(q, KeptPick(pick))
  {}

  ghost predicate InTier(q: Query, tier: M.Tier) { !Empty(q, tier, 0) || !Empty(q, tier, 1) }

  ghost predicate AnyProbe(q: Query) { exists h, pool: nat :: pool < 2 && IsProbe(q, pool, h) }

  /** The fleets that give a safe retry even if no host is named: some replica is known to have
      room, or none is of unknown load and an overloaded one hides the open breakers, if any. */
  ghost predicate SafeUnnamed(q: Query) {
    InTier(q, M.Preferred) || InTier(q, M.Busy) || (!InTier(q, M.Unknown) && (InTier(q, M.Overfull) || !AnyProbe(q)))
  }

  lemma ReachedBy(q: Query, tier: M.Tier, pool: nat)
    requires pool < 2 && (pool == 1 ==> Empty(q, tier, 0))
    requires forall t :: RankOf(t) < RankOf(tier) ==> !InTier(q, t)
    ensures Reached(q, false, tier, pool)
  {}

  /** A replica of unknown load is handed out when nothing better exists. */
  lemma UnknownIsServed(q: Query) returns (pick: Pick)
    requires InTier(q, M.Unknown) && !InTier(q, M.Preferred) && !InTier(q, M.Busy)
    ensures pick.Serve? && pick.tier == M.Unknown && Selected(q, false, pick)
  {
    var pool := if Empty(q, M.Unknown, 0) then 1 else 0;
    var h :| InBucket(q, M.Unknown, pool, h);
    hide InBucket;
    ReachedBy(q, M.Unknown, pool);
    pick := Serve(h, M.Unknown, pool);
  }

  /** An open breaker is handed out when nothing is closed. */
  lemma OpenIsServed(q: Query) returns (pick: Pick)
    requires AnyProbe(q) && forall t :: !InTier(q, t)
    ensures pick.Degraded? && Selected(q, false, pick)
  {
    hide InBucket, IsProbe;
    forall t, p: nat | p < 2 ensures Empty(q, t, p) {
      assert !InTier(q, t) && (p == 0 || p == 1);
    }
    assert Reached(q, false, M.Overfull, 2);
    if exists h :: IsProbe(q, 0, h) {
      var h :| IsProbe(q, 0, h);
      pick := Degraded(h);
    } else {
      var h, pool: nat :| pool < 2 && IsProbe(q, pool, h);
      pick := Degraded(h);
    }
  }

  lemma SafeUnnamedSuffices(q: Query, pick: Pick)
    requires Selected(q, false, pick) && SafeUnnamed(q)
    ensures GoodRetry(q, KeptPick(pick))
  {
    forall t, p: nat | p < 2 && pick.Serve? && Earlier(t, p, pick.tier, pick.pool) ensures Empty(q, t, p) {}
    forall t, p: nat | p < 2 && (pick.Degraded? || pick.Nobody?) && Earlier(t, p, M.Overfull, 2) ensures Empty(q, t, p) {}
    assert pick.Serve? ==> InTier(q, pick.tier) by {
      if pick.Serve? { assert pick.pool == 0 || pick.pool == 1; }
    }
    hide InBucket, IsProbe;
    if pick.Serve? {
      assert RankOf(pick.tier) > 0 ==> Empty(q, M.Preferred, 0) && Empty(q, M.Preferred, 1);
      assert RankOf(pick.tier) > 1 ==> Empty(q, M.Busy, 0) && Empty(q, M.Busy, 1);
      ServedIsGood(q, pick);
    } else if pick.Degraded? {
      assert forall t :: !InTier(q, t);
    }
  }

  lemma ServedIsGood(q: Query, pick: Pick)
    requires Selected(q, false, pick) && pick.Serve? && pick.tier != M.Unknown
    ensures GoodRetry(q, KeptPick(pick))
  {}

  /** For every query: the retry is safe if and only if a failed host is named or the fleet is one of
      those that are safe without. */
  lemma SafeQueryExactly(q: Query)
    ensures SafeQuery(q) <==> q.excluded != "" || SafeUnnamed(q)
  {
    hide Selected, GoodRetry, AnyProbe, InTier;
    if q.excluded != "" || SafeUnnamed(q) {
      forall pick | Selected(q, false, pick) ensures GoodRetry(q, KeptPick(pick)) {
        if q.excluded != "" { RetryIsSafe(q, pick); } else { SafeUnnamedSuffices(q, pick); }
      }
    } else {
      var pick;
      if InTier(q, M.Unknown) {
        pick := UnknownIsServed(q);
      } else {
        forall t ensures !InTier(q, t) { assert t.Preferred? || t.Busy? || t.Unknown? || t.Overfull?; }
        pick := OpenIsServed(q);
      }
      NotGood(q, pick);
    }
  }

  lemma NotGood(q: Query, pick: Pick)
    requires Selected(q, false, pick) && (pick.Degraded? || (pick.Serve? && pick.tier == M.Unknown))
    ensures !GoodRetry(q, KeptPick(pick))
  {}

  /** Both ways to fail without a failed host: a fleet of one open breaker, and one of unknown load. */
  lemma RetryWithoutFailedHost()
    ensures exists q: Query, h: string ::
      q.excluded == "" && Selected(q, false, Degraded(h)) && h in q.fleet && !BreakerClosed(q.fleet[h])
    ensures exists q: Query, h: string ::
      q.excluded == "" && Selected(q, false, Serve(h, M.Unknown, 0)) && h in q.fleet && BreakerClosed(q.fleet[h])
  {
    var e := Enclave("a", true, Some(Breaker.Breaker(Breaker.Open, 3, 0, 0)), None, 0);
    var q := Query(map["a" := e], None, {}, None, "", 0);
    assert IsProbe(q, 0, "a");
    assert Selected(q, false, Degraded("a"));
    var q' := q.(fleet := map["a" := e.(cb := None)]);
    assert InBucket(q', M.Unknown, 0, "a");
    assert Selected(q', false, Serve("a", M.Unknown, 0));
  }

  /** The method keeps its promise for every fleet if and only if it is given a failed host. */
  lemma SafeHostExactly(failed: string)
    ensures SafeHost(failed) <==> failed != ""
  {
    hide SafeQuery, SafeUnnamed;
    forall q: Query ensures SafeQuery(q) <==> q.excluded != "" || SafeUnnamed(q) { SafeQueryExactly(q); }
    if failed == "" {
      var q := OneUnknown();
      assert !SafeQuery(q);
    }
  }

  lemma OneUnknown() returns (q: Query)
    ensures q.excluded == "" && !SafeUnnamed(q)
  {
    q := Query(map["a" := Enclave("a", true, None, None, 0)], None, {}, None, "", 0);
    assert InBucket(q, M.Unknown, 0, "a");
  }

  /** What is returned is always a member of one of the caller's pools. */
  lemma PickIsEligible(q: Query, claimProbes: bool, pick: Pick)
    requires Selected(q, claimProbes, pick) && !pick.Nobody?
    ensures exists pool: nat :: Eligible(q, pool, pick.host)
  {
    match pick
    case Probe(h, pool) => assert Eligible(q, pool, h);
    case Serve(h, _, pool) => assert Eligible(q, pool, h);
    case Degraded(h) =>
      assert Eligible(q, 0, h) || Eligible(q, 1, h);
  }
}
