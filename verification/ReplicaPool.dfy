/** The Model object of the manager: reservation lookup sets and in-place replica selection
    (manager/manager.go, manager/routing_tiers.go). */
module ReplicaPool {
  import opened Seqs
  import opened Selection
  import Breaker
  import M = Metrics
  import R = Reservations

  // ---- Building the buckets of one pool --------------------------------------------------

  lemma BucketStep(q: Query, tier: M.Tier, pool: nat, walk: seq<string>, i: nat)
    requires i < |walk|
    ensures Bucket(q, tier, pool, walk[..i + 1]) ==
            Bucket(q, tier, pool, walk[..i]) + (if InBucket(q, tier, pool, walk[i]) then [walk[i]] else [])
    ensures Probes(q, pool, walk[..i + 1]) ==
            Probes(q, pool, walk[..i]) + (if IsProbe(q, pool, walk[i]) then [walk[i]] else [])
  {
    assert walk[..i + 1] == walk[..i] + [walk[i]];
    FilterAppend((h: string) => InBucket(q, tier, pool, h), walk[..i], [walk[i]]);
    FilterAppend((h: string) => IsProbe(q, pool, h), walk[..i], [walk[i]]);
  }

  function NoBuckets(): (r: map<M.Tier, seq<string>>)
    ensures forall t :: t in r && r[t] == []
  {
    map t: M.Tier | RankOf(t) < |TIERS| :: []
  }

  /** The inner loop of selectServingLocked over the enclaves, in the order the map yields them. */
  method FillPool(q: Query, pool: nat, walk: seq<string>)
    returns (buckets: map<M.Tier, seq<string>>, probes: seq<string>)
    requires pool < |Pools(q)| && forall h :: h in walk ==> h in q.fleet
    ensures forall t :: t in buckets && buckets[t] == Bucket(q, t, pool, walk)
    ensures probes == Probes(q, pool, walk)
  {
    buckets := NoBuckets();
    probes := [];
    for i := 0 to |walk|
      invariant forall t :: t in buckets && buckets[t] == Bucket(q, t, pool, walk[..i])
      invariant probes == Probes(q, pool, walk[..i])
    {
      forall t ensures Bucket(q, t, pool, walk[..i + 1]) ==
        Bucket(q, t, pool, walk[..i]) + (if InBucket(q, t, pool, walk[i]) then [walk[i]] else [])
      {
        BucketStep(q, t, pool, walk, i);
      }
      BucketStep(q, M.Preferred, pool, walk, i);
      var h := walk[i];
      var e := q.fleet[h];
      var allowed := Pools(q)[pool];
      if (q.excluded != "" && h == q.excluded) || (allowed.Some? && h !in allowed.value) || !e.attested { continue; }
      if !BreakerClosed(e) {
        if q.excluded == "" { probes := probes + [h]; }
        continue;
      }
      var tier := TierFor(q, h);
      if q.excluded != "" && tier == M.Unknown { continue; }
      buckets := buckets[tier := buckets[tier] + [h]];
    }
    assert walk[..|walk|] == walk;
  }

  // ---- Picking inside a bucket -------------------------------------------------------------

  ghost predicate LeastInflight(fleet: Fleet, candidates: seq<string>, h: string)
    requires forall c :: c in candidates ==> c in fleet
  {
    h in candidates && forall c :: c in candidates ==> fleet[h].inflight <= fleet[c].inflight
  }

  /** The first host of the affinity order that is a candidate. */
  function FirstPreferred(order: seq<string>, candidates: seq<string>): Option<string> {
    if order == [] then None
    else if order[0] in candidates then Some(order[0])
    else FirstPreferred(order[1..], candidates)
  }

  /** h is what affinity makes of a bucket: its favourite there, unless that one is deeper than the
      cap allows, which leaves the least loaded one. */
  ghost predicate Favoured(fleet: Fleet, order: seq<string>, candidates: seq<string>, delta: Option<int>, h: string) {
    (forall c :: c in candidates ==> c in fleet) && h in candidates &&
    var first := FirstPreferred(order, candidates);
    first.Some? ==>
      first.value in candidates &&
      if delta.Some? && delta.value >= 0 &&
         exists c :: c in candidates && fleet[first.value].inflight - fleet[c].inflight > delta.value
      then LeastInflight(fleet, candidates, h) else h == first.value
  }

  /** pickTierLocked: the affinity favourite, unless it is deeper than the cap allows; then the least
      loaded one; without a favourite, the randomly drawn fallback. */
  method PickTier(fleet: Fleet, order: seq<string>, candidates: seq<string>, delta: Option<int>, draw: nat)
    returns (h: string)
    requires candidates != [] && draw < |candidates| && forall c :: c in candidates ==> c in fleet
    ensures Favoured(fleet, order, candidates, delta, h)
    ensures FirstPreferred(order, candidates).None? ==> h == candidates[draw]
  {
    var fallback := candidates[draw];
    var least := fallback;
    for i := 0 to |candidates|
      invariant least in candidates && fleet[least].inflight <= fleet[fallback].inflight
      invariant forall k :: 0 <= k < i ==> fleet[least].inflight <= fleet[candidates[k]].inflight
    {
      if fleet[candidates[i]].inflight < fleet[least].inflight { least := candidates[i]; }
    }
    assert LeastInflight(fleet, candidates, least);
    var k := 0;
    while k < |order|
      invariant 0 <= k <= |order| && FirstPreferred(order, candidates) == FirstPreferred(order[k..], candidates)
    {
      assert order[k..][0] == order[k] && order[k..][1..] == order[k + 1..];
      if order[k] in candidates {
        if delta.Some? && delta.value >= 0 && fleet[order[k]].inflight - fleet[least].inflight > delta.value {
          return least;
        }
        return order[k];
      }
      k := k + 1;
    }
    return fallback;
  }

  // ---- Scanning the buckets ------------------------------------------------------------------

  lemma EmptyBucket(q: Query, tier: M.Tier, pool: nat, walk: seq<string>)
    requires (forall h :: h in q.fleet ==> h in walk) && Bucket(q, tier, pool, walk) == []
    ensures Empty(q, tier, pool)
  {
    forall h ensures !InBucket(q, tier, pool, h) {
      FilterMember((x: string) => InBucket(q, tier, pool, x), walk, h);
    }
  }

  lemma BucketMember(q: Query, tier: M.Tier, pool: nat, walk: seq<string>, h: string)
    requires h in Bucket(q, tier, pool, walk)
    ensures InBucket(q, tier, pool, h)
  {
    FilterMember((x: string) => InBucket(q, tier, pool, x), walk, h);
  }

  lemma ProbeMember(q: Query, pool: nat, walk: seq<string>, h: string)
    requires forall x :: x in q.fleet ==> x in walk
    ensures h in Probes(q, pool, walk) <==> IsProbe(q, pool, h)
  {
    FilterMember((x: string) => IsProbe(q, pool, x), walk, h);
  }

  /** The loop that tries to claim one of a pool's probes. */
  method FirstDue(q: Query, pool: nat, probes: seq<string>, walk: seq<string>) returns (h: Option<string>)
    requires probes == Probes(q, pool, walk) && forall x :: x in q.fleet ==> x in walk
    ensures h.Some? ==> ProbeDue(q, pool, h.value)
    ensures h.None? ==> NoneDue(q, pool)
  {
    for i := 0 to |probes|
      invariant forall k :: 0 <= k < i ==> !ProbeDue(q, pool, probes[k])
    {
      ProbeMember(q, pool, walk, probes[i]);
      if Breaker.Due(q.fleet[probes[i]].cb.value, q.now) { return Some(probes[i]); }
    }
    forall x ensures !ProbeDue(q, pool, x) { ProbeMember(q, pool, walk, x); }
    return None;
  }

  /** What one pool contributes, ready to scan. */
  datatype Contents = Contents(buckets: map<M.Tier, seq<string>>, probes: seq<string>)

  ghost predicate Filled(q: Query, pool: nat, walk: seq<string>, c: Contents) {
    (forall h :: h in q.fleet <==> h in walk) &&
    (forall t :: t in c.buckets && c.buckets[t] == Bucket(q, t, pool, walk)) && c.probes == Probes(q, pool, walk)
  }

  lemma EmptyPoolFilled(q: Query, pool: nat, walk: seq<string>)
    requires pool >= |Pools(q)| && forall h :: h in q.fleet <==> h in walk
    ensures Filled(q, pool, walk, Contents(NoBuckets(), []))
  {
    forall t ensures Bucket(q, t, pool, walk) == [] {
      FilterNone((h: string) => InBucket(q, t, pool, h), walk);
    }
    FilterNone((h: string) => IsProbe(q, pool, h), walk);
  }

  lemma ReachedNextPool(q: Query, claimProbes: bool, tier: M.Tier)
    requires Reached(q, claimProbes, tier, 0) && Empty(q, tier, 0)
    requires claimProbes && tier == M.Preferred ==> NoneDue(q, 0)
    ensures Reached(q, claimProbes, tier, 1)
  {}

  lemma ReachedPastTier(q: Query, claimProbes: bool, tier: M.Tier)
    requires Reached(q, claimProbes, tier, 1) && Empty(q, tier, 1)
    requires claimProbes && tier == M.Preferred ==> NoneDue(q, 1)
    ensures tier != M.Overfull ==> Reached(q, claimProbes, TIERS[RankOf(tier) + 1], 0)
    ensures Reached(q, claimProbes, tier, 2)
  {}

  /** One (tier, pool) bucket of the scan: a claimed probe, a pick, or nothing here. */
  method TryBucket(q: Query, claimProbes: bool, tier: M.Tier, pool: nat, walk: seq<string>, c: Contents,
                   order: seq<string>, delta: Option<int>, draw: nat -> nat)
    returns (pick: Option<Pick>)
    requires pool < 2 && Filled(q, pool, walk, c) && Reached(q, claimProbes, tier, pool) && forall n: nat :: n > 0 ==> draw(n) < n
    ensures pick.Some? ==> !pick.value.Nobody? && !pick.value.Degraded? && Selected(q, claimProbes, pick.value)
    ensures pick.Some? && pick.value.Serve? ==>
      pick.value.pool == pool &&
      Favoured(q.fleet, order, Bucket(q, pick.value.tier, pool, walk), delta, pick.value.host)
    ensures pick.None? ==> Empty(q, tier, pool) && (claimProbes && tier == M.Preferred ==> NoneDue(q, pool))
  {
    hide InBucket, ProbeDue, IsProbe, Favoured;
    if tier == M.Preferred && claimProbes {
      var due := FirstDue(q, pool, c.probes, walk);
      if due.Some? { return Some(Probe(due.value, pool)); }
    }
    var candidates := c.buckets[tier];
    if candidates == [] {
      EmptyBucket(q, tier, pool, walk);
      return None;
    }
    forall x | x in candidates ensures x in q.fleet && InBucket(q, tier, pool, x) {
      BucketMember(q, tier, pool, walk, x);
      Bucketed(q, tier, pool, x);
    }
    var h := PickTier(q.fleet, order, candidates, delta, draw(|candidates|));
    return Some(Serve(h, tier, pool));
  }

  lemma Bucketed(q: Query, tier: M.Tier, pool: nat, h: string)
    requires InBucket(q, tier, pool, h)
    ensures h in q.fleet
  {}

  /** Inside the chosen bucket, affinity and the load cap decide. */
  ghost predicate ServedByAffinity(q: Query, walks: seq<seq<string>>, order: seq<string>, delta: Option<int>, pick: Pick) {
    pick.Serve? ==>
      pick.pool < |walks| && Favoured(q.fleet, order, Bucket(q, pick.tier, pick.pool, walks[pick.pool]), delta, pick.host)
  }

  /** selectServingLocked: buckets by tier, then pool; walks are the two orders in which the enclave
      map happened to be ranged over. */
  method SelectServingLocked(q: Query, claimProbes: bool, walks: seq<seq<string>>, order: seq<string>,
                             delta: Option<int>, draw: nat -> nat)
    returns (pick: Pick)
    requires |walks| == 2 && forall p, h :: 0 <= p < 2 ==> (h in q.fleet <==> h in walks[p])
    requires forall n: nat :: n > 0 ==> draw(n) < n
    ensures Selected(q, claimProbes, pick)
    ensures ServedByAffinity(q, walks, order, delta, pick)
  {
    var buckets, probes := FillPool(q, 0, walks[0]);
    var primary := Contents(buckets, probes);
    var spill := Contents(NoBuckets(), []);
    if |Pools(q)| > 1 {
      buckets, probes := FillPool(q, 1, walks[1]);
      spill := Contents(buckets, probes);
    } else {
      EmptyPoolFilled(q, 1, walks[1]);
    }
    hide InBucket, ProbeDue, IsProbe, Filled, Favoured;
    assert Reached(q, claimProbes, TIERS[0], 0);
    for i := 0 to 4
      invariant i < 4 ==> Reached(q, claimProbes, TIERS[i], 0)
      invariant i == 4 ==> Reached(q, claimProbes, M.Overfull, 2)
    {
      var tier := TIERS[i];
      var here := TryBucket(q, claimProbes, tier, 0, walks[0], primary, order, delta, draw);
      if here.Some? { return here.value; }
      ReachedNextPool(q, claimProbes, tier);
      here := TryBucket(q, claimProbes, tier, 1, walks[1], spill, order, delta, draw);
      if here.Some? { return here.value; }
      ReachedPastTier(q, claimProbes, tier);
    }
    pick := LastResort(q, claimProbes, walks, primary.probes, spill.probes);
  }

  /** The first degraded replica, primary pool first. */
  method LastResort(q: Query, claimProbes: bool, walks: seq<seq<string>>, primary: seq<string>, spill: seq<string>)
    returns (pick: Pick)
    requires |walks| == 2 && forall p, h :: 0 <= p < 2 ==> (h in q.fleet <==> h in walks[p])
    requires primary == Probes(q, 0, walks[0]) && spill == Probes(q, 1, walks[1])
    requires Reached(q, claimProbes, M.Overfull, 2)
    ensures Selected(q, claimProbes, pick) && !pick.Serve?
  {
    hide IsProbe, Reached;
    var degraded := primary + spill;
    forall h ensures h in degraded <==> IsProbe(q, 0, h) || IsProbe(q, 1, h) {
      ProbeMember(q, 0, walks[0], h);
      ProbeMember(q, 1, walks[1], h);
    }
    if |degraded| > 0 {
      assert degraded[0] in degraded && (primary != [] ==> degraded[0] == primary[0]);
      forall h ensures h in primary <==> IsProbe(q, 0, h) { ProbeMember(q, 0, walks[0], h); }
      return Degraded(degraded[0]);
    }
    return Nobody;
  }

  const DEFAULT_RETRY_AFTER: int := 1  // minutes

  /** OverloadConfig.RetryAfter, in minutes. */
  function RetryAfter(p: M.Policy): int {
    if p.None? || p.value.maxRequestsWaiting <= 0 then 0
    else if p.value.retryAfterMinutes <= 0 then DEFAULT_RETRY_AFTER
    else p.value.retryAfterMinutes
  }

  /** What is reported beside the enclave: overload, the minutes to wait, and its queue depth. */
  datatype Report = Report(overloaded: bool, retryAfter: int, waiting: real)

  function WaitingAt(q: Query, h: string): real
    requires h in q.fleet
  {
    if q.fleet[h].metrics.None? then 0.0 else M.TierOf(q.fleet[h].metrics.value, q.policy, q.now).1
  }

  function ReportOf(q: Query, pick: Pick): (r: Report)
    requires pick.Serve? ==> pick.host in q.fleet
    ensures r.retryAfter > 0 ==> r.overloaded
  {
    if !pick.Serve? then Report(false, 0, 0.0)
    else if pick.tier == M.Overfull then Report(true, RetryAfter(q.policy), WaitingAt(q, pick.host))
    else Report(false, 0, WaitingAt(q, pick.host))
  }

  /** An overloaded caller is always told a positive wait, and a queue above its clear mark. */
  lemma OverloadTellsWait(q: Query, claimProbes: bool, pick: Pick)
    requires Selected(q, claimProbes, pick) && pick.Serve? && pick.tier == M.Overfull
    ensures pick.host in q.fleet && ReportOf(q, pick).overloaded && ReportOf(q, pick).retryAfter >= 1
    ensures q.policy.Some? && ReportOf(q, pick).waiting > M.MarksOf(q.policy.value).clear as real
    ensures var minutes := q.policy.value.retryAfterMinutes;
            ReportOf(q, pick).retryAfter == if minutes > 0 then minutes else 1
  {}

  // ---- Reservations ---------------------------------------------------------------------------

  function Overriding(overloads: map<string, M.Policy>, hosts: set<string>, policy: M.Policy): map<string, M.Policy> {
    map h | h in overloads.Keys + hosts :: if h in hosts then policy else overloads[h]
  }

  lemma NothingOverridden(overloads: map<string, M.Policy>, policy: M.Policy)
    ensures Overriding(overloads, {}, policy) == overloads
  {}

  lemma OneMoreOverridden(overloads: map<string, M.Policy>, hosts: set<string>, h: string, policy: M.Policy)
    ensures Overriding(overloads, hosts + {h}, policy) == Overriding(overloads, hosts, policy)[h := policy]
  {}

  /** The loop over one reservation's hosts for one organization. */
  method MarkHosts(res: R.Reservation, known: set<string>, base: set<string>, reserved: set<string>,
                   overloads: map<string, M.Policy>)
    returns (all: set<string>, reserved': set<string>, overloads': map<string, M.Policy>, recognized: bool)
    ensures all == base + R.Recognized(res, known) && reserved' == reserved + R.Recognized(res, known)
    ensures overloads' == Overriding(overloads, R.Recognized(res, known), res.overload)
    ensures recognized <==> R.Recognized(res, known) != {}
  {
    hide Overriding;
    NothingOverridden(overloads, res.overload);
    all, reserved', overloads', recognized := base, reserved, overloads, false;
    ghost var done: set<string> := {};
    for k := 0 to |res.enclaves|
      invariant done == set h | h in res.enclaves[..k] && h in known
      invariant all == base + done && reserved' == reserved + done && (recognized <==> done != {})
      invariant overloads' == Overriding(overloads, done, res.overload)
    {
      assert res.enclaves[..k + 1] == res.enclaves[..k] + [res.enclaves[k]];
      var host := res.enclaves[k];
      if host !in known { continue; }
      OneMoreOverridden(overloads, done, host, res.overload);
      all, reserved' := all + {host}, reserved' + {host};
      overloads' := overloads'[host := res.overload];
      recognized := true;
      done := done + {host};
    }
    assert res.enclaves[..|res.enclaves|] == res.enclaves;
    assert done == R.Recognized(res, known);
  }

  /** The loop over one reservation's organizations. */
  method ApplyReservation(d0: R.Derived, res: R.Reservation, known: set<string>, model: M.Policy)
    returns (d: R.Derived)
    ensures d == R.ApplyOrgs(d0, res, |res.orgIDs|, known, model)
  {
    hide R.Recognized;
    d := d0;
    for j := 0 to |res.orgIDs|
      invariant d == R.ApplyOrgs(d0, res, j, known, model)
    {
      var org := res.orgIDs[j];
      if org == "" { continue; }
      var policy := if res.overload.Some? then res.overload else model;
      var base := if org in d.byOrg then d.byOrg[org] else {};
      var all, reserved, overloads, recognized := MarkHosts(res, known, base, d.reserved, d.overloads);
      var policies := d.policies;
      if |all| != 0 && recognized { policies := policies[org := policy]; }
      d := R.Derived(if |all| == 0 then d.byOrg - {org} else d.byOrg[org := all], reserved, overloads, policies);
    }
  }

  // ---- The object ------------------------------------------------------------------------------

  class Model {
    var enclaves: Fleet
    var overload: M.Policy
    var maxInflightDelta: Option<int>
    var hostnames: set<string>
    var derived: R.Derived

    constructor (enclaves: Fleet, overload: M.Policy, maxInflightDelta: Option<int>)
      ensures this.enclaves == enclaves && this.overload == overload && this.maxInflightDelta == maxInflightDelta
      ensures derived == R.NOTHING && hostnames == {}
    {
      this.enclaves, this.overload, this.maxInflightDelta := enclaves, overload, maxInflightDelta;
      derived, hostnames := R.NOTHING, {};
    }

    /** applyReservations: rebuild the lookup sets from scratch. */
    method ApplyReservations(reservations: seq<R.Reservation>, hosts: seq<string>)
      modifies this`hostnames, this`derived
      ensures hostnames == (set h | h in hosts) && derived == R.ApplyAll(reservations, hostnames, overload)
    {
      hide R.Recognized, R.ApplyOrgs;
      var known := set h | h in hosts;
      var d := R.NOTHING;
      for i := 0 to |reservations|
        invariant d == R.ApplyAll(reservations[..i], known, overload)
      {
        var res := reservations[i];
        assert reservations[..i + 1][..i] == reservations[..i];
        if |res.orgIDs| == 0 || |res.enclaves| == 0 { continue; }
        d := ApplyReservation(d, res, known, overload);
      }
      assert reservations[..|reservations|] == reservations;
      hostnames, derived := known, d;
    }

    method ReservationPools(org: string) returns (pools: R.CallerPools)
      ensures pools == R.PoolsFor(derived, hostnames, org, overload)
    {
      if |derived.byOrg| == 0 {
        assert derived.byOrg == map[];
        return R.CallerPools(None, {}, overload);
      }
      if org != "" {
        if org in derived.byOrg {
          return R.CallerPools(Some(derived.byOrg[org]), R.Shared(derived, hostnames),
                               if org in derived.policies then derived.policies[org] else None);
        }
      }
      return R.CallerPools(Some(R.Shared(derived, hostnames)), {}, overload);
    }

    /** SelectServing: the selected enclave has one more request in flight, and a claimed probe is out. */
    method SelectServing(pools: R.CallerPools, claimProbes: bool, walks: seq<seq<string>>, order: seq<string>,
                         draw: nat -> nat, now: int)
      returns (pick: Pick, report: Report)
      requires |walks| == 2 && forall p, h :: 0 <= p < 2 ==> (h in enclaves <==> h in walks[p])
      requires forall n: nat :: n > 0 ==> draw(n) < n
      modifies this`enclaves
      ensures var q := Query(old(enclaves), pools.primary, pools.spill, pools.policy, "", now);
              Selected(q, claimProbes, pick) && ServedByAffinity(q, walks, order, maxInflightDelta, pick) &&
              (pick.Serve? ==> pick.host in q.fleet) && report == ReportOf(q, pick)
      ensures enclaves == Dispatched(old(enclaves), pick, now)
    {
      hide Selected, ServedByAffinity;
      var q := Query(enclaves, pools.primary, pools.spill, pools.policy, "", now);
      pick := SelectServingLocked(q, claimProbes, walks, order, maxInflightDelta, draw);
      PickInFleet(q, claimProbes, pick);
      report := ReportOf(q, pick);
      if !pick.Nobody? {
        var e := enclaves[pick.host];
        if pick.Probe? && e.cb.Some? { e := e.(cb := Some(Breaker.Claim(e.cb.value, now).0)); }
        enclaves := enclaves[pick.host := e.(inflight := e.inflight + 1)];
      }
    }

    /** SelectRetry: as above without probes, avoiding the failed host; an overloaded pick is refused. */
    method SelectRetry(failedHost: string, pools: R.CallerPools, walks: seq<seq<string>>, order: seq<string>,
                       draw: nat -> nat, now: int)
      returns (pick: Pick)
      requires |walks| == 2 && forall p, h :: 0 <= p < 2 ==> (h in enclaves <==> h in walks[p])
      requires forall n: nat :: n > 0 ==> draw(n) < n
      modifies this`enclaves
      ensures var q := Query(old(enclaves), pools.primary, pools.spill, pools.policy, failedHost, now);
              exists chosen :: Selected(q, false, chosen) &&
                ServedByAffinity(q, walks, order, maxInflightDelta, chosen) &&
                pick == KeptPick(chosen)
      ensures enclaves == Dispatched(old(enclaves), pick, now)
      ensures var q := Query(old(enclaves), pools.primary, pools.spill, pools.policy, failedHost, now);
              failedHost != "" || SafeUnnamed(q) ==> GoodRetry(q, pick)
    {
      var q := Query(enclaves, pools.primary, pools.spill, pools.policy, failedHost, now);
      pick := SelectServingLocked(q, false, walks, order, maxInflightDelta, draw);
      PickInFleet(q, false, pick);
      SafeQueryExactly(q);
      hide Selected, ServedByAffinity, GoodRetry, SafeUnnamed;
      if pick.Serve? && pick.tier == M.Overfull { return Nobody; }
      if !pick.Nobody? {
        var e := enclaves[pick.host];
        enclaves := enclaves[pick.host := e.(inflight := e.inflight + 1)];
      }
    }
  }

  /** The fleet after a dispatch: one more request in flight, and a claimed probe half-opens. */
  function Dispatched(fleet: Fleet, pick: Pick, now: int): Fleet {
    if pick.Nobody? || pick.host !in fleet then fleet
    else
      var e := fleet[pick.host];
      var claimed := if pick.Probe? && e.cb.Some? then e.(cb := Some(Breaker.Claim(e.cb.value, now).0)) else e;
      fleet[pick.host := claimed.(inflight := e.inflight + 1)]
  }

  /** A dispatch changes one replica only, which has one more request in flight; a claimed probe is out,
      and nothing else about the replica changes. */
  lemma DispatchedExactly(q: Query, claimProbes: bool, pick: Pick, h: string)
    requires Selected(q, claimProbes, pick) && h in q.fleet
    ensures var after := Dispatched(q.fleet, pick, q.now);
            after.Keys == q.fleet.Keys &&
            (pick.Nobody? || h != pick.host ==> after[h] == q.fleet[h]) &&
            (!pick.Nobody? && h == pick.host ==>
              after[h].inflight == q.fleet[h].inflight + 1 &&
              after[h].(inflight := q.fleet[h].inflight, cb := q.fleet[h].cb) == q.fleet[h] &&
              if pick.Probe? then after[h].cb.Some? && after[h].cb.value.phase == Breaker.HalfOpen else after[h].cb == q.fleet[h].cb)
  {
    hide Reached;
    PickInFleet(q, claimProbes, pick);
  }

  /** The affinity favourite of a bucket: a candidate, and no host before it in the order is one. */
  lemma {:induction false} FavouriteIsFirst(order: seq<string>, candidates: seq<string>)
    ensures var first := FirstPreferred(order, candidates);
            if first.None? then forall h :: h in order ==> h !in candidates
            else first.value in candidates &&
                 exists i :: 0 <= i < |order| && order[i] == first.value && forall j :: 0 <= j < i ==> order[j] !in candidates
  {
    if order != [] && order[0] !in candidates {
      FavouriteIsFirst(order[1..], candidates);
      var first := FirstPreferred(order, candidates);
      if first.Some? {
        var i :| 0 <= i < |order[1..]| && order[1..][i] == first.value && forall j :: 0 <= j < i ==> order[1..][j] !in candidates;
        assert order[i + 1] == first.value;
        forall j | 0 <= j < i + 1 ensures order[j] !in candidates {
          assert j > 0 ==> order[j] == order[1..][j - 1];
        }
      }
    }
  }

  lemma PickInFleet(q: Query, claimProbes: bool, pick: Pick)
    requires Selected(q, claimProbes, pick)
    ensures !pick.Nobody? ==> pick.host in q.fleet
    ensures pick.Probe? ==> q.fleet[pick.host].cb.Some?
    ensures !claimProbes ==> !pick.Probe?
  {
    if !pick.Nobody? { PickIsEligible(q, claimProbes, pick); }
  }
}
