/** Reserved capacity: deriving the pools from the configuration, and the isolation they give
    (manager/manager.go, manager/routing_tiers.go). */
module Reservations {
  import opened Seqs
  import M = Metrics
  import S = Selection

  datatype Reservation = Reservation(orgIDs: seq<string>, enclaves: seq<string>, overload: M.Policy)

  /** The lookup sets applyReservations derives; shared is None when nothing is reserved. */
  datatype Derived = Derived(
    byOrg: map<string, set<string>>, reserved: set<string>, overloads: map<string, M.Policy>,
    policies: map<string, M.Policy>)

  const NOTHING := Derived(map[], {}, map[], map[])

  // ---- What the configuration says ------------------------------------------------------

  /** The configured hosts a reservation names; unknown ones are dropped. */
  function Recognized(res: Reservation, known: set<string>): set<string> {
    set h | h in res.enclaves && h in known
  }

  /** The hosts reserved for an organization: over all reservations that list it. */
  function ReservedFor(rs: seq<Reservation>, known: set<string>, org: string): set<string> {
    if rs == [] then {}
    else
      var last := rs[|rs| - 1];
      ReservedFor(rs[..|rs| - 1], known, org) + (if org != "" && org in last.orgIDs then Recognized(last, known) else {})
  }

  ghost predicate IsReserved(rs: seq<Reservation>, known: set<string>, h: string) {
    exists org :: h in ReservedFor(rs, known, org)
  }

  /** The policy of an organization: from the last reservation that gives it a host, or the model's. */
  function PolicyFor(rs: seq<Reservation>, known: set<string>, org: string, model: M.Policy): Option<M.Policy> {
    if rs == [] then None
    else
      var last := rs[|rs| - 1];
      if org != "" && org in last.orgIDs && Recognized(last, known) != {}
      then Some(if last.overload.Some? then last.overload else model)
      else PolicyFor(rs[..|rs| - 1], known, org, model)
  }

  // ---- The loops, as folds -----------------------------------------------------------------

  function HostsOf(d: Derived, org: string): set<string> {
    if org in d.byOrg then d.byOrg[org] else {}
  }

  function ApplyOrg(d: Derived, res: Reservation, org: string, known: set<string>, model: M.Policy): Derived {
    if org == "" then d
    else
      var hosts := Recognized(res, known);
      var all := HostsOf(d, org) + hosts;
      Derived(
        if all == {} then d.byOrg - {org} else d.byOrg[org := all],
        d.reserved + hosts,
        map h | h in d.overloads.Keys + hosts :: if h in hosts then res.overload else d.overloads[h],
        if all != {} && hosts != {} then d.policies[org := if res.overload.Some? then res.overload else model] else d.policies)
  }

  function ApplyOrgs(d: Derived, res: Reservation, n: nat, known: set<string>, model: M.Policy): Derived
    requires n <= |res.orgIDs|
  {
    if n == 0 then d else ApplyOrg(ApplyOrgs(d, res, n - 1, known, model), res, res.orgIDs[n - 1], known, model)
  }

  function ApplyAll(rs: seq<Reservation>, known: set<string>, model: M.Policy): Derived {
    if rs == [] then NOTHING
    else
      var last := rs[|rs| - 1];
      var before := ApplyAll(rs[..|rs| - 1], known, model);
      if last.orgIDs == [] || last.enclaves == [] then before
      else ApplyOrgs(before, last, |last.orgIDs|, known, model)
  }

  // ---- The folds compute what the configuration says -------------------------------------------

  /** d agrees with the configuration for one organization. */
  ghost predicate OrgOk(d: Derived, org: string, hosts: set<string>, policy: Option<M.Policy>) {
    HostsOf(d, org) == hosts && (org in d.byOrg <==> hosts != {}) &&
    (if org in d.policies then policy == Some(d.policies[org]) else policy == None)
  }

  function After(hosts: set<string>, res: Reservation, known: set<string>, listed: bool): set<string> {
    hosts + (if listed then Recognized(res, known) else {})
  }

  function PolicyAfter(policy: Option<M.Policy>, res: Reservation, known: set<string>, listed: bool, model: M.Policy)
    : Option<M.Policy>
  {
    if listed && Recognized(res, known) != {} then Some(if res.overload.Some? then res.overload else model) else policy
  }

  /** One organization of the list: only its own row changes. */
  lemma ApplyOrgOk(d: Derived, res: Reservation, other: string, known: set<string>, model: M.Policy,
                   org: string, hosts: set<string>, policy: Option<M.Policy>)
    requires OrgOk(d, org, hosts, policy)
    ensures var listed := org != "" && org == other;
            OrgOk(ApplyOrg(d, res, other, known, model), org, After(hosts, res, known, listed),
                  PolicyAfter(policy, res, known, listed, model))
  {
    hide Recognized;
  }

  lemma {:induction false} ApplyOrgsOk(d: Derived, res: Reservation, n: nat, known: set<string>, model: M.Policy,
                                       org: string, hosts: set<string>, policy: Option<M.Policy>)
    requires n <= |res.orgIDs| && OrgOk(d, org, hosts, policy)
    ensures var listed := org != "" && org in res.orgIDs[..n];
            OrgOk(ApplyOrgs(d, res, n, known, model), org, After(hosts, res, known, listed),
                  PolicyAfter(policy, res, known, listed, model))
  {
    hide OrgOk, ApplyOrg, Recognized;
    if n > 0 {
      ApplyOrgsOk(d, res, n - 1, known, model, org, hosts, policy);
      var listed := org != "" && org in res.orgIDs[..n - 1];
      var hosts', policy' := After(hosts, res, known, listed), PolicyAfter(policy, res, known, listed, model);
      ApplyOrgOk(ApplyOrgs(d, res, n - 1, known, model), res, res.orgIDs[n - 1], known, model, org, hosts', policy');
      assert res.orgIDs[..n] == res.orgIDs[..n - 1] + [res.orgIDs[n - 1]];
      var both := org != "" && org in res.orgIDs[..n];
      assert After(hosts', res, known, org != "" && org == res.orgIDs[n - 1]) == After(hosts, res, known, both);
    } else {
      assert After(hosts, res, known, false) == hosts;
    }
  }

  /** Per organization: its hosts, whether it has any, and its policy. */
  lemma {:induction false} DerivedPerOrg(rs: seq<Reservation>, known: set<string>, model: M.Policy, org: string)
    ensures OrgOk(ApplyAll(rs, known, model), org, ReservedFor(rs, known, org), PolicyFor(rs, known, org, model))
  {
    if rs != [] {
      var last, before := rs[|rs| - 1], rs[..|rs| - 1];
      DerivedPerOrg(before, known, model, org);
      var d := ApplyAll(before, known, model);
      var hosts, policy := ReservedFor(before, known, org), PolicyFor(before, known, org, model);
      if last.orgIDs != [] && last.enclaves != [] {
        ApplyOrgsOk(d, last, |last.orgIDs|, known, model, org, hosts, policy);
        assert last.orgIDs[..|last.orgIDs|] == last.orgIDs;
      } else {
        assert org in last.orgIDs ==> last.enclaves == [];
        assert last.enclaves == [] ==> Recognized(last, known) == {};
      }
    }
  }

  lemma {:induction false} ApplyOrgsReserved(d: Derived, res: Reservation, n: nat, known: set<string>, model: M.Policy)
    requires n <= |res.orgIDs|
    ensures ApplyOrgs(d, res, n, known, model).reserved ==
            After(d.reserved, res, known, exists j :: 0 <= j < n && res.orgIDs[j] != "")
  {
    if n > 0 { ApplyOrgsReserved(d, res, n - 1, known, model); }
  }

  /** The union of what all organizations have. */
  lemma {:induction false} DerivedReserved(rs: seq<Reservation>, known: set<string>, model: M.Policy, h: string)
    ensures h in ApplyAll(rs, known, model).reserved <==> IsReserved(rs, known, h)
    ensures IsReserved(rs, known, h) ==> h in known
  {
    if rs != [] {
      var last, before := rs[|rs| - 1], rs[..|rs| - 1];
      DerivedReserved(before, known, model, h);
      var d := ApplyAll(before, known, model);
      if IsReserved(before, known, h) {
        var org :| h in ReservedFor(before, known, org);
        assert h in ReservedFor(rs, known, org);
      }
      if last.orgIDs != [] && last.enclaves != [] {
        ApplyOrgsReserved(d, last, |last.orgIDs|, known, model);
        if h in Recognized(last, known) && exists j :: 0 <= j < |last.orgIDs| && last.orgIDs[j] != "" {
          var j :| 0 <= j < |last.orgIDs| && last.orgIDs[j] != "";
          assert h in ReservedFor(rs, known, last.orgIDs[j]);
        }
      }
      if IsReserved(rs, known, h) {
        var org :| h in ReservedFor(rs, known, org);
        if h !in ReservedFor(before, known, org) {
          var j :| 0 <= j < |last.orgIDs| && last.orgIDs[j] == org;
        }
      }
    }
  }

  // ---- Pools and isolation ------------------------------------------------------------------------

  /** The filters and policy a caller gets: primary None means no filter at all. */
  datatype CallerPools = CallerPools(primary: Option<set<string>>, spill: set<string>, policy: M.Policy)

  function Shared(d: Derived, known: set<string>): set<string> { known - d.reserved }

  function PoolsFor(d: Derived, known: set<string>, org: string, model: M.Policy): CallerPools {
    if d.byOrg == map[] then CallerPools(None, {}, model)
    else if org != "" && org in d.byOrg then
      CallerPools(Some(d.byOrg[org]), Shared(d, known), if org in d.policies then d.policies[org] else None)
    else CallerPools(Some(Shared(d, known)), {}, model)
  }

  /** Once any reservation takes effect, shared and reserved hosts partition the configured ones;
      before that nothing is reserved. */
  lemma PartitionOrNothing(rs: seq<Reservation>, known: set<string>, model: M.Policy)
    ensures var d := ApplyAll(rs, known, model);
            d.reserved <= known && Shared(d, known) + d.reserved == known && Shared(d, known) !! d.reserved &&
            (d.byOrg == map[] <==> d.reserved == {})
  {
    var d := ApplyAll(rs, known, model);
    forall h | h in d.reserved ensures h in known && d.byOrg != map[] {
      DerivedReserved(rs, known, model, h);
      var org :| h in ReservedFor(rs, known, org);
      DerivedPerOrg(rs, known, model, org);
      assert org in d.byOrg;
    }
    if d.byOrg != map[] {
      var org :| org in d.byOrg;
      DerivedPerOrg(rs, known, model, org);
      var h :| h in ReservedFor(rs, known, org);
      DerivedReserved(rs, known, model, h);
      assert IsReserved(rs, known, h);
    }
  }

  /** A reserved caller is routed under its own reservation's policy. */
  lemma ReservedCallerPolicy(rs: seq<Reservation>, known: set<string>, model: M.Policy, org: string)
    requires ReservedFor(rs, known, org) != {}
    ensures PolicyFor(rs, known, org, model) == Some(PoolsFor(ApplyAll(rs, known, model), known, org, model).policy)
    ensures PoolsFor(ApplyAll(rs, known, model), known, org, model).primary == Some(ReservedFor(rs, known, org))
  {
    DerivedPerOrg(rs, known, model, org);
    NamedHasPolicy(rs, known, model, org);
  }

  lemma {:induction false} NamedHasPolicy(rs: seq<Reservation>, known: set<string>, model: M.Policy, org: string)
    requires ReservedFor(rs, known, org) != {}
    ensures org != "" && PolicyFor(rs, known, org, model).Some?
  {
    var last, before := rs[|rs| - 1], rs[..|rs| - 1];
    if ReservedFor(before, known, org) != {} { NamedHasPolicy(before, known, model, org); }
  }

  /** The pools of every caller, from the configuration: no filter while nothing is reserved; otherwise
      its own hosts, if it has any, with every configured host nobody reserved to spill to, or just
      the latter. */
  lemma PoolsExactly(rs: seq<Reservation>, known: set<string>, model: M.Policy, org: string)
    ensures var pools := PoolsFor(ApplyAll(rs, known, model), known, org, model);
            if forall h :: !IsReserved(rs, known, h) then pools == CallerPools(None, {}, model)
            else if ReservedFor(rs, known, org) == {} then
              pools.primary.Some? && pools.spill == {} && pools.policy == model &&
              forall h :: h in pools.primary.value <==> h in known && !IsReserved(rs, known, h)
            else
              pools.primary == Some(ReservedFor(rs, known, org)) &&
              PolicyFor(rs, known, org, model) == Some(pools.policy) &&
              forall h :: h in pools.spill <==> h in known && !IsReserved(rs, known, h)
  {
    hide IsReserved, ReservedFor, ApplyAll, PolicyFor;
    var d := ApplyAll(rs, known, model);
    PartitionOrNothing(rs, known, model);
    DerivedPerOrg(rs, known, model, org);
    NoOrgNoHosts(rs, known);
    forall h ensures h in d.reserved <==> IsReserved(rs, known, h) { DerivedReserved(rs, known, model, h); }
    if ReservedFor(rs, known, org) != {} { ReservedCallerPolicy(rs, known, model, org); }
    assert d.reserved == {} <==> forall h :: !IsReserved(rs, known, h);
  }

  lemma {:induction false} NoOrgNoHosts(rs: seq<Reservation>, known: set<string>)
    ensures ReservedFor(rs, known, "") == {}
  {
    if rs != [] { NoOrgNoHosts(rs[..|rs| - 1], known); }
  }

  /** The overload policy a host is polled under: that of the last reservation, for an actual
      organization, that names it. */
  function OverloadFor(rs: seq<Reservation>, known: set<string>, h: string): Option<M.Policy> {
    if rs == [] then None
    else
      var last := rs[|rs| - 1];
      if h in last.enclaves && h in known && (exists j :: 0 <= j < |last.orgIDs| && last.orgIDs[j] != "") then Some(last.overload)
      else OverloadFor(rs[..|rs| - 1], known, h)
  }

  lemma {:induction false} ApplyOrgsOverload(d: Derived, res: Reservation, n: nat, known: set<string>, model: M.Policy, h: string)
    requires n <= |res.orgIDs|
    ensures var r := ApplyOrgs(d, res, n, known, model).overloads;
            if h in Recognized(res, known) && (exists j :: 0 <= j < n && res.orgIDs[j] != "") then h in r && r[h] == res.overload
            else (h in r <==> h in d.overloads) && (h in r ==> r[h] == d.overloads[h])
  {
    if n > 0 {
      ApplyOrgsOverload(d, res, n - 1, known, model, h);
      if exists j :: 0 <= j < n && res.orgIDs[j] != "" {
        var j :| 0 <= j < n && res.orgIDs[j] != "";
        assert j < n - 1 || res.orgIDs[n - 1] != "";
      }
    }
  }

  lemma {:induction false} DerivedOverloads(rs: seq<Reservation>, known: set<string>, model: M.Policy, h: string)
    ensures var r := ApplyAll(rs, known, model).overloads;
            (h in r <==> OverloadFor(rs, known, h).Some?) && (h in r ==> OverloadFor(rs, known, h) == Some(r[h]))
  {
    if rs != [] {
      var last, before := rs[|rs| - 1], rs[..|rs| - 1];
      DerivedOverloads(before, known, model, h);
      if last.orgIDs != [] && last.enclaves != [] {
        hide ApplyOrgs;
        ApplyOrgsOverload(ApplyAll(before, known, model), last, |last.orgIDs|, known, model, h);
      }
    }
  }

  /** Isolation: whatever the configuration, the fleet, the caller and the probes, selection over
      the caller's pools never returns a host reserved for others and not for the caller. */
  lemma ReservationsIsolate(rs: seq<Reservation>, known: set<string>, model: M.Policy, org: string,
                            q: S.Query, claimProbes: bool, pick: S.Pick)
    requires var pools := PoolsFor(ApplyAll(rs, known, model), known, org, model);
             q.primary == pools.primary && q.spill == pools.spill
    requires S.Selected(q, claimProbes, pick) && !pick.Nobody?
    ensures IsReserved(rs, known, pick.host) ==> pick.host in ReservedFor(rs, known, org)
  {
    var d := ApplyAll(rs, known, model);
    S.PickIsEligible(q, claimProbes, pick);
    PartitionOrNothing(rs, known, model);
    DerivedReserved(rs, known, model, pick.host);
    DerivedPerOrg(rs, known, model, org);
  }
}
