/** The host preference a routing decision hands to the selector (cacheroute/shadow.go, Decide). */
module Decision {
  import opened Seqs
  import opened Hrw

  predicate Spare(ranked: seq<Candidate>, pick: string, delta: int, c: Candidate)
    requires ranked != []
  {
    c.host != pick && !OverCap(ranked, delta, c)
  }

  predicate Deep(ranked: seq<Candidate>, pick: string, delta: int, c: Candidate)
    requires ranked != []
  {
    c.host != pick && OverCap(ranked, delta, c)
  }

  function SpareHosts(ranked: seq<Candidate>, pick: string, delta: int, part: seq<Candidate>): seq<string>
    requires ranked != []
  {
    Hosts(Filter((c: Candidate) => Spare(ranked, pick, delta, c), part))
  }

  function DeepHosts(ranked: seq<Candidate>, pick: string, delta: int, part: seq<Candidate>): seq<string>
    requires ranked != []
  {
    Hosts(Filter((c: Candidate) => Deep(ranked, pick, delta, c), part))
  }

  /** The pick, then the other within-cap hosts, then the over-cap ones, each in ranking order. */
  function PreferenceOrder(ranked: seq<Candidate>, pick: string, delta: int): seq<string>
    requires ranked != []
  {
    [pick] + SpareHosts(ranked, pick, delta, ranked) + DeepHosts(ranked, pick, delta, ranked)
  }

  lemma PartStep(ranked: seq<Candidate>, pick: string, delta: int, i: nat)
    requires ranked != [] && i < |ranked|
    ensures SpareHosts(ranked, pick, delta, ranked[..i + 1]) ==
            SpareHosts(ranked, pick, delta, ranked[..i]) +
            (if Spare(ranked, pick, delta, ranked[i]) then [ranked[i].host] else [])
    ensures DeepHosts(ranked, pick, delta, ranked[..i + 1]) ==
            DeepHosts(ranked, pick, delta, ranked[..i]) +
            (if Deep(ranked, pick, delta, ranked[i]) then [ranked[i].host] else [])
  {
    assert ranked[..i + 1] == ranked[..i] + [ranked[i]];
    FilterAppend((c: Candidate) => Spare(ranked, pick, delta, c), ranked[..i], [ranked[i]]);
    FilterAppend((c: Candidate) => Deep(ranked, pick, delta, c), ranked[..i], [ranked[i]]);
  }

  lemma PartStart(ranked: seq<Candidate>, pick: string, delta: int)
    requires ranked != []
    ensures SpareHosts(ranked, pick, delta, ranked[..0]) == [] && DeepHosts(ranked, pick, delta, ranked[..0]) == []
    ensures delta < 0 ==> DeepHosts(ranked, pick, delta, ranked) == []
  {
    if delta < 0 { FilterNone((c: Candidate) => Deep(ranked, pick, delta, c), ranked); }
  }

  method ComputeOrder(ranked: seq<Candidate>, pick: string, delta: int) returns (order: seq<string>)
    requires ranked != []
    ensures order == PreferenceOrder(ranked, pick, delta)
  {
    hide SpareHosts, DeepHosts;
    PartStart(ranked, pick, delta);
    order := [pick];
    assert ranked[..|ranked|] == ranked;
    if delta >= 0 {
      var m := MinInFlight(ranked);
      var limit := m + delta;
      for i := 0 to |ranked|
        invariant order == [pick] + SpareHosts(ranked, pick, delta, ranked[..i])
      {
        PartStep(ranked, pick, delta, i);
        if ranked[i].host != pick && ranked[i].inFlight <= limit { order := order + [ranked[i].host]; }
      }
      for i := 0 to |ranked|
        invariant order == [pick] + SpareHosts(ranked, pick, delta, ranked) +
                           DeepHosts(ranked, pick, delta, ranked[..i])
      {
        PartStep(ranked, pick, delta, i);
        if ranked[i].host != pick && ranked[i].inFlight > limit { order := order + [ranked[i].host]; }
      }
    } else {
      for i := 0 to |ranked|
        invariant order == [pick] + SpareHosts(ranked, pick, delta, ranked[..i])
      {
        PartStep(ranked, pick, delta, i);
        if ranked[i].host != pick { order := order + [ranked[i].host]; }
      }
    }
  }

  /** The pick is a candidate within the cap. */
  lemma PickWithinCap(ranked: seq<Candidate>, r: int, delta: int)
    requires 1 <= r <= |ranked|
    ensures exists i :: 0 <= i < |ranked| && ranked[i].host == CappedPick(ranked, r, delta).0
                        && !OverCap(ranked, delta, ranked[i])
  {
    var warm := LeastLoadedIndex(ranked[..r]);
    assert ranked[..r][warm] == ranked[warm];
    var cool := LeastLoadedIndex(ranked);
    assert !OverCap(ranked, delta, ranked[cool]);
  }

  lemma {:induction false} FilterInOrder(score: string -> nat, p: Candidate -> bool, cs: seq<Candidate>)
    requires InOrder(score, Hosts(cs))
    ensures InOrder(score, Hosts(Filter(p, cs)))
  {
    if cs != [] {
      HeadFirst(score, cs);
      FilterInOrder(score, p, cs[1..]);
      if p(cs[0]) {
        var rest := Filter(p, cs[1..]);
        forall j | 0 <= j < |rest| ensures Before(score, cs[0].host, rest[j].host) {
          FilterMember(p, cs[1..], rest[j]);
        }
        ConsInOrder(score, cs[0], rest);
      }
    }
  }

  lemma FilteredHost(p: Candidate -> bool, cs: seq<Candidate>, h: string)
    ensures h in Hosts(Filter(p, cs)) <==> exists c :: c in cs && p(c) && c.host == h
  {
    var kept := Filter(p, cs);
    if h in Hosts(kept) {
      var i :| 0 <= i < |kept| && Hosts(kept)[i] == h;
      FilterMember(p, cs, kept[i]);
    }
    if c :| c in cs && p(c) && c.host == h {
      FilterMember(p, cs, c);
      var i :| 0 <= i < |kept| && kept[i] == c;
      assert Hosts(kept)[i] == h;
    }
  }

  /** Candidates with distinct hosts are determined by their host. */
  lemma SameHostSame(cs: seq<Candidate>, c: Candidate, d: Candidate)
    requires NoDup(Hosts(cs)) && c in cs && d in cs && c.host == d.host
    ensures c == d
  {
    var i :| 0 <= i < |cs| && cs[i] == c;
    var j :| 0 <= j < |cs| && cs[j] == d;
    assert Hosts(cs)[i] == Hosts(cs)[j];
  }

  ghost predicate PickIn(ranked: seq<Candidate>, delta: int, pick: string, at: Candidate)
    requires ranked != []
  {
    at in ranked && at.host == pick && !OverCap(ranked, delta, at)
  }

  /** Where each candidate of a distinct-host ranking stands in the order. */
  lemma OrderPlaces(ranked: seq<Candidate>, delta: int, pick: string, at: Candidate, h: string)
    requires ranked != [] && NoDup(Hosts(ranked)) && PickIn(ranked, delta, pick, at)
    ensures var inSpare := h in SpareHosts(ranked, pick, delta, ranked);
            var inDeep := h in DeepHosts(ranked, pick, delta, ranked);
            !(inSpare && inDeep) && (h == pick ==> !inSpare && !inDeep) &&
            ((h == pick || inSpare || inDeep) <==> h in Hosts(ranked)) &&
            (inDeep <==> exists c :: c in ranked && c.host == h && OverCap(ranked, delta, c))
  {
    FilteredHost((c: Candidate) => Spare(ranked, pick, delta, c), ranked, h);
    FilteredHost((c: Candidate) => Deep(ranked, pick, delta, c), ranked, h);
    FilteredHost((c: Candidate) => true, ranked, h);
    FilterAll((c: Candidate) => true, ranked);
    forall c, d | c in ranked && d in ranked && c.host == d.host ensures c == d {
      SameHostSame(ranked, c, d);
    }
  }

  /** What Decide promises about its order, for every pool of distinct hosts: it starts with the
      pick, lists every candidate exactly once, puts exactly the over-cap hosts last, and
      keeps the ranking inside each part. */
  lemma OrderPrefersPickThenCap(score: string -> nat, cs: seq<Candidate>, r: int, delta: int)
    requires NoDup(Hosts(cs)) && 1 <= r <= |cs|
    ensures |Rank(score, cs)| == |cs|
    ensures var ranked := Rank(score, cs);
            var pick := CappedPick(ranked, r, delta).0;
            var order := PreferenceOrder(ranked, pick, delta);
            var deep := DeepHosts(ranked, pick, delta, ranked);
            order[0] == pick && NoDup(order) && |deep| < |order| &&
            (forall h :: h in order <==> h in Hosts(cs)) &&
            order[|order| - |deep|..] == deep &&
            (forall h :: h in deep <==> exists c :: c in cs && c.host == h && OverCap(ranked, delta, c)) &&
            InOrder(score, order[1..|order| - |deep|]) && InOrder(score, deep)
  {
    RankSorts(score, cs);
    var ranked := Rank(score, cs);
    var pick := CappedPick(ranked, r, delta).0;
    PickWithinCap(ranked, r, delta);
    var i :| 0 <= i < |ranked| && ranked[i].host == pick && !OverCap(ranked, delta, ranked[i]);
    InOrderNoDup(score, Hosts(ranked));
    HostsMultiset(ranked, cs);
    var spare, deep := SpareHosts(ranked, pick, delta, ranked), DeepHosts(ranked, pick, delta, ranked);
    FilterInOrder(score, (c: Candidate) => Spare(ranked, pick, delta, c), ranked);
    FilterInOrder(score, (c: Candidate) => Deep(ranked, pick, delta, c), ranked);
    InOrderNoDup(score, spare);
    InOrderNoDup(score, deep);
    var order := PreferenceOrder(ranked, pick, delta);
    forall h
      ensures !(h in spare && h in deep) && (h == pick ==> h !in spare && h !in deep)
      ensures h == pick || h in spare || h in deep <==> h in Hosts(cs)
      ensures h in deep <==> exists c :: c in ranked && c.host == h && OverCap(ranked, delta, c)
    {
      OrderPlaces(ranked, delta, pick, ranked[i], h);
    }
    assert order == [pick] + spare + deep;
    Concatenate(pick, spare, deep);
    assert forall c :: c in cs <==> c in multiset(ranked);
  }

  lemma Concatenate(pick: string, spare: seq<string>, deep: seq<string>)
    requires NoDup(spare) && NoDup(deep) && pick !in spare && pick !in deep
    requires forall h :: !(h in spare && h in deep)
    ensures var order := [pick] + spare + deep;
            NoDup(order) && order[|order| - |deep|..] == deep && order[1..|order| - |deep|] == spare &&
            forall h :: h in order <==> h == pick || h in spare || h in deep
  {
    var order := [pick] + spare + deep;
    forall i, j | 0 <= i < j < |order| ensures order[i] != order[j] {
      assert i > 0 && i <= |spare| ==> order[i] == spare[i - 1] && order[i] in spare;
      assert i > |spare| ==> order[i] == deep[i - 1 - |spare|];
      assert 0 < j <= |spare| ==> order[j] == spare[j - 1] && order[j] in spare;
      assert j > |spare| ==> order[j] == deep[j - 1 - |spare|] && order[j] in deep;
    }
  }
}
