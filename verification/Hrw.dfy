/** Rendezvous (HRW) ranking, replication factor and the load cap (cacheroute/hrw.go). */
module Hrw {
  import opened Seqs

  datatype Candidate = Candidate(host: string, inFlight: int)

  // ---- The order on hosts -------------------------------------------------

  /** strings.Compare(a, b) < 0. */
  predicate HostLess(a: string, b: string) { Less(Codes(a), Codes(b)) }

  /** The comparator of rank: higher score first, ties to the smaller host.
      score stands for xxhash64(key, host) at the request's fixed key. */
  predicate Before(score: string -> nat, a: string, b: string) {
    score(a) > score(b) || (score(a) == score(b) && HostLess(a, b))
  }

  lemma BeforeTotal(score: string -> nat, a: string, b: string)
    requires a != b
    ensures Before(score, a, b) != Before(score, b, a)
  {
    CodesDiffer(a, b);
    LessTotal(Codes(a), Codes(b));
  }

  lemma BeforeTransitive(score: string -> nat, a: string, b: string, c: string)
    requires Before(score, a, b) && Before(score, b, c)
    ensures Before(score, a, c)
  {
    if score(a) == score(b) == score(c) { LessTransitive(Codes(a), Codes(b), Codes(c)); }
  }

  // ---- Ranking -------------------------------------------------------------

  function Hosts(cs: seq<Candidate>): (hs: seq<string>)
    ensures |hs| == |cs| && forall i :: 0 <= i < |cs| ==> hs[i] == cs[i].host
  {
    seq(|cs|, i requires 0 <= i < |cs| => cs[i].host)
  }

  /** A sequence of hosts in strict comparator order. */
  ghost predicate InOrder(score: string -> nat, hs: seq<string>) {
    forall i, j :: 0 <= i < j < |hs| ==> Before(score, hs[i], hs[j])
  }

  function Insert(score: string -> nat, c: Candidate, ranked: seq<Candidate>): (r: seq<Candidate>)
    ensures |r| == |ranked| + 1
    ensures forall x :: x in r ==> x == c || x in ranked
  {
    if ranked == [] then [c]
    else if Before(score, ranked[0].host, c.host) then [ranked[0]] + Insert(score, c, ranked[1..])
    else [c] + ranked
  }

  /** The sorted clone of candidates. RankingIsUnique shows that, for distinct
      hosts, the result does not depend on the sorting algorithm. */
  function Rank(score: string -> nat, cs: seq<Candidate>): (r: seq<Candidate>)
    ensures |r| == |cs|
    ensures forall x :: x in r ==> x in cs
  {
    if cs == [] then [] else Insert(score, cs[0], Rank(score, cs[1..]))
  }

  lemma ConsInOrder(score: string -> nat, c: Candidate, rest: seq<Candidate>)
    requires InOrder(score, Hosts(rest))
    requires forall j :: 0 <= j < |rest| ==> Before(score, c.host, rest[j].host)
    ensures InOrder(score, Hosts([c] + rest))
  {
    assert Hosts([c] + rest) == [c.host] + Hosts(rest);
  }

  lemma {:induction false} InsertMultiset(score: string -> nat, c: Candidate, ranked: seq<Candidate>)
    ensures multiset(Insert(score, c, ranked)) == multiset(ranked) + multiset{c}
  {
    if ranked != [] {
      assert ranked == [ranked[0]] + ranked[1..];
      InsertMultiset(score, c, ranked[1..]);
    }
  }

  /** Everything after the head of a ranking comes after it in the order. */
  lemma HeadFirst(score: string -> nat, ranked: seq<Candidate>)
    requires InOrder(score, Hosts(ranked)) && ranked != []
    ensures InOrder(score, Hosts(ranked[1..]))
    ensures forall x :: x in ranked[1..] ==> Before(score, ranked[0].host, x.host)
  {
    assert Hosts(ranked[1..]) == Hosts(ranked)[1..];
    forall j | 1 <= j < |ranked| ensures Before(score, ranked[0].host, ranked[j].host) {
      assert Before(score, Hosts(ranked)[0], Hosts(ranked)[j]);
    }
  }

  lemma {:induction false} InsertKeepsOrder(score: string -> nat, c: Candidate, ranked: seq<Candidate>)
    requires InOrder(score, Hosts(ranked))
    requires forall x :: x in ranked ==> x.host != c.host
    ensures InOrder(score, Hosts(Insert(score, c, ranked)))
  {
    if ranked != [] {
      HeadFirst(score, ranked);
      var first, rest := ranked[0], ranked[1..];
      if Before(score, first.host, c.host) {
        InsertKeepsOrder(score, c, rest);
        var tail := Insert(score, c, rest);
        InsertMultiset(score, c, rest);
        forall j | 0 <= j < |tail| ensures Before(score, first.host, tail[j].host) {
          assert tail[j] in multiset(tail);
        }
        ConsInOrder(score, first, tail);
      } else {
        BeforeTotal(score, first.host, c.host);
        forall j | 0 <= j < |ranked| ensures Before(score, c.host, ranked[j].host) {
          if j > 0 { BeforeTransitive(score, c.host, first.host, ranked[j].host); }
        }
        ConsInOrder(score, c, ranked);
      }
    }
  }

  lemma HostsMultiset(a: seq<Candidate>, b: seq<Candidate>)
    requires multiset(a) == multiset(b)
    ensures forall h :: h in Hosts(a) <==> h in Hosts(b)
  {
    forall h | h in Hosts(a) ensures h in Hosts(b) {
      var i :| 0 <= i < |a| && Hosts(a)[i] == h;
      assert a[i] in multiset(b);
      var j :| 0 <= j < |b| && b[j] == a[i];
      assert Hosts(b)[j] == h;
    }
    forall h | h in Hosts(b) ensures h in Hosts(a) {
      var i :| 0 <= i < |b| && Hosts(b)[i] == h;
      assert b[i] in multiset(a);
      var j :| 0 <= j < |a| && a[j] == b[i];
      assert Hosts(a)[j] == h;
    }
  }

  /** rank returns a permutation of the candidates in comparator order. */
  lemma {:induction false} RankSorts(score: string -> nat, cs: seq<Candidate>)
    requires NoDup(Hosts(cs))
    ensures multiset(Rank(score, cs)) == multiset(cs)
    ensures InOrder(score, Hosts(Rank(score, cs)))
    ensures |Rank(score, cs)| == |cs|
  {
    if cs != [] {
      assert cs == [cs[0]] + cs[1..];
      assert Hosts(cs[1..]) == Hosts(cs)[1..];
      assert forall j :: 0 < j < |cs| ==> Hosts(cs)[j] != Hosts(cs)[0];
      RankSorts(score, cs[1..]);
      var rest := Rank(score, cs[1..]);
      forall x | x in rest ensures x.host != cs[0].host {
        assert x in multiset(rest);
        assert x in cs[1..];
      }
      InsertMultiset(score, cs[0], rest);
      InsertKeepsOrder(score, cs[0], rest);
    }
    assert |multiset(Rank(score, cs))| == |multiset(cs)|;
  }

  lemma BeforeAsymmetric(score: string -> nat, a: string, b: string)
    ensures !(Before(score, a, b) && Before(score, b, a))
  {
    if a == b { LessIrreflexive(Codes(a)); } else { BeforeTotal(score, a, b); }
  }

  /** At most one arrangement of a host set is in comparator order. */
  lemma RankingIsUnique(score: string -> nat, a: seq<string>, b: seq<string>)
    requires InOrder(score, a) && InOrder(score, b)
    requires forall h :: h in a <==> h in b
    ensures a == b
  {
    forall x, y ensures !(Before(score, x, y) && Before(score, y, x)) { BeforeAsymmetric(score, x, y); }
    hide Before;
    ArrangementIsUnique((x: string, y: string) => Before(score, x, y), a, b);
  }

  /** The ranking is a function of the key and the host set: neither the order in
      which candidates arrive nor their load changes it. */
  lemma RankIgnoresOrderAndLoad(score: string -> nat, a: seq<Candidate>, b: seq<Candidate>)
    requires NoDup(Hosts(a)) && NoDup(Hosts(b))
    requires forall h :: h in Hosts(a) <==> h in Hosts(b)
    ensures Hosts(Rank(score, a)) == Hosts(Rank(score, b))
  {
    RankSorts(score, a);
    RankSorts(score, b);
    HostsMultiset(a, Rank(score, a));
    HostsMultiset(b, Rank(score, b));
    RankingIsUnique(score, Hosts(Rank(score, a)), Hosts(Rank(score, b)));
  }

  lemma InOrderNoDup(score: string -> nat, hs: seq<string>)
    requires InOrder(score, hs)
    ensures NoDup(hs)
  {
    forall i, j | 0 <= i < j < |hs| ensures hs[i] != hs[j] {
      assert Before(score, hs[i], hs[j]);
      LessIrreflexive(Codes(hs[i]));
    }
  }

  lemma {:induction false} WithoutInOrder(score: string -> nat, hs: seq<string>, h: string)
    requires InOrder(score, hs)
    ensures InOrder(score, Without(hs, h))
    ensures forall x :: x in Without(hs, h) <==> x in hs && x != h
  {
    InOrderNoDup(score, hs);
    WithoutProps(hs, h);
    if hs != [] {
      WithoutInOrder(score, hs[1..], h);
      var rest := Without(hs[1..], h);
      forall j | 0 <= j < |rest| ensures Before(score, hs[0], rest[j]) {
        assert rest[j] in hs[1..];
      }
    }
  }

  predicate OtherHost(h: string, c: Candidate) { c.host != h }

  /** The pool after the replica h left it. */
  function Drop(cs: seq<Candidate>, h: string): seq<Candidate> {
    Filter((c: Candidate) => OtherHost(h, c), cs)
  }

  lemma {:induction false} DropHosts(cs: seq<Candidate>, h: string)
    ensures Hosts(Drop(cs, h)) == Without(Hosts(cs), h)
  {
    if cs != [] {
      DropHosts(cs[1..], h);
      assert Hosts(cs[1..]) == Hosts(cs)[1..];
      assert Hosts(Drop(cs, h)) == (if cs[0].host == h then [] else [cs[0].host]) + Hosts(Drop(cs[1..], h));
    }
  }

  /** Removing a replica keeps the relative order of all the others. */
  lemma RemovalKeepsRelativeOrder(score: string -> nat, cs: seq<Candidate>, h: string)
    requires NoDup(Hosts(cs))
    ensures Hosts(Rank(score, Drop(cs, h))) == Without(Hosts(Rank(score, cs)), h)
  {
    DropHosts(cs, h);
    WithoutProps(Hosts(cs), h);
    RankSorts(score, cs);
    RankSorts(score, Drop(cs, h));
    HostsMultiset(cs, Rank(score, cs));
    HostsMultiset(Drop(cs, h), Rank(score, Drop(cs, h)));
    WithoutInOrder(score, Hosts(Rank(score, cs)), h);
    RankingIsUnique(score, Hosts(Rank(score, Drop(cs, h))), Without(Hosts(Rank(score, cs)), h));
  }

  lemma {:induction false} WithoutPrefix(hs: seq<string>, h: string, r: nat)
    requires r <= |hs| && h !in hs[..r]
    ensures r <= |Without(hs, h)| && Without(hs, h)[..r] == hs[..r]
  {
    if r > 0 {
      assert hs[0] in hs[..r];
      assert forall x :: x in hs[1..][..r - 1] ==> x in hs[..r];
      WithoutPrefix(hs[1..], h, r - 1);
      assert hs[..r] == [hs[0]] + hs[1..][..r - 1];
    }
  }

  /** A key's top-r replica set changes with the removal of h exactly when h was in it. */
  lemma TopSetChangesIffMember(score: string -> nat, cs: seq<Candidate>, h: string, r: nat)
    requires NoDup(Hosts(cs)) && r <= |cs|
    ensures var before := Hosts(Rank(score, cs));
            var after := Hosts(Rank(score, Drop(cs, h)));
            |before| == |cs| &&
            (h !in before[..r] <==> r <= |after| && after[..r] == before[..r])
  {
    RankSorts(score, cs);
    RemovalKeepsRelativeOrder(score, cs, h);
    var before := Hosts(Rank(score, cs));
    if h !in before[..r] {
      WithoutPrefix(before, h, r);
    } else {
      WithoutInOrder(score, before, h);
      var after := Without(before, h);
      assert r <= |after| ==> forall x :: x in after[..r] ==> x in after;
    }
  }

  /** rank as the source runs it: one pass fills the score table, then the clone is sorted by it. */
  method RankCandidates(score: string -> nat, candidates: seq<Candidate>) returns (ranked: seq<Candidate>)
    ensures ranked == Rank(score, candidates)
  {
    var scores: map<string, nat> := map[];
    for i := 0 to |candidates|
      invariant forall k :: 0 <= k < i ==> candidates[k].host in scores
      invariant forall h :: h in scores ==> scores[h] == score(h)
    {
      scores := scores[candidates[i].host := score(candidates[i].host)];
    }
    ranked := [];
    var n := |candidates|;
    while n > 0
      invariant 0 <= n <= |candidates|
      invariant ranked == Rank(score, candidates[n..])
    {
      n := n - 1;
      assert candidates[n..] == [candidates[n]] + candidates[n + 1..];
      var memo := (h: string) => if h in scores then scores[h] else score(h);
      InsertCongruent(score, memo, candidates[n], ranked);
      ranked := Insert(memo, candidates[n], ranked);
    }
    assert candidates[0..] == candidates;
  }

  lemma {:induction false} InsertCongruent(f: string -> nat, g: string -> nat, c: Candidate, ranked: seq<Candidate>)
    requires forall h :: f(h) == g(h)
    ensures Insert(f, c, ranked) == Insert(g, c, ranked)
  {
    if ranked != [] { InsertCongruent(f, g, c, ranked[1..]); }
  }

  // ---- Replication factor ----------------------------------------------------

  function Ceil(x: real): int { -((-x).Floor) }

  /** The warm-set size: one replica per threshold's worth of traffic, within [1, poolSize]. */
  function ReplicationFactor(rpm: real, thresholdRPM: real, poolSize: int): (r: int)
    ensures 1 <= r && (poolSize >= 1 ==> r <= poolSize)
  {
    if thresholdRPM <= 0.0 || poolSize <= 1 then 1
    else
      var r := Ceil(rpm / thresholdRPM);
      if r < 1 then 1 else if r > poolSize then poolSize else r
  }

  lemma CeilBounds(x: real)
    ensures x <= Ceil(x) as real < x + 1.0
  {
    var f := (-x).Floor;
    assert f as real <= -x < f as real + 1.0;
  }

  /** q replicas can absorb the rate at the split threshold. */
  predicate Covers(q: int, thresholdRPM: real, rpm: real) {
    rpm <= q as real * thresholdRPM
  }

  lemma CoversIff(q: int, thresholdRPM: real, rpm: real)
    requires thresholdRPM > 0.0
    ensures Covers(q, thresholdRPM, rpm) <==> rpm / thresholdRPM <= q as real
  {
    var x, y := rpm / thresholdRPM, q as real;
    assert x * thresholdRPM == rpm;
    assert x <= y ==> x * thresholdRPM <= y * thresholdRPM;
    assert x > y ==> x * thresholdRPM > y * thresholdRPM;
  }

  /** The factor is the least warm-set size that covers the rate, or the whole pool. */
  lemma ReplicationFactorIsLeast(rpm: real, thresholdRPM: real, poolSize: int)
    requires thresholdRPM > 0.0 && poolSize > 1
    ensures var r := ReplicationFactor(rpm, thresholdRPM, poolSize);
            (r < poolSize ==> Covers(r, thresholdRPM, rpm)) &&
            forall q :: 1 <= q < r ==> !Covers(q, thresholdRPM, rpm)
  {
    CeilBounds(rpm / thresholdRPM);
    var r := ReplicationFactor(rpm, thresholdRPM, poolSize);
    CoversIff(r, thresholdRPM, rpm);
    forall q | 1 <= q < r ensures !Covers(q, thresholdRPM, rpm) {
      CoversIff(q, thresholdRPM, rpm);
    }
  }

  // ---- Load ------------------------------------------------------------------

  /** The i-th candidate has the least load and every earlier one has strictly more. */
  ghost predicate FirstLeast(cs: seq<Candidate>, i: int) {
    0 <= i < |cs| &&
    (forall j :: 0 <= j < |cs| ==> cs[i].inFlight <= cs[j].inFlight) &&
    (forall j :: 0 <= j < i ==> cs[i].inFlight < cs[j].inFlight)
  }

  function LeastLoadedIndex(cs: seq<Candidate>): (i: nat)
    requires cs != []
    ensures FirstLeast(cs, i)
  {
    if |cs| == 1 then 0
    else
      var last := |cs| - 1;
      var b := LeastLoadedIndex(cs[..last]);
      if cs[last].inFlight < cs[b].inFlight then last else b
  }

  function LeastLoaded(cs: seq<Candidate>): Candidate
    requires cs != []
  {
    cs[LeastLoadedIndex(cs)]
  }

  lemma FirstLeastUnique(cs: seq<Candidate>, i: int, j: int)
    requires FirstLeast(cs, i) && FirstLeast(cs, j)
    ensures i == j
  {
    assert cs[i].inFlight <= cs[j].inFlight <= cs[i].inFlight;
  }

  method PickLeastLoaded(ranked: seq<Candidate>) returns (best: Candidate)
    requires ranked != []
    ensures best == LeastLoaded(ranked)
  {
    var b := 0;
    for i := 1 to |ranked|
      invariant FirstLeast(ranked[..i], b)
    {
      if ranked[i].inFlight < ranked[b].inFlight { b := i; }
    }
    assert ranked[..|ranked|] == ranked;
    FirstLeastUnique(ranked, b, LeastLoadedIndex(ranked));
    best := ranked[b];
  }

  /** The smallest in-flight count of the pool. */
  method MinInFlight(cs: seq<Candidate>) returns (m: int)
    requires cs != []
    ensures m == LeastLoaded(cs).inFlight
  {
    m := cs[0].inFlight;
    for i := 1 to |cs|
      invariant exists k :: 0 <= k < i && cs[k].inFlight == m
      invariant forall k :: 0 <= k < i ==> m <= cs[k].inFlight
    {
      if cs[i].inFlight < m { m := cs[i].inFlight; }
    }
  }

  /** Whether candidate c is over the load cap of its pool. A negative delta disables the cap. */
  predicate OverCap(pool: seq<Candidate>, delta: int, c: Candidate)
    requires pool != []
  {
    delta >= 0 && c.inFlight > LeastLoaded(pool).inFlight + delta
  }

  /** The pick: the least loaded of the warm set unless even that one is over the cap. */
  function CappedPick(ranked: seq<Candidate>, r: int, delta: int): (string, bool)
    requires 1 <= r <= |ranked|
  {
    var warm := LeastLoaded(ranked[..r]);
    if OverCap(ranked, delta, warm) then (LeastLoaded(ranked).host, true) else (warm.host, false)
  }

  /** Over the cap: some host of the pool has more than delta requests fewer in flight. */
  lemma OverCapMeans(pool: seq<Candidate>, delta: int, c: Candidate)
    requires pool != []
    ensures OverCap(pool, delta, c) <==> delta >= 0 && exists d :: d in pool && c.inFlight - d.inFlight > delta
  {
    var least := pool[LeastLoadedIndex(pool)];
    assert least in pool;
    forall d | d in pool ensures least.inFlight <= d.inFlight {
      var i :| 0 <= i < |pool| && pool[i] == d;
    }
  }

  /** No host of the pool has fewer requests in flight. */
  ghost predicate Least(pool: seq<Candidate>, c: Candidate) {
    c in pool && forall d :: d in pool ==> c.inFlight <= d.inFlight
  }

  lemma LeastLoadedIsLeast(pool: seq<Candidate>)
    requires pool != []
    ensures Least(pool, LeastLoaded(pool))
  {
    var i := LeastLoadedIndex(pool);
    forall d | d in pool ensures pool[i].inFlight <= d.inFlight {
      var j :| 0 <= j < |pool| && pool[j] == d;
    }
  }

  /** The pick is demoted exactly when the cap is on and every one of the first r hosts has over delta
      requests more in flight than some host of the pool. Undemoted it is a least loaded one of the
      first r, demoted a least loaded one of all. */
  lemma CappedPickIs(ranked: seq<Candidate>, r: int, delta: int)
    requires 1 <= r <= |ranked|
    ensures var (host, demoted) := CappedPick(ranked, r, delta);
            (demoted <==> delta >= 0 && forall i :: 0 <= i < r ==> exists d :: d in ranked && ranked[i].inFlight - d.inFlight > delta) &&
            exists c: Candidate :: c.host == host && Least(if demoted then ranked else ranked[..r], c)
  {
    var warm := LeastLoaded(ranked[..r]);
    LeastLoadedIsLeast(ranked[..r]);
    LeastLoadedIsLeast(ranked);
    OverCapMeans(ranked, delta, warm);
    if OverCap(ranked, delta, warm) {
      var d :| d in ranked && warm.inFlight - d.inFlight > delta;
      forall i | 0 <= i < r ensures exists d :: d in ranked && ranked[i].inFlight - d.inFlight > delta {
        assert ranked[i] in ranked[..r];
        assert ranked[i].inFlight - d.inFlight > delta;
      }
    } else {
      var w :| 0 <= w < r && ranked[w] == warm;
      assert delta >= 0 ==> !exists d :: d in ranked && ranked[w].inFlight - d.inFlight > delta;
    }
  }

  /** cappedPick's single loop over eligible warm candidates computes CappedPick. */
  method ComputeCappedPick(ranked: seq<Candidate>, r: int, delta: int) returns (host: string, demoted: bool)
    requires 1 <= r <= |ranked|
    ensures (host, demoted) == CappedPick(ranked, r, delta)
  {
    if delta < 0 {
      var warmest := PickLeastLoaded(ranked[..r]);
      return warmest.host, false;
    }
    var m := MinInFlight(ranked);
    var limit := m + delta;
    var best := -1;
    for i := 0 to r
      invariant -1 <= best < i
      invariant best < 0 ==> forall k :: 0 <= k < i ==> ranked[k].inFlight > limit
      invariant best >= 0 ==> ranked[best].inFlight <= limit && FirstLeast(ranked[..i], best)
    {
      if ranked[i].inFlight <= limit && (best < 0 || ranked[i].inFlight < ranked[best].inFlight) {
        best := i;
      }
    }
    if best >= 0 {
      FirstLeastUnique(ranked[..r], best, LeastLoadedIndex(ranked[..r]));
      return ranked[best].host, false;
    }
    var coolest := PickLeastLoaded(ranked);
    return coolest.host, true;
  }
}
