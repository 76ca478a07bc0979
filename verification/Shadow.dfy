/** The Shadow object: methods that update the routing table in place, each proved against the
    value-level table (cacheroute/shadow.go). */
module Shadow {
  import opened Seqs
  import opened Hrw
  import opened ShadowTable
  import Decision
  import ShadowLog

  /** The routing decision Decide hands to the dispatcher and later to observeKeyed. */
  datatype Verdict = Verdict(order: seq<string>, home: string, r: int, demoted: bool)

  /** The deletion loop over e.warm in observeKeyed. */
  method PruneStale(warm: map<string, int>, now: int, retention: int) returns (kept: map<string, int>)
    ensures kept == Prune(warm, now, retention)
  {
    kept := warm;
    var todo := warm.Keys;
    while todo != {}
      invariant todo <= warm.Keys
      invariant forall h :: h in kept ==> h in warm && kept[h] == warm[h]
      invariant forall h :: h in warm ==> (h in kept <==> h in todo || now - warm[h] <= retention)
    {
      var h :| h in todo;
      todo := todo - {h};
      if now - warm[h] > retention { kept := kept - {h}; }
    }
  }

  /** Go ranges over a map in an unspecified order: the next key is any remaining one. */
  method AnyOf<T(==)>(todo: set<T>) returns (r: T)
    requires todo != {}
    ensures r in todo
  {
    r :| r in todo;
  }

  class Shadow {
    var entries: map<TableKey, Entry>
    var lists: map<int, seq<TableKey>>
    var counts: map<Group, int>
    const maxKeys: int
    ghost var clock: int     // the latest time any call has read
    ghost var ordered: bool  // no landing was read earlier than a call recorded before it

    ghost function State(): Table
      reads this
    {
      Table(entries, lists, counts, maxKeys)
    }

    ghost predicate Valid()
      reads this
    {
      Sound(State(), clock, ordered)
    }

    constructor (maxKeys: int)
      ensures Valid() && State() == ShadowLog.Empty(maxKeys) && clock == 0 && ordered
    {
      entries, lists, counts := map[], map[], map[];
      this.maxKeys := maxKeys;
      clock, ordered := 0, true;
      new;
      ShadowLog.EmptyOk(maxKeys);
    }

    method ShiftCountLocked(model: string, oldHome: string, oldR: int, newHome: string, newR: int)
      modifies this`counts
      ensures counts == ShiftCount(old(counts), model, oldHome, oldR, newHome, newR)
    {
      if oldHome == newHome && oldR == newR { return; }
      if oldHome != "" {
        var g := Group(model, oldHome, oldR);
        var n := CountOf(counts, g) - 1;
        if n <= 0 { counts := counts - {g}; } else { counts := counts[g := n]; }
      }
      if newHome != "" {
        var g := Group(model, newHome, newR);
        counts := counts[g := CountOf(counts, g) + 1];
      }
    }

    method EvictLocked(k: TableKey)
      requires k in entries && entries[k].retention in lists
      modifies this`entries, this`lists, this`counts
      ensures State() == Evict(old(State()), k)
    {
      var e := entries[k];
      ShiftCountLocked(e.model, e.home, e.r, "", 0);
      entries := entries - {k};
      lists := lists[e.retention := Without(lists[e.retention], k)];
    }

    /** The scan of insertLocked over the backs of all lists; ties go to whichever comes first. */
    method FindOldest() returns (oldest: Option<TableKey>)
      requires Valid()
      ensures entries == map[] ==> oldest.None?
      ensures entries != map[] ==> oldest.Some? && IsVictim(State(), oldest.value)
    {
      oldest := None;
      var todo := lists.Keys;
      while todo != {}
        invariant todo <= lists.Keys && OldestSoFar(State(), todo, oldest)
      {
        var r := AnyOf(todo);
        ScanStep(State(), todo, oldest, r);
        todo := todo - {r};
        if lists[r] == [] { continue; }
        var back := Back(lists[r]);
        if oldest.None? || entries[back].lastSeen < entries[oldest.value].lastSeen {
          oldest := Some(back);
        }
      }
      ScanDone(State(), oldest);
    }

    /** insertLocked, up to the fresh entry that observeKeyed then fills in. */
    method MakeRoom(k: TableKey) returns (ghost victim: Option<TableKey>)
      requires Valid() && k !in entries
      modifies this`entries, this`lists, this`counts
      ensures VictimOk(old(State()), k, victim) && State() == Room(old(State()), victim)
    {
      victim := None;
      if |entries| >= maxKeys {
        var oldest := FindOldest();
        if oldest.Some? {
          victim := oldest;
          EvictLocked(oldest.value);
        }
      }
    }

    /** touchLocked: to the front of its list, or over to the list of the new retention. */
    method TouchLocked(k: TableKey, retention: int)
      requires k in entries && entries[k].retention in lists
      modifies this`lists
      ensures lists == PushFront(Detach(old(lists), entries[k].retention, k), retention, k)
    {
      var e := entries[k];
      if e.retention == retention {
        lists := lists[retention := [k] + Without(lists[retention], k)];
      } else {
        lists := lists[e.retention := Without(lists[e.retention], k)];
        lists := PushFront(lists, retention, k);
      }
      assert lists == PushFront(Detach(old(lists), e.retention, k), retention, k);
    }

    /** Where the landed key is homed, with the ranking run as loops. */
    method PlaceLanding(hash: (string, string) -> nat, l: Landing, rpm: real) returns (p: Placement)
      requires ValidLanding(l)
      ensures p == Place(hash, l, rpm)
    {
      match l.decision {
        case Some(d) => p := Placement(d.home, d.r, "", d.demoted);
        case None =>
          var ranked := RankCandidates(ScoreFor(hash, l.k.key), l.candidates);
          var r := ReplicationFactor(rpm, l.thresholdRPM, |ranked|);
          var pick, demoted := ComputeCappedPick(ranked, r, l.delta);
          p := Placement(ranked[0].host, r, pick, demoted);
      }
    }

    /** The entry a landing starts from, already at the front of its retention list. */
    method TouchOrInsert(l: Landing) returns (repeat: bool, prior: Entry, ghost victim: Option<TableKey>)
      requires Valid()
      modifies this`entries, this`lists, this`counts
      ensures VictimOk(old(State()), l.k, victim)
      ensures var base := Room(old(State()), victim);
              repeat == (l.k in base.entries) && prior == Prior(base, l.k, l.retention) &&
              entries == base.entries && counts == base.counts &&
              lists == PushFront(if repeat then Detach(base.lists, prior.retention, l.k) else base.lists,
                                 l.retention, l.k)
    {
      victim := None;
      repeat := l.k in entries;
      if repeat {
        prior := entries[l.k];
        TouchLocked(l.k, l.retention);
      } else {
        victim := MakeRoom(l.k);
        prior := Fresh(l.k.model, l.retention);
        lists := PushFront(lists, l.retention, l.k);
      }
    }

    /** The part of observeKeyed after the touch: classify, bump, place, recount and store. */
    method RecordLanding(hash: (string, string) -> nat, l: Landing, repeat: bool, e: Entry)
      returns (res: Result, p: Placement)
      requires ValidLanding(l)
      modifies this`entries, this`counts
      ensures p == Place(hash, l, RpmOf(e, l.now))
      ensures res == Result(ReuseOf(e, l), repeat, if repeat then l.now - e.lastSeen else 0, RpmOf(e, l.now),
                            p.pick, p.demoted, p.r)
      ensures entries == old(entries)[l.k := Landed(e, l, p)]
      ensures counts == ShiftCount(old(counts), l.k.model, e.home, e.r, p.home, p.r)
    {
      var warm := PruneStale(e.warm, l.now, l.retention);
      var reuse := Classify(warm, l.host);
      var rpm := RpmOf(e, l.now);
      p := PlaceLanding(hash, l, rpm);
      ShiftCountLocked(l.k.model, e.home, e.r, p.home, p.r);
      entries := entries[l.k := Landed(e, l, p)];
      res := Result(reuse, repeat, if repeat then l.now - e.lastSeen else 0, rpm, p.pick, p.demoted, p.r);
    }

    /** observeKeyed: one keyed request landed at l.now. The clock is read before the lock is taken, so
        another call may have recorded a later time; then the lists may lose their order, and nothing
        else. */
    method ObserveKeyed(hash: (string, string) -> nat, l: Landing)
      returns (res: Result, ghost victim: Option<TableKey>)
      requires Valid() && ValidLanding(l)
      modifies this
      ensures Valid() && VictimOk(old(State()), l.k, victim)
      ensures clock == Later(old(clock), l.now) && ordered == (old(ordered) && old(clock) <= l.now)
      ensures (State(), res) == Observe(old(State()), hash, l, victim)
    {
      hide Sound, Observe, Room, Prior, Detach, PushFront, ShiftCount, Landed, Place, RpmOf, ReuseOf;
      var repeat, e;
      repeat, e, victim := TouchOrInsert(l);
      ghost var p;
      res, p := RecordLanding(hash, l, repeat, e);
      ObserveAssembled(old(State()), hash, l, victim, State(), res);
      ObserveSound(old(State()), clock, ordered, hash, l, victim);
      ordered := ordered && clock <= l.now;
      clock := Later(clock, l.now);
    }

    method PeekRate(k: TableKey, now: int) returns (rpm: real)
      ensures rpm == TableRate(State(), k, now)
    {
      if k in entries { rpm := ShadowTable.PeekRate(entries[k], now); } else { rpm := 0.0; }
    }

    /** Decide: nothing for a request that is not keyed or whose pool is too small. */
    method Decide(hash: (string, string) -> nat, keyed: bool, k: TableKey, poolSize: int,
                  candidates: seq<Candidate>, thresholdRPM: real, delta: int, now: int)
      returns (d: Option<Verdict>)
      ensures d.None? <==> !keyed || poolSize < 2 || candidates == []
      ensures d.Some? ==>
        var ranked := Rank(ScoreFor(hash, k.key), candidates);
        var r := ReplicationFactor(TableRate(State(), k, now), thresholdRPM, |ranked|);
        var (pick, demoted) := CappedPick(ranked, r, delta);
        d.value == Verdict(Decision.PreferenceOrder(ranked, pick, delta), ranked[0].host, r, demoted)
    {
      if !keyed || poolSize < 2 || candidates == [] { return None; }
      var ranked := RankCandidates(ScoreFor(hash, k.key), candidates);
      var rpm := PeekRate(k, now);
      var r := ReplicationFactor(rpm, thresholdRPM, |ranked|);
      var pick, demoted := ComputeCappedPick(ranked, r, delta);
      var order := Decision.ComputeOrder(ranked, pick, delta);
      d := Some(Verdict(order, ranked[0].host, r, demoted));
    }

    /** The inner loop of sweep: pop expired entries off one list's back. */
    method SweepList(r: int, now: int, budget: int) returns (evicted: int)
      requires Shape(State()) && r in lists && 0 <= budget
      modifies this`entries, this`lists, this`counts
      ensures Shape(State()) && 0 <= evicted <= budget && ListSwept(old(State()), State(), now, r, evicted)
      ensures evicted < budget ==> Stopped(State(), now, r)
    {
      hide Shape, ListsSorted;
      evicted := 0;
      while evicted < budget
        invariant Shape(State()) && 0 <= evicted <= budget && ListSwept(old(State()), State(), now, r, evicted)
      {
        if lists[r] == [] { return; }
        BackOf(State(), r);
        var back := Back(lists[r]);
        if entries[back].expiry > now { return; }
        PopExpired(old(State()), State(), now, r, evicted);
        EvictLocked(back);
        evicted := evicted + 1;
      }
    }

    /** One lock acquisition of sweep: at most SWEEP_CHUNK evictions over all lists, in any order. */
    method SweepPass(now: int) returns (evicted: int)
      requires Valid() && clock <= now
      modifies this
      ensures Valid() && clock == now && ordered == old(ordered) && SweepStep(old(State()), now, State())
      ensures 0 <= evicted <= SWEEP_CHUNK && |entries| == |old(entries)| - evicted
      ensures evicted < SWEEP_CHUNK ==> AllStopped(State(), now)
    {
      hide Sound, Shape, ListsSorted, Stopped, Trimmed, SweepStep;
      SoundShape(State(), clock, ordered);
      PassStarts(State(), now);
      evicted := 0;
      var todo := lists.Keys;
      while todo != {}
        invariant Shape(State()) && clock == old(clock) && ordered == old(ordered) && 0 <= evicted <= SWEEP_CHUNK
        invariant PassSwept(old(State()), State(), now, todo, evicted)
      {
        var r := AnyOf(todo);
        ghost var t := State();
        var n := SweepList(r, now, SWEEP_CHUNK - evicted);
        PassAdvances(old(State()), t, State(), now, todo, r, evicted, n);
        if lists[r] == [] { lists := lists - {r}; }
        todo := todo - {r};
        evicted := evicted + n;
      }
      PassDone(old(State()), State(), now, evicted);
      SweepSound(old(State()), clock, ordered, now, State());
      clock := now;
    }

    /** sweep: passes until one comes in under the chunk; every pass reads the clock anew, under the
        lock. */
    method Sweep(time: nat -> int) returns (last: int)
      requires Valid() && clock <= time(0) && forall i: nat, j: nat :: i <= j ==> time(i) <= time(j)
      modifies this
      ensures Valid() && clock == last && ordered == old(ordered) && SweepStep(old(State()), last, State())
      ensures AllStopped(State(), last) && (ordered ==> NoneExpired(entries, last))
    {
      hide Shape, ListsSorted;
      var lap := 0;
      last := time(0);
      while true
        invariant Valid() && clock <= time(lap) && ordered == old(ordered)
        invariant lap == 0 ==> State() == old(State())
        invariant lap > 0 ==> SweepStep(old(State()), clock, State())
        decreases |entries|
      {
        last := time(lap);
        var evicted := SweepPass(last);
        if evicted < SWEEP_CHUNK {
          if ordered { StoppedIsClean(State(), last); }
          return;
        }
        assert last <= time(lap + 1);
        lap := lap + 1;
      }
    }
  }
}
