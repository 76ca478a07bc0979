/** TTL sweeping is a memory bound, not a correctness one: the swept table answers as the
    complete, unbounded log of landings would (cacheroute/shadow.go). */
module ShadowLog {
  import opened Seqs
  import opened ShadowTable

  /** One past landing. */
  datatype Sighting = Sighting(k: TableKey, host: string, at: int)

  // ---- What the complete log says ----------------------------------------------

  /** How many landings of k fell into the given minute. */
  function CountIn(log: seq<Sighting>, k: TableKey, minute: int): (n: nat) {
    if log == [] then 0
    else
      var last := log[|log| - 1];
      CountIn(log[..|log| - 1], k, minute) + (if last.k == k && Truncate(last.at) == minute then 1 else 0)
  }

  /** What one past landing contributes to k's rate: all of itself in the current minute, and in the
      minute before the share of that minute that the last sixty seconds still cover. */
  function Weight(s: Sighting, k: TableKey, now: int): real {
    if s.k != k then 0.0
    else if s.at / MINUTE == now / MINUTE then 1.0
    else if s.at / MINUTE == now / MINUTE - 1 then (MINUTE - now % MINUTE) as real / MINUTE as real
    else 0.0
  }

  function LogRate(log: seq<Sighting>, k: TableKey, now: int): real {
    if log == [] then 0.0 else LogRate(log[..|log| - 1], k, now) + Weight(log[|log| - 1], k, now)
  }

  ghost predicate RecentOn(log: seq<Sighting>, k: TableKey, host: string, now: int, retention: int) {
    exists s :: s in log && s.k == k && s.host == host && now - s.at <= retention
  }

  ghost predicate RecentAnywhere(log: seq<Sighting>, k: TableKey, now: int, retention: int) {
    exists s :: s in log && s.k == k && now - s.at <= retention
  }

  ghost function LogReuse(log: seq<Sighting>, k: TableKey, host: string, now: int, retention: int): Reuse {
    if !RecentAnywhere(log, k, now, retention) then FirstSeen
    else if RecentOn(log, k, host, now, retention) then RepeatWarm
    else RepeatCold
  }

  // ---- The simulation relation, for one key ----------------------------------------

  ghost predicate WindowOk(e: Entry, log: seq<Sighting>, k: TableKey) {
    e.windowStart == Truncate(e.lastSeen) &&
    e.curCount == CountIn(log, k, e.windowStart) &&
    e.prevCount == CountIn(log, k, e.windowStart - MINUTE)
  }

  /** Every remembered warmth is a landing. */
  ghost predicate Backed(warm: map<string, int>, log: seq<Sighting>, k: TableKey) {
    forall h :: h in warm ==> warm[h] > 0 && Sighting(k, h, warm[h]) in log
  }

  /** A landing is covered by a remembered warmth at least as recent, or stale as of at. */
  predicate CoveredBy(warm: map<string, int>, s: Sighting, at: int, retention: int) {
    (s.host in warm && s.at <= warm[s.host]) || at - s.at > retention
  }

  ghost predicate Covered(warm: map<string, int>, log: seq<Sighting>, k: TableKey, at: int, retention: int) {
    forall s :: s in log && s.k == k ==> s.at <= at && CoveredBy(warm, s, at, retention)
  }

  /** at is the time of k's latest landing. */
  ghost predicate LatestAt(log: seq<Sighting>, k: TableKey, at: int) {
    (exists s :: s in log && s.k == k && s.at == at) && forall s :: s in log && s.k == k ==> s.at <= at
  }

  /** The entry remembers exactly what still matters of the key's landings. */
  ghost predicate Faithful(e: Entry, log: seq<Sighting>, k: TableKey, retention: int) {
    e.retention == retention && LatestAt(log, k, e.lastSeen) && WindowOk(e, log, k) && Backed(e.warm, log, k) &&
    Covered(e.warm, log, k, e.lastSeen, retention)
  }

  /** An absent key's landings are all past their expiry. */
  ghost predicate Forgotten(log: seq<Sighting>, k: TableKey, retention: int, clock: int) {
    forall s :: s in log && s.k == k ==> s.at + RETENTION_FACTOR * retention <= clock
  }

  ghost predicate Sim(entries: map<TableKey, Entry>, log: seq<Sighting>, k: TableKey, retention: int, clock: int) {
    if k in entries then Faithful(entries[k], log, k, retention) && entries[k].lastSeen <= clock
    else Forgotten(log, k, retention, clock)
  }

  // ---- Counting ------------------------------------------------------------------------

  lemma {:induction false} CountNone(log: seq<Sighting>, k: TableKey, minute: int)
    requires forall s :: s in log && s.k == k ==> Truncate(s.at) != minute
    ensures CountIn(log, k, minute) == 0
  {
    if log != [] {
      var rest := log[..|log| - 1];
      assert log == rest + [log[|log| - 1]];
      CountNone(rest, k, minute);
    }
  }

  lemma CountAppend(log: seq<Sighting>, s: Sighting, k: TableKey, minute: int)
    ensures CountIn(log + [s], k, minute) ==
            CountIn(log, k, minute) + (if s.k == k && Truncate(s.at) == minute then 1 else 0)
  {
    assert (log + [s])[..|log|] == log;
  }

  lemma RateOneMore(prev: int, cur: int, now: int)
    ensures Rate(prev, cur + 1, now) == Rate(prev, cur, now) + 1.0
    ensures Rate(prev + 1, cur, now) == Rate(prev, cur, now) + (MINUTE - now % MINUTE) as real / MINUTE as real
  {
    var w := 1.0 - Frac(now);
    assert (prev + 1) as real * w == prev as real * w + w;
    assert w == (MINUTE - now % MINUTE) as real / MINUTE as real;
  }

  lemma MinuteOf(at: int, now: int)
    ensures Truncate(at) == Truncate(now) <==> at / MINUTE == now / MINUTE
    ensures Truncate(at) == Truncate(now) - MINUTE <==> at / MINUTE == now / MINUTE - 1
  {
    assert Truncate(at) == at / MINUTE * MINUTE && Truncate(now) == now / MINUTE * MINUTE;
  }

  /** The weighted sum over the log is the two-bucket rate of its two counts. */
  lemma {:induction false} LogRateCounts(log: seq<Sighting>, k: TableKey, now: int)
    ensures LogRate(log, k, now) == Rate(CountIn(log, k, Truncate(now) - MINUTE), CountIn(log, k, Truncate(now)), now)
  {
    if log != [] {
      var init, last := log[..|log| - 1], log[|log| - 1];
      LogRateCounts(init, k, now);
      RateOneMore(CountIn(init, k, Truncate(now) - MINUTE), CountIn(init, k, Truncate(now)), now);
      MinuteOf(last.at, now);
    }
  }

  lemma TruncateMono(a: int, b: int)
    requires a <= b
    ensures Truncate(a) <= Truncate(b) && Truncate(a) % MINUTE == 0 && Truncate(b) % MINUTE == 0
    ensures Truncate(a) == Truncate(b) || Truncate(a) + MINUTE <= Truncate(b)
    ensures a + 2 * MINUTE <= b ==> Truncate(a) + 2 * MINUTE <= Truncate(b)
  {}

  /** No landing of k falls into a minute that starts after all of them. */
  lemma NothingLater(log: seq<Sighting>, k: TableKey, latest: int, minute: int)
    requires forall s :: s in log && s.k == k ==> s.at <= latest
    requires Truncate(latest) < minute
    ensures CountIn(log, k, minute) == 0
  {
    forall s | s in log && s.k == k ensures Truncate(s.at) != minute {
      TruncateMono(s.at, latest);
    }
    CountNone(log, k, minute);
  }

  /** Swept landings are too old for either bucket, since four retentions span two minutes. */
  lemma ForgottenUncounted(log: seq<Sighting>, k: TableKey, retention: int, clock: int, now: int)
    requires Forgotten(log, k, retention, clock) && clock <= now && 2 * MINUTE <= RETENTION_FACTOR * retention
    ensures CountIn(log, k, Truncate(now)) == 0 && CountIn(log, k, Truncate(now) - MINUTE) == 0
  {
    var latest := now - 2 * MINUTE;
    TruncateMono(latest, now);
    NothingLater(log, k, latest, Truncate(now));
    NothingLater(log, k, latest, Truncate(now) - MINUTE);
  }

  // ---- One observation -----------------------------------------------------------------

  lemma BumpCounts(e: Entry, log: seq<Sighting>, k: TableKey, retention: int, s: Sighting)
    requires Faithful(e, log, k, retention) && s.k == k && e.lastSeen <= s.at
    ensures var b := Bump(e, s.at);
            b.windowStart == Truncate(s.at) &&
            b.curCount == CountIn(log + [s], k, b.windowStart) &&
            b.prevCount == CountIn(log + [s], k, b.windowStart - MINUTE)
  {
    var minute := Truncate(s.at);
    TruncateMono(e.lastSeen, s.at);
    CountAppend(log, s, k, minute);
    CountAppend(log, s, k, minute - MINUTE);
    if e.windowStart < minute {
      NothingLater(log, k, e.lastSeen, minute);
      if e.windowStart < minute - MINUTE {
        NothingLater(log, k, e.lastSeen, minute - MINUTE);
      }
    }
  }

  lemma FreshCounts(model: string, log: seq<Sighting>, retention: int, clock: int, s: Sighting)
    requires Forgotten(log, s.k, retention, clock) && clock <= s.at && 0 < s.at
    requires 2 * MINUTE <= RETENTION_FACTOR * retention
    ensures var b := Bump(Fresh(model, retention), s.at);
            b.windowStart == Truncate(s.at) &&
            b.curCount == CountIn(log + [s], s.k, b.windowStart) &&
            b.prevCount == CountIn(log + [s], s.k, b.windowStart - MINUTE)
  {
    var minute := Truncate(s.at);
    ForgottenUncounted(log, s.k, retention, clock, s.at);
    CountAppend(log, s, s.k, minute);
    CountAppend(log, s, s.k, minute - MINUTE);
  }

  lemma PruneSize(warm: map<string, int>)
    ensures |warm| == 0 <==> forall h :: h !in warm
  {
    if |warm| == 0 {
      assert warm == map[];
    }
    if forall h :: h !in warm {
      assert warm == map[];
    }
  }

  /** A tracked key is classified as the whole log would classify it. */
  lemma ReuseAgrees(e: Entry, log: seq<Sighting>, k: TableKey, retention: int, host: string, now: int)
    requires Faithful(e, log, k, retention) && e.lastSeen <= now
    ensures Classify(Prune(e.warm, now, retention), host) == LogReuse(log, k, host, now, retention)
  {
    var warm := Prune(e.warm, now, retention);
    forall h ensures h in warm <==> RecentOn(log, k, h, now, retention) {
      if h in warm {
        var s := Sighting(k, h, e.warm[h]);
        assert s in log && s.k == k && s.host == h && now - s.at <= retention;
      }
    }
    PruneSize(warm);
    assert RecentAnywhere(log, k, now, retention) <==> exists h :: RecentOn(log, k, h, now, retention) by {
      if RecentAnywhere(log, k, now, retention) {
        var s :| s in log && s.k == k && now - s.at <= retention;
        assert RecentOn(log, k, s.host, now, retention);
      }
    }
  }

  lemma FreshReuse(log: seq<Sighting>, k: TableKey, retention: int, clock: int, host: string, now: int)
    requires Forgotten(log, k, retention, clock) && clock <= now && retention > 0
    ensures LogReuse(log, k, host, now, retention) == FirstSeen
  {}

  lemma LandBacked(warm: map<string, int>, log: seq<Sighting>, s: Sighting, retention: int)
    requires Backed(warm, log, s.k) && s.at > 0
    ensures Backed(Prune(warm, s.at, retention)[s.host := s.at], log + [s], s.k)
  {
    var warm' := Prune(warm, s.at, retention)[s.host := s.at];
    forall h | h in warm' ensures warm'[h] > 0 && Sighting(s.k, h, warm'[h]) in log + [s] {
      if h == s.host {
        assert (log + [s])[|log|] == Sighting(s.k, h, warm'[h]);
      } else {
        assert Sighting(s.k, h, warm[h]) in log;
      }
    }
  }

  lemma LandCovered(warm: map<string, int>, log: seq<Sighting>, s: Sighting, at: int, retention: int)
    requires Covered(warm, log, s.k, at, retention) && at <= s.at && 0 <= retention
    ensures Covered(Prune(warm, s.at, retention)[s.host := s.at], log + [s], s.k, s.at, retention)
  {
    var warm' := Prune(warm, s.at, retention)[s.host := s.at];
    forall x | x in log + [s] && x.k == s.k ensures x.at <= s.at && CoveredBy(warm', x, s.at, retention) {
      if x in log {
        assert CoveredBy(warm, x, at, retention);
      }
    }
  }

  /** Recording a landing keeps the entry faithful to the longer log. */
  lemma LandFaithful(prior: Entry, log: seq<Sighting>, l: Landing, p: Placement, at: int)
    requires Backed(prior.warm, log, l.k) && Covered(prior.warm, log, l.k, at, l.retention)
    requires 0 < l.now && at <= l.now && 0 <= l.retention
    requires WindowOk(Bump(prior, l.now).(lastSeen := l.now), log + [Sighting(l.k, l.host, l.now)], l.k)
    ensures Faithful(Landed(prior, l, p), log + [Sighting(l.k, l.host, l.now)], l.k, l.retention)
  {
    var s := Sighting(l.k, l.host, l.now);
    LandBacked(prior.warm, log, s, l.retention);
    LandCovered(prior.warm, log, s, at, l.retention);
    assert (log + [s])[|log|] == s;
  }

  lemma KnownAgrees(e: Entry, log: seq<Sighting>, l: Landing, p: Placement)
    requires Faithful(e, log, l.k, l.retention) && e.lastSeen <= l.now && 0 < l.now && 0 <= l.retention
    ensures var log' := log + [Sighting(l.k, l.host, l.now)];
            ReuseOf(e, l) == LogReuse(log, l.k, l.host, l.now, l.retention) &&
            RpmOf(e, l.now) == LogRate(log', l.k, l.now) &&
            Faithful(Landed(e, l, p), log', l.k, l.retention)
  {
    hide LogRate, Rate, Landed, LogReuse, Classify, Prune, CountIn;
    BumpCounts(e, log, l.k, l.retention, Sighting(l.k, l.host, l.now));
    LogRateCounts(log + [Sighting(l.k, l.host, l.now)], l.k, l.now);
    ReuseAgrees(e, log, l.k, l.retention, l.host, l.now);
    LandFaithful(e, log, l, p, e.lastSeen);
  }

  lemma UnknownAgrees(log: seq<Sighting>, l: Landing, p: Placement, clock: int)
    requires Forgotten(log, l.k, l.retention, clock) && clock <= l.now && 0 < l.now
    requires 2 * MINUTE <= RETENTION_FACTOR * l.retention
    ensures var e := Fresh(l.k.model, l.retention);
            var log' := log + [Sighting(l.k, l.host, l.now)];
            ReuseOf(e, l) == LogReuse(log, l.k, l.host, l.now, l.retention) &&
            RpmOf(e, l.now) == LogRate(log', l.k, l.now) &&
            Faithful(Landed(e, l, p), log', l.k, l.retention)
  {
    var e := Fresh(l.k.model, l.retention);
    FreshCounts(l.k.model, log, l.retention, clock, Sighting(l.k, l.host, l.now));
    FreshReuse(log, l.k, l.retention, clock, l.host, l.now);
    LogRateCounts(log + [Sighting(l.k, l.host, l.now)], l.k, l.now);
    assert Prune(e.warm, l.now, l.retention) == map[];
    LandFaithful(e, log, l, p, l.now);
  }

  /** A repeat reports the time since the key's latest landing; anything else means that every landing
      of the key has expired. */
  ghost predicate IntervalFromLog(res: Result, log: seq<Sighting>, l: Landing) {
    if res.repeat then LatestAt(log, l.k, l.now - res.interval)
    else res.interval == 0 && Forgotten(log, l.k, l.retention, l.now)
  }

  /** One observation of k: the answer is the log's, and the relation survives. */
  lemma ObserveAgrees(t: Table, clock: int, hash: (string, string) -> nat, l: Landing, victim: Option<TableKey>,
                      log: seq<Sighting>)
    requires ValidLanding(l) && clock <= l.now && VictimOk(t, l.k, victim)
    requires Sim(t.entries, log, l.k, l.retention, clock) && 2 * MINUTE <= RETENTION_FACTOR * l.retention
    ensures var (after, res) := Observe(t, hash, l, victim);
            var log' := log + [Sighting(l.k, l.host, l.now)];
            res.reuse == LogReuse(log, l.k, l.host, l.now, l.retention) &&
            res.rpm == LogRate(log', l.k, l.now) && IntervalFromLog(res, log, l) &&
            Sim(after.entries, log', l.k, l.retention, l.now)
  {
    var p := ObserveShape(t, hash, l, victim);
    if l.k in t.entries {
      KnownAgrees(t.entries[l.k], log, l, p);
    } else {
      UnknownAgrees(log, l, p, clock);
    }
  }

  // ---- The other steps leave k's relation alone -----------------------------------------

  lemma OtherSighting(entries: map<TableKey, Entry>, log: seq<Sighting>, s: Sighting, k: TableKey, retention: int,
                      clock: int)
    requires Sim(entries, log, k, retention, clock) && s.k != k && clock <= s.at
    ensures Sim(entries, log + [s], k, retention, s.at)
  {
    if k in entries {
      var e := entries[k];
      CountAppend(log, s, k, e.windowStart);
      CountAppend(log, s, k, e.windowStart - MINUTE);
      LatestOther(log, s, k, e.lastSeen);
      assert forall x :: x in log ==> x in log + [s];
    }
  }

  lemma LatestOther(log: seq<Sighting>, s: Sighting, k: TableKey, at: int)
    requires LatestAt(log, k, at) && s.k != k
    ensures LatestAt(log + [s], k, at)
  {
    var x :| x in log && x.k == k && x.at == at;
    assert x in log + [s];
  }

  lemma OtherLanding(t: Table, clock: int, hash: (string, string) -> nat, l: Landing, victim: Option<TableKey>,
                     log: seq<Sighting>, k: TableKey, retention: int)
    requires ValidLanding(l) && clock <= l.now && VictimOk(t, l.k, victim)
    requires k != l.k && victim != Some(k)
    requires Sim(t.entries, log, k, retention, clock)
    ensures Sim(Observe(t, hash, l, victim).0.entries, log + [Sighting(l.k, l.host, l.now)], k, retention, l.now)
  {
    var p := ObserveShape(t, hash, l, victim);
    OtherSighting(t.entries, log, Sighting(l.k, l.host, l.now), k, retention, clock);
  }

  lemma SweepKeepsSim(t: Table, clock: int, after: map<TableKey, Entry>, now: int,
                      log: seq<Sighting>, k: TableKey, retention: int)
    requires Inv(t, clock) && clock <= now && Trimmed(t.entries, after, now)
    requires Sim(t.entries, log, k, retention, clock)
    ensures Sim(after, log, k, retention, now)
  {}

  /** peekRate is the two-bucket rate of the counts as they stand at now. */
  lemma PeekIsRate(e: Entry, now: int)
    ensures PeekRate(e, now) == Rate(
              if e.windowStart == Truncate(now) then e.prevCount
              else if e.windowStart == Truncate(now) - MINUTE then e.curCount else 0,
              if e.windowStart == Truncate(now) then e.curCount else 0, now)
  {}

  lemma PeekCounts(e: Entry, log: seq<Sighting>, k: TableKey, retention: int, now: int)
    requires Faithful(e, log, k, retention) && e.lastSeen <= now
    ensures CountIn(log, k, Truncate(now)) == if e.windowStart == Truncate(now) then e.curCount else 0
    ensures CountIn(log, k, Truncate(now) - MINUTE) ==
            if e.windowStart == Truncate(now) then e.prevCount
            else if e.windowStart == Truncate(now) - MINUTE then e.curCount else 0
  {
    var minute := Truncate(now);
    TruncateMono(e.lastSeen, now);
    if e.windowStart < minute {
      NothingLater(log, k, e.lastSeen, minute);
      if e.windowStart < minute - MINUTE { NothingLater(log, k, e.lastSeen, minute - MINUTE); }
    }
  }

  lemma PeekAgrees(t: Table, clock: int, log: seq<Sighting>, k: TableKey, retention: int, now: int)
    requires Sim(t.entries, log, k, retention, clock) && clock <= now
    requires 2 * MINUTE <= RETENTION_FACTOR * retention
    ensures TableRate(t, k, now) == LogRate(log, k, now)
  {
    hide PeekRate, Truncate, CountIn, LogRate, Faithful;
    LogRateCounts(log, k, now);
    if k in t.entries {
      PeekIsRate(t.entries[k], now);
      PeekCounts(t.entries[k], log, k, retention, now);
    } else {
      ForgottenUncounted(log, k, retention, clock, now);
    }
  }

  // ---- Whole runs -------------------------------------------------------------------------

  datatype Step =
    | Observed(l: Landing, victim: Option<TableKey>, res: Result, after: Table)
    | Swept(now: int, after: Table)
    | Peeked(k: TableKey, now: int, rpm: real)

  function Empty(maxKeys: int): Table { Table(map[], map[], map[], maxKeys) }

  function TableAfter(maxKeys: int, run: seq<Step>): Table {
    if run == [] then Empty(maxKeys)
    else
      match run[|run| - 1]
      case Observed(_, _, _, after) => after
      case Swept(_, after) => after
      case Peeked(_, _, _) => TableAfter(maxKeys, run[..|run| - 1])
  }

  function ClockAfter(run: seq<Step>): int {
    if run == [] then 0
    else
      match run[|run| - 1]
      case Observed(l, _, _, _) => l.now
      case Swept(now, _) => now
      case Peeked(_, now, _) => now
  }

  function LogAfter(run: seq<Step>): seq<Sighting> {
    if run == [] then []
    else
      var before := LogAfter(run[..|run| - 1]);
      match run[|run| - 1]
      case Observed(l, _, _, _) => before + [Sighting(l.k, l.host, l.now)]
      case _ => before
  }

  ghost predicate StepOk(hash: (string, string) -> nat, t: Table, clock: int, s: Step) {
    match s
    case Observed(l, victim, res, after) =>
      ValidLanding(l) && clock <= l.now && VictimOk(t, l.k, victim) && (after, res) == Observe(t, hash, l, victim)
    case Swept(now, after) => clock <= now && SweepStep(t, now, after)
    case Peeked(k, now, rpm) => clock <= now && rpm == TableRate(t, k, now)
  }

  /** A run from the empty table whose steps read a nondecreasing clock. */
  ghost predicate Run(hash: (string, string) -> nat, maxKeys: int, run: seq<Step>) {
    run == [] ||
    (Run(hash, maxKeys, run[..|run| - 1]) &&
     StepOk(hash, TableAfter(maxKeys, run[..|run| - 1]), ClockAfter(run[..|run| - 1]), run[|run| - 1]))
  }

  lemma EmptyOk(maxKeys: int)
    ensures Inv(Empty(maxKeys), 0)
  {
    assert forall g :: Members(map[], g) == {};
  }

  /** Every reachable table satisfies the invariant. */
  lemma {:induction false} RunKeepsInv(hash: (string, string) -> nat, maxKeys: int, run: seq<Step>)
    requires Run(hash, maxKeys, run)
    ensures Inv(TableAfter(maxKeys, run), ClockAfter(run))
    ensures TableAfter(maxKeys, run).maxKeys == maxKeys
  {
    if run == [] {
      EmptyOk(maxKeys);
    } else {
      var before, s := run[..|run| - 1], run[|run| - 1];
      RunKeepsInv(hash, maxKeys, before);
      var t, clock := TableAfter(maxKeys, before), ClockAfter(before);
      match s
      case Observed(l, victim, _, _) =>
        InvLater(t, clock, l.now);
        ObserveOk(t, hash, l, victim);
      case Swept(now, after) => TrimmedSeen(t.entries, after.entries, clock, now);
      case Peeked(_, now, _) => InvLater(t, clock, now);
    }
  }

  /** k is observed with one retention only, and never evicted for capacity. */
  ghost predicate Settled(run: seq<Step>, k: TableKey, retention: int) {
    forall i :: 0 <= i < |run| && run[i].Observed? ==>
      (run[i].l.k == k ==> run[i].l.retention == retention) && run[i].victim != Some(k)
  }

  lemma {:induction false} RunKeepsSim(hash: (string, string) -> nat, maxKeys: int, run: seq<Step>,
                                       k: TableKey, retention: int)
    requires Run(hash, maxKeys, run) && Settled(run, k, retention)
    requires 2 * MINUTE <= RETENTION_FACTOR * retention
    ensures Sim(TableAfter(maxKeys, run).entries, LogAfter(run), k, retention, ClockAfter(run))
  {
    if run != [] {
      var before, s := run[..|run| - 1], run[|run| - 1];
      assert forall i :: 0 <= i < |before| ==> before[i] == run[i];
      RunKeepsSim(hash, maxKeys, before, k, retention);
      RunKeepsInv(hash, maxKeys, before);
      var t, clock, log := TableAfter(maxKeys, before), ClockAfter(before), LogAfter(before);
      match s
      case Observed(l, victim, _, _) =>
        if l.k == k {
          ObserveAgrees(t, clock, hash, l, victim, log);
        } else {
          OtherLanding(t, clock, hash, l, victim, log, k, retention);
        }
      case Swept(now, after) =>
        SweepKeepsSim(t, clock, after.entries, now, log, k, retention);
      case Peeked(_, _, _) =>
    }
  }

  /** The answer a step gave about its key is the one the complete log gives. */
  ghost predicate AnswersFromLog(s: Step, log: seq<Sighting>, retention: int) {
    match s
    case Observed(l, _, res, _) =>
      res.reuse == LogReuse(log, l.k, l.host, l.now, retention) &&
      res.rpm == LogRate(log + [Sighting(l.k, l.host, l.now)], l.k, l.now) && IntervalFromLog(res, log, l)
    case Swept(_, _) => true
    case Peeked(k, now, rpm) => rpm == LogRate(log, k, now)
  }

  function StepKey(s: Step): Option<TableKey> {
    match s
    case Observed(l, _, _, _) => Some(l.k)
    case Swept(_, _) => None
    case Peeked(k, _, _) => Some(k)
  }

  /** Sweeping is invisible: in every run, every answer about a key kept at one retention of at
      least half a minute and never evicted for capacity is computed as if nothing was forgotten. */
  lemma SweepingIsInvisible(hash: (string, string) -> nat, maxKeys: int, run: seq<Step>,
                            k: TableKey, retention: int, i: nat)
    requires Run(hash, maxKeys, run) && Settled(run, k, retention)
    requires 2 * MINUTE <= RETENTION_FACTOR * retention
    requires i < |run| && StepKey(run[i]) == Some(k)
    ensures AnswersFromLog(run[i], LogAfter(run[..i]), retention)
  {
    var before := run[..i];
    RunPrefix(hash, maxKeys, run, i + 1);
    assert run[..i + 1][..i] == before;
    RunKeepsSim(hash, maxKeys, before, k, retention);
    var t, clock, log := TableAfter(maxKeys, before), ClockAfter(before), LogAfter(before);
    match run[i]
    case Observed(l, victim, _, _) => ObserveAgrees(t, clock, hash, l, victim, log);
    case Peeked(_, now, _) => PeekAgrees(t, clock, log, k, retention, now);
  }

  /** The retentions a configuration can set are whole minutes, at least one, or ten by default: with
      them sweeping never shows. */
  lemma ConfiguredRetentionsAreInvisible(hash: (string, string) -> nat, maxKeys: int, k: TableKey, minutes: int)
    requires minutes >= 1
    ensures Invisible(hash, maxKeys, k, minutes * 60_000_000_000)
  {
    InvisibleExactly(hash, maxKeys, k, minutes * MINUTE);
  }

  lemma {:induction false} RunPrefix(hash: (string, string) -> nat, maxKeys: int, run: seq<Step>, n: nat)
    requires Run(hash, maxKeys, run) && n <= |run|
    ensures Run(hash, maxKeys, run[..n])
    decreases |run|
  {
    if n == |run| {
      assert run[..n] == run;
    } else {
      RunPrefix(hash, maxKeys, run[..|run| - 1], n);
      assert run[..|run| - 1][..n] == run[..n];
    }
  }

  // ---- Half a minute is the exact bound -----------------------------------------------------

  ghost predicate Invisible(hash: (string, string) -> nat, maxKeys: int, k: TableKey, retention: int) {
    forall run: seq<Step>, i: nat ::
      Run(hash, maxKeys, run) && Settled(run, k, retention) && i < |run| && StepKey(run[i]) == Some(k) ==>
      AnswersFromLog(run[i], LogAfter(run[..i]), retention)
  }

  lemma RunAppend(hash: (string, string) -> nat, maxKeys: int, run: seq<Step>, s: Step)
    requires Run(hash, maxKeys, run) && StepOk(hash, TableAfter(maxKeys, run), ClockAfter(run), s)
    ensures Run(hash, maxKeys, run + [s])
    ensures LogAfter(run + [s]) ==
            LogAfter(run) + (if s.Observed? then [Sighting(s.l.k, s.l.host, s.l.now)] else [])
  {
    assert (run + [s])[..|run|] == run;
  }

  lemma ThreeSteps(hash: (string, string) -> nat, maxKeys: int, a: Step, b: Step, c: Step)
    requires StepOk(hash, Empty(maxKeys), 0, a) && a.Observed?
    requires StepOk(hash, a.after, a.l.now, b) && b.Swept?
    requires StepOk(hash, b.after, b.now, c)
    ensures Run(hash, maxKeys, [a] + [b] + [c])
    ensures LogAfter([a] + [b]) == [Sighting(a.l.k, a.l.host, a.l.now)]
  {
    hide ListsOk, CountsOk, EntriesOk, StepOk;
    RunAppend(hash, maxKeys, [], a);
    assert [] + [a] == [a];
    RunAppend(hash, maxKeys, [a], b);
    RunAppend(hash, maxKeys, [a] + [b], c);
  }

  /** One landing at the start of a minute ... */
  function FirstLanding(hash: (string, string) -> nat, maxKeys: int, k: TableKey, retention: int): Step {
    var l := Landing(k, "h", MINUTE, [], Some(Routed("h", 1, false)), retention, 1.0, -1);
    var (landed, res) := Observe(Empty(maxKeys), hash, l, None);
    Observed(l, None, res, landed)
  }

  lemma FirstLandingOk(hash: (string, string) -> nat, maxKeys: int, k: TableKey, retention: int)
    ensures var s := FirstLanding(hash, maxKeys, k, retention);
            StepOk(hash, Empty(maxKeys), 0, s) && Inv(s.after, MINUTE) && s.after.entries.Keys == {k} &&
            s.after.entries[k].expiry == MINUTE + RETENTION_FACTOR * retention && s.after.maxKeys == maxKeys
  {
    var l := FirstLanding(hash, maxKeys, k, retention).l;
    EmptyOk(maxKeys);
    InvLater(Empty(maxKeys), 0, MINUTE);
    ObserveOk(Empty(maxKeys), hash, l, None);
    var p := ObserveShape(Empty(maxKeys), hash, l, None);
  }

  /** ... swept as soon as it expires, then peeked at. */
  function SweptTooSoon(hash: (string, string) -> nat, maxKeys: int, k: TableKey, retention: int): (run: seq<Step>)
    ensures |run| == 3 && run[0].Observed? && run[2].Peeked?
    ensures run[2].now == if retention > 0 then MINUTE + RETENTION_FACTOR * retention else MINUTE
  {
    var s := FirstLanding(hash, maxKeys, k, retention);
    FirstLandingOk(hash, maxKeys, k, retention);
    var now := if retention > 0 then MINUTE + RETENTION_FACTOR * retention else MINUTE;
    [s] + [Swept(now, Empty(maxKeys))] + [Peeked(k, now, 0.0)]
  }

  lemma SweptTooSoonRuns(hash: (string, string) -> nat, maxKeys: int, k: TableKey, retention: int)
    ensures var run := SweptTooSoon(hash, maxKeys, k, retention);
            Run(hash, maxKeys, run) && LogAfter(run[..2]) == [Sighting(k, "h", MINUTE)]
  {
    hide ListsOk, CountsOk, EntriesOk;
    var run := SweptTooSoon(hash, maxKeys, k, retention);
    FirstLandingOk(hash, maxKeys, k, retention);
    EmptyOk(maxKeys);
    assert StepOk(hash, run[0].after, MINUTE, run[1]);
    ThreeSteps(hash, maxKeys, run[0], run[1], run[2]);
    assert run[..2] == [run[0]] + [run[1]];
    assert run == [run[0]] + [run[1]] + [run[2]];
  }

  lemma SweptTooSoonDiffers(k: TableKey, retention: int, now: int)
    requires RETENTION_FACTOR * retention < 2 * MINUTE
    requires now == if retention > 0 then MINUTE + RETENTION_FACTOR * retention else MINUTE
    ensures LogRate([Sighting(k, "h", MINUTE)], k, now) > 0.0
  {
    var log := [Sighting(k, "h", MINUTE)];
    assert log[..0] == [];
    assert now % MINUTE < MINUTE && (now / MINUTE == 1 || now / MINUTE == 2);
    assert (MINUTE - now % MINUTE) as real / MINUTE as real > 0.0;
  }

  /** Sweeping stays invisible for a key exactly when four retentions span the two rate buckets. */
  lemma InvisibleExactly(hash: (string, string) -> nat, maxKeys: int, k: TableKey, retention: int)
    ensures Invisible(hash, maxKeys, k, retention) <==> 30_000_000_000 <= retention
  {
    hide ListsOk, CountsOk, EntriesOk, StepOk, Run, LogAfter;
    if 2 * MINUTE <= RETENTION_FACTOR * retention {
      forall run: seq<Step>, i: nat |
        Run(hash, maxKeys, run) && Settled(run, k, retention) && i < |run| && StepKey(run[i]) == Some(k)
        ensures AnswersFromLog(run[i], LogAfter(run[..i]), retention)
      {
        SweepingIsInvisible(hash, maxKeys, run, k, retention, i);
      }
    } else {
      var run := SweptTooSoon(hash, maxKeys, k, retention);
      SweptTooSoonRuns(hash, maxKeys, k, retention);
      SweptTooSoonDiffers(k, retention, run[2].now);
      assert !AnswersFromLog(run[2], LogAfter(run[..2]), retention);
    }
  }
}
