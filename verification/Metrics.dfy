/** Queue-depth hysteresis: the flag of a (trip, clear) pair is a reading of the samples seen since
    the pair was introduced, whatever is reconfigured in between (manager/metrics.go,
    manager/routing_tiers.go, config/config.go). */
module Metrics {
  import opened Seqs

  const STALENESS_LIMIT: int := 15_000_000_000  // nanoseconds

  datatype OverloadConfig = OverloadConfig(
    maxRequestsWaiting: int, clearRequestsWaiting: int, softMaxRequestsRunning: int, retryAfterMinutes: int)
  type Policy = Option<OverloadConfig>

  datatype Marks = Marks(trip: int, clear: int)
  datatype Counts = Counts(waiting: real, running: real, hasWaiting: bool, hasRunning: bool)

  predicate Enabled(p: Policy) {
    p.Some? && (p.value.maxRequestsWaiting > 0 || p.value.softMaxRequestsRunning > 0)
  }

  /** Go's integer division truncates toward zero. */
  function Half(n: int): int { if n >= 0 then n / 2 else -(-n / 2) }

  function MarksOf(c: OverloadConfig): (m: Marks)
    ensures m.trip == c.maxRequestsWaiting
    ensures m.trip > 0 ==> 0 <= m.clear < m.trip
  {
    var trip, clear := c.maxRequestsWaiting, c.clearRequestsWaiting;
    Marks(trip, if clear <= 0 || clear >= trip then Half(trip) else clear)
  }

  /** queueMarks.overloaded. */
  predicate Overloaded(m: Marks, waiting: real, previous: bool) {
    waiting >= m.trip as real || (previous && waiting > m.clear as real)
  }

  /** A configured clear mark below the trip mark is kept; without one it is half the trip mark. */
  lemma MarksExactly(c: OverloadConfig)
    requires c.maxRequestsWaiting > 0
    ensures var m := MarksOf(c);
            m.trip == c.maxRequestsWaiting &&
            if 0 < c.clearRequestsWaiting < c.maxRequestsWaiting then m.clear == c.clearRequestsWaiting
            else 2 * m.clear <= m.trip <= 2 * m.clear + 1
  {}

  // ---- Hysteresis over a series of samples -------------------------------------------

  /** Some sample reached the trip mark and every later one stayed above the clear mark. */
  ghost predicate Tripped(m: Marks, waits: seq<real>) {
    exists i :: 0 <= i < |waits| && waits[i] >= m.trip as real && forall j :: i < j < |waits| ==> waits[j] > m.clear as real
  }

  lemma TrippedAppend(m: Marks, waits: seq<real>, w: real)
    requires m.clear < m.trip
    ensures Tripped(m, waits + [w]) <==> Overloaded(m, w, Tripped(m, waits))
  {
    var all := waits + [w];
    assert all[|waits|] == w;
    if Tripped(m, all) && w < m.trip as real {
      var i :| 0 <= i < |all| && all[i] >= m.trip as real && forall j :: i < j < |all| ==> all[j] > m.clear as real;
      assert i < |waits| && waits[i] == all[i];
      assert forall j :: i < j < |waits| ==> waits[j] == all[j];
    }
    if Overloaded(m, w, Tripped(m, waits)) && w < m.trip as real {
      var i :| 0 <= i < |waits| && waits[i] >= m.trip as real && forall j :: i < j < |waits| ==> waits[j] > m.clear as real;
      assert all[i] == waits[i];
    }
  }

  /** Looking at the latest sample again changes nothing. */
  lemma ReevaluationIsIdle(m: Marks, waits: seq<real>)
    requires m.clear < m.trip && waits != []
    ensures Overloaded(m, waits[|waits| - 1], Tripped(m, waits)) == Tripped(m, waits)
  {
    var last := |waits| - 1;
    TrippedAppend(m, waits[..last], waits[last]);
    assert waits == waits[..last] + [waits[last]];
  }

  // ---- The poller's state --------------------------------------------------------------

  datatype Metrics = Metrics(
    native: Policy, requiresRunning: bool, latest: Counts, collected: Option<int>, flags: map<Marks, bool>)

  const NO_COUNTS := Counts(0.0, 0.0, false, false)
  const NEW := Metrics(None, false, NO_COUNTS, None, map[])

  function FlagOf(flags: map<Marks, bool>, m: Marks): bool { m in flags && flags[m] }

  /** The latest sample may still drive routing. */
  predicate Current(m: Metrics, now: int) {
    m.collected.Some? && now - m.collected.value <= STALENESS_LIMIT
  }

  /** The pairs a list of policies configures. */
  function Configured(policies: seq<Policy>): set<Marks> {
    set i | 0 <= i < |policies| && Enabled(policies[i]) && policies[i].value.maxRequestsWaiting > 0 ::
      MarksOf(policies[i].value)
  }

  function Reevaluated(m: Metrics, marks: Marks, now: int): bool {
    if m.latest.hasWaiting && Current(m, now) then Overloaded(marks, m.latest.waiting, FlagOf(m.flags, marks))
    else FlagOf(m.flags, marks)
  }

  predicate Polls(policies: seq<Policy>) {
    exists i :: 0 <= i < |policies| && Enabled(policies[i])
  }

  predicate NeedsRunning(policies: seq<Policy>) {
    exists i :: 0 <= i < |policies| && Enabled(policies[i]) && policies[i].value.softMaxRequestsRunning > 0
  }

  function Configure(m: Metrics, native: Policy, policies: seq<Policy>, now: int): Metrics {
    var all := [native] + policies;
    var poll := Polls(all);
    Metrics(native, NeedsRunning(all), if poll then m.latest else NO_COUNTS, if poll then m.collected else None,
            map marks | marks in Configured(all) :: Reevaluated(m, marks, now))
  }

  function Update(m: Metrics, counts: Counts, ts: int): Metrics {
    m.(latest := counts, collected := Some(ts),
       flags := if counts.hasWaiting then map k | k in m.flags :: Overloaded(k, counts.waiting, m.flags[k]) else m.flags)
  }

  // ---- Runs ------------------------------------------------------------------------------

  datatype Event =
    | Sample(counts: Counts, ts: int)
    | Reconfigure(native: Policy, policies: seq<Policy>, now: int)

  function TimeOf(e: Event): int {
    match e case Sample(_, ts) => ts case Reconfigure(_, _, now) => now
  }

  function Apply(m: Metrics, e: Event): Metrics {
    match e
    case Sample(counts, ts) => Update(m, counts, ts)
    case Reconfigure(native, policies, now) => Configure(m, native, policies, now)
  }

  function After(run: seq<Event>): Metrics {
    if run == [] then NEW else Apply(After(run[..|run| - 1]), run[|run| - 1])
  }

  ghost predicate InClockOrder(run: seq<Event>) {
    forall i, j :: 0 <= i < j < |run| ==> TimeOf(run[i]) <= TimeOf(run[j])
  }

  /** The waiting counts a configured pair has seen since it was introduced, starting with the
      sample still current at that moment; None while it is not configured. */
  function SeenBy(run: seq<Event>, marks: Marks): Option<seq<real>> {
    if run == [] then None
    else
      var before := run[..|run| - 1];
      var seen := SeenBy(before, marks);
      match run[|run| - 1]
      case Sample(counts, _) =>
        if seen.Some? && counts.hasWaiting then Some(seen.value + [counts.waiting]) else seen
      case Reconfigure(native, policies, now) =>
        if marks !in Configured([native] + policies) then None
        else if seen.Some? then seen
        else if After(before).latest.hasWaiting && Current(After(before), now) then Some([After(before).latest.waiting])
        else Some([])
  }

  /** A sample that is still current was seen last by every configured pair. */
  ghost predicate SawLatest(m: Metrics, clock: int, waits: seq<real>) {
    m.latest.hasWaiting && Current(m, clock) ==> waits != [] && waits[|waits| - 1] == m.latest.waiting
  }

  ghost predicate FlagTells(run: seq<Event>, marks: Marks) {
    var m, seen := After(run), SeenBy(run, marks);
    (marks in m.flags <==> seen.Some?) &&
    (seen.Some? ==>
      marks.clear < marks.trip && m.flags[marks] == Tripped(marks, seen.value) &&
      (run != [] ==> SawLatest(m, TimeOf(run[|run| - 1]), seen.value)))
  }

  lemma ConfiguredOrdered(policies: seq<Policy>, marks: Marks)
    requires marks in Configured(policies)
    ensures marks.clear < marks.trip
  {}

  lemma NothingTripped(marks: Marks)
    ensures !Tripped(marks, [])
  {}

  /** Reconfiguring keeps the flag of a pair that stays and introduces one that is new. */
  lemma ReconfigureTells(before: seq<Event>, e: Event, marks: Marks)
    requires e.Reconfigure? && FlagTells(before, marks)
    requires before != [] ==> TimeOf(before[|before| - 1]) <= e.now
    ensures FlagTells(before + [e], marks)
  {
    var run := before + [e];
    assert run[..|before|] == before && run[|run| - 1] == e;
    var m := After(before);
    var all := [e.native] + e.policies;
    if marks in Configured(all) {
      ConfiguredOrdered(all, marks);
      var seen := SeenBy(before, marks);
      assert Polls(all);
      assert Current(m, e.now) ==> before != [];
      if seen.Some? {
        if m.latest.hasWaiting && Current(m, e.now) { ReevaluationIsIdle(marks, seen.value); }
      } else {
        NothingTripped(marks);
        TrippedAppend(marks, [], m.latest.waiting);
        assert [] + [m.latest.waiting] == [m.latest.waiting];
      }
    }
  }

  lemma SampleTells(before: seq<Event>, e: Event, marks: Marks)
    requires e.Sample? && FlagTells(before, marks)
    ensures FlagTells(before + [e], marks)
  {
    var run := before + [e];
    assert run[..|before|] == before && run[|run| - 1] == e;
    var seen := SeenBy(before, marks);
    if seen.Some? { TrippedAppend(marks, seen.value, e.counts.waiting); }
  }

  /** In every run of samples and reconfigurations read in clock order, a pair has a flag exactly
      while it is configured, and the flag is the hysteresis of the samples it has seen. */
  lemma {:induction false} RunTells(run: seq<Event>, marks: Marks)
    requires InClockOrder(run)
    ensures FlagTells(run, marks)
  {
    if run != [] {
      var before, e := run[..|run| - 1], run[|run| - 1];
      RunTells(before, marks);
      assert run == before + [e];
      if e.Sample? { SampleTells(before, e, marks); } else { ReconfigureTells(before, e, marks); }
    }
  }

  /** Reconfiguring keeps the sample exactly if some policy is enabled, and asks for running counts exactly
      if an enabled one has a soft limit. */
  lemma ConfigureExactly(m: Metrics, native: Policy, policies: seq<Policy>, now: int)
    ensures var r, all := Configure(m, native, policies, now), [native] + policies;
            r.native == native &&
            (if exists i :: 0 <= i < |all| && Enabled(all[i]) then r.latest == m.latest && r.collected == m.collected
             else r.latest == NO_COUNTS && r.collected == None && r.flags == map[]) &&
            (r.requiresRunning <==> exists i :: 0 <= i < |all| && Enabled(all[i]) && all[i].value.softMaxRequestsRunning > 0)
  {}

  // ---- Routing tiers ------------------------------------------------------------------------

  datatype Tier = Preferred | Busy | Unknown | Overfull

  predicate Supports(c: Counts, p: Policy) {
    Enabled(p) && c.hasWaiting && (p.value.softMaxRequestsRunning <= 0 || c.hasRunning)
  }

  function TierOf(m: Metrics, p: Policy, now: int): (Tier, real) {
    if !Enabled(p) then (Preferred, 0.0)
    else if !Current(m, now) || !Supports(m.latest, p) then (Unknown, m.latest.waiting)
    else
      var marks := MarksOf(p.value);
      if marks.trip > 0 && Overloaded(marks, m.latest.waiting, FlagOf(m.flags, marks)) then (Overfull, m.latest.waiting)
      else if m.latest.waiting == 0.0 &&
              (p.value.softMaxRequestsRunning <= 0 || m.latest.running < p.value.softMaxRequestsRunning as real) then
        (Preferred, m.latest.waiting)
      else (Busy, m.latest.waiting)
  }

  /** The sample is at most 15 s old and has the counts the policy needs. */
  predicate Usable(m: Metrics, c: OverloadConfig, now: int) {
    m.collected.Some? && now - m.collected.value <= 15_000_000_000 && m.latest.hasWaiting &&
    (c.softMaxRequestsRunning > 0 ==> m.latest.hasRunning)
  }

  /** Each tier, from the sample: without a policy everything is preferred; under one, an unusable
      sample is unknown, a queue at the trip mark or still above the clear mark is overloaded, and of
      the rest exactly the idle queues with fewer requests running than the soft limit are preferred. */
  lemma TierExactly(m: Metrics, p: Policy, now: int)
    ensures !Enabled(p) ==> TierOf(m, p, now) == (Preferred, 0.0)
    ensures Enabled(p) ==>
      var (tier, waiting) := TierOf(m, p, now);
      var c, marks := p.value, MarksOf(p.value);
      waiting == m.latest.waiting &&
      (tier == Unknown <==> !Usable(m, c, now)) &&
      (tier == Overfull <==>
        Usable(m, c, now) && c.maxRequestsWaiting > 0 &&
        (waiting >= c.maxRequestsWaiting as real || (marks in m.flags && m.flags[marks] && waiting > marks.clear as real))) &&
      (tier == Preferred <==>
        Usable(m, c, now) && waiting == 0.0 &&
        (c.softMaxRequestsRunning > 0 ==> m.latest.running < c.softMaxRequestsRunning as real))
  {}

  /** A backend is ranked overloaded for a configured policy exactly when its sample is usable and
      the pair's history is tripped: tier's own look at the sample adds nothing. */
  lemma TierReadsHysteresis(run: seq<Event>, p: Policy, now: int)
    requires InClockOrder(run) && run != [] && TimeOf(run[|run| - 1]) <= now
    requires Enabled(p) && p.value.maxRequestsWaiting > 0 && SeenBy(run, MarksOf(p.value)).Some?
    ensures var m := After(run);
            TierOf(m, p, now).0 == Overfull <==>
            Current(m, now) && Supports(m.latest, p) && Tripped(MarksOf(p.value), SeenBy(run, MarksOf(p.value)).value)
  {
    var marks := MarksOf(p.value);
    RunTells(run, marks);
    var waits := SeenBy(run, marks).value;
    if Current(After(run), now) && Supports(After(run).latest, p) { ReevaluationIsIdle(marks, waits); }
  }

  // ---- The object -------------------------------------------------------------------------------

  class EnclaveMetrics {
    var native: Policy
    var requiresRunning: bool
    var latest: Counts
    var collected: Option<int>
    var flags: map<Marks, bool>

    ghost function State(): Metrics
      reads this
    {
      Metrics.Metrics(native, requiresRunning, latest, collected, flags)
    }

    constructor ()
      ensures State() == NEW
    {
      native, requiresRunning, latest, collected, flags := None, false, NO_COUNTS, None, map[];
    }

    /** configurePolicies: rebuild the flags of exactly the configured pairs. */
    method ConfigurePolicies(native: Policy, policies: seq<Policy>, now: int) returns (poll: bool)
      modifies this
      ensures State() == Configure(old(State()), native, policies, now) && poll == Polls([native] + policies)
    {
      hide Polls, NeedsRunning, Configured;
      ghost var m := State();
      this.native := native;
      requiresRunning := false;
      var states: map<Marks, bool> := map[];
      poll := false;
      var all := [native] + policies;
      NoPolicies(all);
      for i := 0 to |all|
        invariant poll == Polls(all[..i]) && requiresRunning == NeedsRunning(all[..i])
        invariant states.Keys == Configured(all[..i])
        invariant forall k :: k in states ==> states[k] == Reevaluated(m, k, now)
        invariant latest == m.latest && collected == m.collected && flags == m.flags && this.native == native
      {
        PolicyStep(all, i);
        var policy := all[i];
        if !Enabled(policy) { continue; }
        poll := true;
        requiresRunning := requiresRunning || policy.value.softMaxRequestsRunning > 0;
        var marks := MarksOf(policy.value);
        if marks.trip > 0 {
          var state := FlagOf(flags, marks);
          if latest.hasWaiting && collected.Some? && now - collected.value <= STALENESS_LIMIT {
            state := Overloaded(marks, latest.waiting, state);
          }
          states := states[marks := state];
        }
      }
      assert all[..|all|] == all;
      flags := states;
      if !poll { latest, collected := NO_COUNTS, None; }
    }

    method UpdateLatest(counts: Counts, ts: int)
      modifies this
      ensures State() == Update(old(State()), counts, ts)
    {
      latest, collected := counts, Some(ts);
      if counts.hasWaiting {
        var todo := flags.Keys;
        while todo != {}
          invariant todo <= flags.Keys == old(flags).Keys
          invariant native == old(native) && requiresRunning == old(requiresRunning)
          invariant latest == counts && collected == Some(ts)
          invariant forall k :: k in flags ==>
            flags[k] == if k in todo then old(flags)[k] else Overloaded(k, counts.waiting, old(flags)[k])
        {
          var k :| k in todo;
          todo := todo - {k};
          flags := flags[k := Overloaded(k, counts.waiting, flags[k])];
        }
      }
    }
  }

  lemma NoPolicies(all: seq<Policy>)
    ensures !Polls(all[..0]) && !NeedsRunning(all[..0]) && Configured(all[..0]) == {}
  {}

  /** One more policy of the list. */
  lemma PolicyStep(all: seq<Policy>, i: nat)
    requires i < |all|
    ensures Polls(all[..i + 1]) <==> Polls(all[..i]) || Enabled(all[i])
    ensures NeedsRunning(all[..i + 1]) <==>
            NeedsRunning(all[..i]) || (Enabled(all[i]) && all[i].value.softMaxRequestsRunning > 0)
    ensures Configured(all[..i + 1]) == Configured(all[..i]) +
            (if Enabled(all[i]) && all[i].value.maxRequestsWaiting > 0 then {MarksOf(all[i].value)} else {})
  {
    var a, b := all[..i], all[..i + 1];
    assert forall j :: 0 <= j < i ==> a[j] == b[j];
    assert b[i] == all[i];
    forall m ensures m in Configured(b) <==>
      m in Configured(a) || (Enabled(all[i]) && all[i].value.maxRequestsWaiting > 0 && m == MarksOf(all[i].value))
    {
      if m in Configured(a) {
        var j :| 0 <= j < |a| && Enabled(a[j]) && a[j].value.maxRequestsWaiting > 0 && MarksOf(a[j].value) == m;
        assert b[j] == a[j];
      }
      if m in Configured(b) {
        var j :| 0 <= j < |b| && Enabled(b[j]) && b[j].value.maxRequestsWaiting > 0 && MarksOf(b[j].value) == m;
        assert j < i ==> a[j] == b[j];
      }
    }
  }
}
