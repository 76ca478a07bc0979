/** The cache-aware routing table as a value: entries, per-retention LRU lists and the
    tracked-keys aggregate (cacheroute/shadow.go). */
module ShadowTable {
  import opened Seqs
  import opened Hrw

  // Times are nanoseconds since Go's zero time, which is therefore 0.
  const MINUTE: int := 60_000_000_000
  const RETENTION_FACTOR: int := 4
  const SWEEP_CHUNK: int := 1024

  datatype TableKey = TableKey(model: string, key: string)
  datatype Group = Group(model: string, home: string, r: int)
  datatype Reuse = FirstSeen | RepeatWarm | RepeatCold

  datatype Entry = Entry(
    model: string, lastSeen: int, expiry: int, warm: map<string, int>,
    windowStart: int, prevCount: int, curCount: int, home: string, r: int, retention: int)

  datatype Table = Table(
    entries: map<TableKey, Entry>, lists: map<int, seq<TableKey>>, counts: map<Group, int>, maxKeys: int)

  /** A request routed by an earlier decision, and a keyed request that landed on host. */
  datatype Routed = Routed(home: string, r: int, demoted: bool)
  datatype Landing = Landing(
    k: TableKey, host: string, now: int, candidates: seq<Candidate>, decision: Option<Routed>,
    retention: int, thresholdRPM: real, delta: int)

  datatype Result = Result(
    reuse: Reuse, repeat: bool, interval: int, rpm: real, pick: string, demoted: bool, r: int)

  // ---- The two-bucket rate window ---------------------------------------------

  function Truncate(t: int): int { t - t % MINUTE }

  function Frac(now: int): real { (now - Truncate(now)) as real / MINUTE as real }

  function Bump(e: Entry, now: int): Entry {
    var minute := Truncate(now);
    if e.windowStart == minute then e.(curCount := e.curCount + 1)
    else if minute - e.windowStart == MINUTE then e.(prevCount := e.curCount, curCount := 1, windowStart := minute)
    else e.(prevCount := 0, curCount := 1, windowStart := minute)
  }

  function Rate(prev: int, cur: int, now: int): real {
    prev as real * (1.0 - Frac(now)) + cur as real
  }

  function PeekRate(e: Entry, now: int): real {
    var minute := Truncate(now);
    if e.windowStart == minute then Rate(e.prevCount, e.curCount, now)
    else if minute - e.windowStart == MINUTE then e.curCount as real * (1.0 - Frac(now))
    else 0.0
  }

  /** Shadow.peekRate: the key's rate without recording an arrival. */
  function TableRate(t: Table, k: TableKey, now: int): real {
    if k in t.entries then PeekRate(t.entries[k], now) else 0.0
  }

  // ---- Table operations ---------------------------------------------------------

  function CountOf(counts: map<Group, int>, g: Group): int {
    if g in counts then counts[g] else 0
  }

  function Decrement(counts: map<Group, int>, g: Group): map<Group, int> {
    if CountOf(counts, g) - 1 <= 0 then counts - {g} else counts[g := CountOf(counts, g) - 1]
  }

  function ShiftCount(counts: map<Group, int>, model: string, oldHome: string, oldR: int, newHome: string, newR: int)
    : map<Group, int>
  {
    if oldHome == newHome && oldR == newR then counts
    else
      var less := if oldHome != "" then Decrement(counts, Group(model, oldHome, oldR)) else counts;
      if newHome != "" then
        var g := Group(model, newHome, newR);
        less[g := CountOf(less, g) + 1]
      else less
  }

  function ListFor(lists: map<int, seq<TableKey>>, retention: int): seq<TableKey> {
    if retention in lists then lists[retention] else []
  }

  function PushFront(lists: map<int, seq<TableKey>>, retention: int, k: TableKey): map<int, seq<TableKey>> {
    lists[retention := [k] + ListFor(lists, retention)]
  }

  /** The lists without k, which sits in the list of its entry's retention. */
  function Detach(lists: map<int, seq<TableKey>>, retention: int, k: TableKey): map<int, seq<TableKey>> {
    lists[retention := Without(ListFor(lists, retention), k)]
  }

  function Evict(t: Table, k: TableKey): Table
    requires k in t.entries
  {
    var e := t.entries[k];
    t.(counts := ShiftCount(t.counts, e.model, e.home, e.r, "", 0),
       entries := t.entries - {k},
       lists := Detach(t.lists, e.retention, k))
  }

  function Fresh(model: string, retention: int): Entry {
    Entry(model, 0, 0, map[], 0, 0, 0, "", 0, retention)
  }

  function Prune(warm: map<string, int>, now: int, retention: int): map<string, int> {
    map h | h in warm && now - warm[h] <= retention :: warm[h]
  }

  function Classify(warm: map<string, int>, host: string): Reuse {
    if |warm| == 0 then FirstSeen
    else if host in warm && warm[host] != 0 then RepeatWarm
    else RepeatCold
  }

  /** hash stands for xxhash64(key, host). */
  function ScoreFor(hash: (string, string) -> nat, key: string): string -> nat {
    (h: string) => hash(key, h)
  }

  predicate ValidLanding(l: Landing) {
    l.now > 0 &&
    match l.decision
    case Some(d) => d.home != ""
    case None => l.candidates != [] && forall c :: c in l.candidates ==> c.host != ""
  }

  datatype Placement = Placement(home: string, r: int, pick: string, demoted: bool)

  /** Where the key is homed: as routed, or as the ranking would have done it. */
  function Place(hash: (string, string) -> nat, l: Landing, rpm: real): (p: Placement)
    requires ValidLanding(l)
    ensures p.home != ""
  {
    match l.decision
    case Some(d) => Placement(d.home, d.r, "", d.demoted)
    case None =>
      var ranked := Rank(ScoreFor(hash, l.k.key), l.candidates);
      var r := ReplicationFactor(rpm, l.thresholdRPM, |ranked|);
      var (pick, demoted) := CappedPick(ranked, r, l.delta);
      assert ranked[0] in l.candidates;
      Placement(ranked[0].host, r, pick, demoted)
  }

  /** The entry after the landing was recorded on it. */
  function Landed(e: Entry, l: Landing, p: Placement): Entry {
    var b := Bump(e, l.now);
    b.(warm := Prune(e.warm, l.now, l.retention)[l.host := l.now], lastSeen := l.now,
       expiry := l.now + RETENTION_FACTOR * l.retention, home := p.home, r := p.r, retention := l.retention)
  }

  /** The table with room made for k: the capacity victim, if any, is gone. */
  function Room(t: Table, victim: Option<TableKey>): Table
    requires victim.Some? ==> victim.value in t.entries
  {
    if victim.Some? then Evict(t, victim.value) else t
  }

  /** The entry an observation starts from. */
  function Prior(t: Table, k: TableKey, retention: int): Entry {
    if k in t.entries then t.entries[k] else Fresh(k.model, retention)
  }

  /** k's entry becomes e at the front of e's retention list, and the aggregate follows. */
  function Record(t: Table, k: TableKey, e: Entry): Table {
    var prior := Prior(t, k, e.retention);
    var lists := if k in t.entries then Detach(t.lists, prior.retention, k) else t.lists;
    t.(entries := t.entries[k := e],
       lists := PushFront(lists, e.retention, k),
       counts := ShiftCount(t.counts, k.model, prior.home, prior.r, e.home, e.r))
  }

  function ReuseOf(prior: Entry, l: Landing): Reuse {
    Classify(Prune(prior.warm, l.now, l.retention), l.host)
  }

  /** bumpRate's return value. */
  function RpmOf(prior: Entry, now: int): real {
    var b := Bump(prior, now);
    Rate(b.prevCount, b.curCount, now)
  }

  /** One observation: make room, touch or insert, classify, bump, place and recount. */
  function Observe(t: Table, hash: (string, string) -> nat, l: Landing, victim: Option<TableKey>): (Table, Result)
    requires ValidLanding(l) && (victim.Some? ==> victim.value in t.entries)
  {
    var base := Room(t, victim);
    var repeat := l.k in base.entries;
    var prior := Prior(base, l.k, l.retention);
    var rpm := RpmOf(prior, l.now);
    var p := Place(hash, l, rpm);
    (Record(base, l.k, Landed(prior, l, p)),
     Result(ReuseOf(prior, l), repeat, if repeat then l.now - prior.lastSeen else 0, rpm, p.pick, p.demoted, p.r))
  }

  // ---- Invariants ----------------------------------------------------------------

  /** A retention list holds distinct entries of that retention. */
  ghost predicate ListOk(entries: map<TableKey, Entry>, retention: int, l: seq<TableKey>) {
    NoDup(l) && forall k :: k in l ==> k in entries && entries[k].retention == retention
  }

  /** Every entry is in exactly one existing list, the one of its retention. */
  ghost predicate ListsOk(entries: map<TableKey, Entry>, lists: map<int, seq<TableKey>>) {
    (forall r :: r in lists ==> ListOk(entries, r, lists[r])) &&
    (forall k :: k in entries ==> entries[k].retention in lists && k in lists[entries[k].retention])
  }

  function GroupOf(e: Entry): Group { Group(e.model, e.home, e.r) }

  function Members(entries: map<TableKey, Entry>, g: Group): set<TableKey> {
    set k | k in entries && GroupOf(entries[k]) == g
  }

  /** The aggregate is a full recount with no zero rows. */
  ghost predicate CountsOk(entries: map<TableKey, Entry>, counts: map<Group, int>) {
    forall g {:trigger Members(entries, g)} ::
      (g in counts <==> Members(entries, g) != {}) && CountOf(counts, g) == |Members(entries, g)|
  }

  ghost predicate EntriesOk(entries: map<TableKey, Entry>) {
    forall k :: k in entries ==>
      var e := entries[k];
      e.model == k.model && e.home != "" && e.expiry == e.lastSeen + RETENTION_FACTOR * e.retention
  }

  function Capacity(maxKeys: int): int { if maxKeys < 1 then 1 else maxKeys }

  /** What holds of the table whatever the clock does. */
  ghost predicate Shape(t: Table) {
    ListsOk(t.entries, t.lists) && CountsOk(t.entries, t.counts) && EntriesOk(t.entries) &&
    |t.entries| <= Capacity(t.maxKeys)
  }

  predicate SeenAfter(entries: map<TableKey, Entry>, a: TableKey, b: TableKey) {
    a in entries && b in entries && entries[a].lastSeen >= entries[b].lastSeen
  }

  ghost predicate Newest(entries: map<TableKey, Entry>, l: seq<TableKey>) {
    forall i, j :: 0 <= i < j < |l| ==> SeenAfter(entries, l[i], l[j])
  }

  /** Every list has its newest sighting first: kept as long as landings come in clock order. */
  ghost predicate ListsSorted(entries: map<TableKey, Entry>, lists: map<int, seq<TableKey>>) {
    forall r :: r in lists ==> Newest(entries, lists[r])
  }

  ghost predicate SeenBy(entries: map<TableKey, Entry>, clock: int) {
    forall k :: k in entries ==> entries[k].lastSeen <= clock
  }

  ghost predicate Inv(t: Table, clock: int) {
    Shape(t) && ListsSorted(t.entries, t.lists) && SeenBy(t.entries, clock)
  }

  // ---- Lists ------------------------------------------------------------------------

  lemma NewestTail(entries: map<TableKey, Entry>, l: seq<TableKey>)
    requires Newest(entries, l) && l != []
    ensures Newest(entries, l[1..])
    ensures forall x :: x in l[1..] ==> SeenAfter(entries, l[0], x)
  {}

  lemma NewestCons(entries: map<TableKey, Entry>, k: TableKey, l: seq<TableKey>)
    requires Newest(entries, l) && forall x :: x in l ==> SeenAfter(entries, k, x)
    ensures Newest(entries, [k] + l)
  {}

  lemma {:induction false} WithoutNewest(entries: map<TableKey, Entry>, l: seq<TableKey>, k: TableKey)
    requires Newest(entries, l) && NoDup(l)
    ensures Newest(entries, Without(l, k))
  {
    hide Newest;
    if l == [] {
      NewestNone(entries);
    } else {
      NewestTail(entries, l);
      assert NoDup(l[1..]);
      WithoutNewest(entries, l[1..], k);
      WithoutProps(l[1..], k);
      var rest := Without(l[1..], k);
      if l[0] == k { assert Without(l, k) == [] + rest == rest; } else { NewestCons(entries, l[0], rest); }
    }
  }

  lemma NewestNone(entries: map<TableKey, Entry>)
    ensures Newest(entries, [])
  {}

  lemma NewestElsewhere(entries: map<TableKey, Entry>, l: seq<TableKey>, k: TableKey)
    requires Newest(entries, l) && k !in l
    ensures Newest(entries - {k}, l)
  {
    assert forall i :: 0 <= i < |l| ==> l[i] in l;
  }

  lemma DetachOk(entries: map<TableKey, Entry>, lists: map<int, seq<TableKey>>, k: TableKey)
    requires ListsOk(entries, lists) && k in entries
    ensures ListsOk(entries - {k}, Detach(lists, entries[k].retention, k))
  {
    var r := entries[k].retention;
    var lists' := Detach(lists, r, k);
    forall q | q in lists' ensures ListOk(entries - {k}, q, lists'[q]) {
      WithoutProps(lists[q], k);
      if q != r { WithoutAbsent(lists[q], k); }
    }
    forall x | x in entries - {k} ensures entries[x].retention in lists' && x in lists'[entries[x].retention] {
      WithoutProps(lists[r], k);
    }
  }

  lemma DetachSorted(entries: map<TableKey, Entry>, lists: map<int, seq<TableKey>>, k: TableKey)
    requires ListsOk(entries, lists) && ListsSorted(entries, lists) && k in entries
    ensures ListsSorted(entries - {k}, Detach(lists, entries[k].retention, k))
  {
    var r := entries[k].retention;
    var lists' := Detach(lists, r, k);
    forall q | q in lists' ensures Newest(entries - {k}, lists'[q]) {
      WithoutNewest(entries, lists[q], k);
      WithoutProps(lists[q], k);
      NewestElsewhere(entries, Without(lists[q], k), k);
      if q != r { WithoutAbsent(lists[q], k); }
    }
  }

  lemma LastIsOldest(entries: map<TableKey, Entry>, r: int, l: seq<TableKey>, k: TableKey)
    requires ListOk(entries, r, l) && Newest(entries, l) && k in l
    ensures Back(l) in entries && entries[Back(l)].lastSeen <= entries[k].lastSeen
    ensures entries[Back(l)].retention == entries[k].retention == r
  {
    var i :| 0 <= i < |l| && l[i] == k;
    assert l[|l| - 1] in l;
  }

  lemma PushFrontOk(entries: map<TableKey, Entry>, lists: map<int, seq<TableKey>>, k: TableKey, e: Entry)
    requires ListsOk(entries, lists) && k !in entries
    ensures ListsOk(entries[k := e], PushFront(lists, e.retention, k))
  {
    var entries', lists' := entries[k := e], PushFront(lists, e.retention, k);
    forall q | q in lists' ensures ListOk(entries', q, lists'[q]) {
      var l := ListFor(lists, q);
      assert q in lists ==> ListOk(entries, q, l);
      assert k !in l;
      assert lists'[q] == l || lists'[q] == [k] + l;
    }
    forall x | x in entries' ensures entries'[x].retention in lists' && x in lists'[entries'[x].retention] {
      assert x != k ==> x in lists[entries[x].retention];
    }
  }

  lemma NewestUpdated(entries: map<TableKey, Entry>, l: seq<TableKey>, k: TableKey, e: Entry)
    requires Newest(entries, l) && k !in l
    ensures Newest(entries[k := e], l)
  {
    forall i, j | 0 <= i < j < |l| ensures SeenAfter(entries[k := e], l[i], l[j]) {
      assert SeenAfter(entries, l[i], l[j]) && l[i] in l && l[j] in l;
    }
  }

  lemma PushFrontSorted(entries: map<TableKey, Entry>, lists: map<int, seq<TableKey>>, k: TableKey, e: Entry)
    requires ListsOk(entries, lists) && ListsSorted(entries, lists) && k !in entries && SeenBy(entries, e.lastSeen)
    ensures ListsSorted(entries[k := e], PushFront(lists, e.retention, k))
  {
    hide Newest;
    var entries', lists' := entries[k := e], PushFront(lists, e.retention, k);
    NewestNone(entries);
    forall q | q in lists' ensures Newest(entries', lists'[q]) {
      var l := ListFor(lists, q);
      assert q in lists ==> ListOk(entries, q, l);
      NewestUpdated(entries, l, k, e);
      if q == e.retention { NewestCons(entries', k, l); }
    }
  }

  // ---- Counts -------------------------------------------------------------------------

  lemma MembersRemove(entries: map<TableKey, Entry>, k: TableKey, g: Group)
    requires k in entries
    ensures Members(entries - {k}, g) == Members(entries, g) - {k}
  {}

  lemma MembersAdd(entries: map<TableKey, Entry>, k: TableKey, e: Entry, g: Group)
    requires k !in entries
    ensures Members(entries[k := e], g) == Members(entries, g) + (if GroupOf(e) == g then {k} else {})
  {}

  lemma DecrementOk(entries: map<TableKey, Entry>, counts: map<Group, int>, k: TableKey)
    requires CountsOk(entries, counts) && k in entries
    ensures CountsOk(entries - {k}, Decrement(counts, GroupOf(entries[k])))
  {
    var mine := GroupOf(entries[k]);
    assert k in Members(entries, mine);
    forall g
      ensures g in Decrement(counts, mine) <==> Members(entries - {k}, g) != {}
      ensures CountOf(Decrement(counts, mine), g) == |Members(entries - {k}, g)|
    {
      MembersRemove(entries, k, g);
      assert g != mine ==> k !in Members(entries, g);
      assert g != mine ==> Members(entries, g) - {k} == Members(entries, g);
      assert g == mine ==> |Members(entries, g) - {k}| == |Members(entries, g)| - 1;
    }
  }

  lemma IncrementOk(entries: map<TableKey, Entry>, counts: map<Group, int>, k: TableKey, e: Entry)
    requires CountsOk(entries, counts) && k !in entries
    ensures CountsOk(entries[k := e], counts[GroupOf(e) := CountOf(counts, GroupOf(e)) + 1])
  {
    var mine := GroupOf(e);
    var counts' := counts[mine := CountOf(counts, mine) + 1];
    forall g
      ensures g in counts' <==> Members(entries[k := e], g) != {}
      ensures CountOf(counts', g) == |Members(entries[k := e], g)|
    {
      MembersAdd(entries, k, e, g);
      assert k !in Members(entries, g);
      assert g == mine ==> k in Members(entries, g) + {k};
    }
  }

  /** shiftCountLocked keeps the recount when an entry changes its group. */
  lemma ShiftOk(entries: map<TableKey, Entry>, counts: map<Group, int>, k: TableKey, e: Entry)
    requires CountsOk(entries, counts) && k in entries && e.model == entries[k].model
    requires entries[k].home != "" && e.home != ""
    ensures CountsOk(entries[k := e], ShiftCount(counts, e.model, entries[k].home, entries[k].r, e.home, e.r))
  {
    if GroupOf(e) == GroupOf(entries[k]) {
      forall g
        ensures g in counts <==> Members(entries[k := e], g) != {}
        ensures CountOf(counts, g) == |Members(entries[k := e], g)|
      {
        assert Members(entries[k := e], g) == Members(entries, g);
      }
    } else {
      DecrementOk(entries, counts, k);
      IncrementOk(entries - {k}, Decrement(counts, GroupOf(entries[k])), k, e);
      assert (entries - {k})[k := e] == entries[k := e];
    }
  }

  // ---- Operations keep the invariant -----------------------------------------------------

  lemma EvictOk(t: Table, k: TableKey)
    requires Shape(t) && k in t.entries
    ensures Shape(Evict(t, k)) && |Evict(t, k).entries| == |t.entries| - 1
    ensures ListsSorted(t.entries, t.lists) ==> ListsSorted(Evict(t, k).entries, Evict(t, k).lists)
  {
    DetachOk(t.entries, t.lists, k);
    DecrementOk(t.entries, t.counts, k);
    if ListsSorted(t.entries, t.lists) { DetachSorted(t.entries, t.lists, k); }
    assert (t.entries - {k}).Keys == t.entries.Keys - {k};
    assert |(t.entries - {k}).Keys| == |t.entries.Keys| - 1;
  }

  function Back(l: seq<TableKey>): TableKey
    requires l != []
  {
    l[|l| - 1]
  }

  ghost predicate NoYoungerThanBack(t: Table, k: TableKey, r: int)
    requires k in t.entries && r in t.lists
  {
    t.lists[r] != [] ==>
      Back(t.lists[r]) in t.entries && t.entries[k].lastSeen <= t.entries[Back(t.lists[r])].lastSeen
  }

  lemma InvLater(t: Table, clock: int, now: int)
    requires Inv(t, clock) && clock <= now
    ensures Inv(t, now)
  {}

  /** insertLocked's victim: at capacity, the oldest of the lists' last elements. */
  ghost predicate IsVictim(t: Table, k: TableKey) {
    k in t.entries &&
    (exists r :: r in t.lists && t.lists[r] != [] && Back(t.lists[r]) == k) &&
    forall r :: r in t.lists ==> NoYoungerThanBack(t, k, r)
  }

  ghost predicate VictimOk(t: Table, k: TableKey, victim: Option<TableKey>) {
    if k !in t.entries && |t.entries| >= t.maxKeys && t.entries != map[]
    then victim.Some? && IsVictim(t, victim.value)
    else victim.None?
  }

  /** The capacity victim has the least last sighting of the whole table. */
  lemma VictimIsOldest(t: Table, clock: int, k: TableKey)
    requires Inv(t, clock) && IsVictim(t, k)
    ensures forall x :: x in t.entries ==> t.entries[k].lastSeen <= t.entries[x].lastSeen
  {
    forall x | x in t.entries ensures t.entries[k].lastSeen <= t.entries[x].lastSeen {
      LastIsOldest(t.entries, t.entries[x].retention, t.lists[t.entries[x].retention], x);
    }
  }

  lemma RecordLists(t: Table, k: TableKey, e: Entry)
    requires Shape(t)
    ensures ListsOk(t.entries[k := e], Record(t, k, e).lists)
    ensures ListsSorted(t.entries, t.lists) && SeenBy(t.entries, e.lastSeen) ==>
      ListsSorted(t.entries[k := e], Record(t, k, e).lists)
  {
    hide CountsOk, ListsOk, ListsSorted, Without;
    var sorted := ListsSorted(t.entries, t.lists) && SeenBy(t.entries, e.lastSeen);
    if k in t.entries {
      var lists := Detach(t.lists, t.entries[k].retention, k);
      DetachOk(t.entries, t.lists, k);
      PushFrontOk(t.entries - {k}, lists, k, e);
      if sorted {
        DetachSorted(t.entries, t.lists, k);
        PushFrontSorted(t.entries - {k}, lists, k, e);
      }
      assert (t.entries - {k})[k := e] == t.entries[k := e];
    } else {
      PushFrontOk(t.entries, t.lists, k, e);
      if sorted { PushFrontSorted(t.entries, t.lists, k, e); }
    }
  }

  lemma RecordCounts(t: Table, k: TableKey, e: Entry)
    requires Shape(t) && e.model == k.model && e.home != ""
    ensures CountsOk(t.entries[k := e], Record(t, k, e).counts)
  {
    if k in t.entries {
      ShiftOk(t.entries, t.counts, k, e);
    } else {
      IncrementOk(t.entries, t.counts, k, e);
    }
  }

  lemma RecordOk(t: Table, k: TableKey, e: Entry)
    requires Shape(t) && e.model == k.model && e.home != ""
    requires e.expiry == e.lastSeen + RETENTION_FACTOR * e.retention
    requires k in t.entries || |t.entries| < Capacity(t.maxKeys)
    ensures Shape(Record(t, k, e))
    ensures ListsSorted(t.entries, t.lists) && SeenBy(t.entries, e.lastSeen) ==> Inv(Record(t, k, e), e.lastSeen)
  {
    hide ListsOk, CountsOk, ListsSorted;
    RecordLists(t, k, e);
    RecordCounts(t, k, e);
    assert t.entries[k := e].Keys == t.entries.Keys + {k};
    assert k in t.entries ==> t.entries[k := e].Keys == t.entries.Keys;
  }

  lemma RoomOk(t: Table, k: TableKey, victim: Option<TableKey>)
    requires Shape(t) && VictimOk(t, k, victim)
    ensures Shape(Room(t, victim))
    ensures ListsSorted(t.entries, t.lists) ==> ListsSorted(Room(t, victim).entries, Room(t, victim).lists)
    ensures k in Room(t, victim).entries || |Room(t, victim).entries| < Capacity(t.maxKeys)
    ensures k in t.entries <==> k in Room(t, victim).entries
  {
    if victim.Some? { EvictOk(t, victim.value); }
  }

  lemma ObserveShape(t: Table, hash: (string, string) -> nat, l: Landing, victim: Option<TableKey>)
    returns (p: Placement)
    requires ValidLanding(l) && (victim.Some? ==> victim.value in t.entries)
    ensures p.home != ""
    ensures var base := Room(t, victim);
            var prior := Prior(base, l.k, l.retention);
            var (after, res) := Observe(t, hash, l, victim);
            after == Record(base, l.k, Landed(prior, l, p)) &&
            after.entries == base.entries[l.k := Landed(prior, l, p)] &&
            res.reuse == ReuseOf(prior, l) && res.rpm == RpmOf(prior, l.now)
  {
    p := Place(hash, l, RpmOf(Prior(Room(t, victim), l.k, l.retention), l.now));
  }

  lemma LandOk(base: Table, l: Landing, p: Placement)
    requires Shape(base) && p.home != "" && (l.k in base.entries || |base.entries| < Capacity(base.maxKeys))
    ensures var after := Record(base, l.k, Landed(Prior(base, l.k, l.retention), l, p));
            Shape(after) &&
            (ListsSorted(base.entries, base.lists) && SeenBy(base.entries, l.now) ==> Inv(after, l.now))
  {
    RecordOk(base, l.k, Landed(Prior(base, l.k, l.retention), l, p));
  }

  /** Every observation, migration and capacity eviction keeps the shape of the table, whatever the
      time it was read at; one that is not earlier than the sightings before it keeps the order too. */
  lemma ObserveOk(t: Table, hash: (string, string) -> nat, l: Landing, victim: Option<TableKey>)
    requires Shape(t) && ValidLanding(l) && VictimOk(t, l.k, victim)
    ensures Shape(Observe(t, hash, l, victim).0)
    ensures Inv(t, l.now) ==> Inv(Observe(t, hash, l, victim).0, l.now)
  {
    hide ListsOk, CountsOk, ListsSorted, EntriesOk;
    RoomOk(t, l.k, victim);
    var p := ObserveShape(t, hash, l, victim);
    LandOk(Room(t, victim), l, p);
  }

  function Later(a: int, b: int): int { if a <= b then b else a }

  /** The table at a time: well-formed, and in order if every landing came in clock order. */
  ghost predicate Sound(t: Table, clock: int, ordered: bool) {
    Shape(t) && SeenBy(t.entries, clock) && (ordered ==> Inv(t, clock))
  }

  lemma ObserveSound(t: Table, clock: int, ordered: bool, hash: (string, string) -> nat, l: Landing, victim: Option<TableKey>)
    requires Sound(t, clock, ordered) && ValidLanding(l) && VictimOk(t, l.k, victim)
    ensures Sound(Observe(t, hash, l, victim).0, Later(clock, l.now), ordered && clock <= l.now)
  {
    hide Shape, ListsSorted;
    var p := ObserveShape(t, hash, l, victim);
    ObserveOk(t, hash, l, victim);
    if ordered && clock <= l.now { InvLater(t, clock, l.now); }
  }

  /** The key is homed where its request was routed, or else on the candidate whose hash with the key is
      greatest, and the reported factor and pick are the ones it was routed or would be. */
  lemma ObservePlaces(t: Table, hash: (string, string) -> nat, l: Landing, victim: Option<TableKey>)
    requires ValidLanding(l) && VictimOk(t, l.k, victim) && NoDup(Hosts(l.candidates))
    ensures var (after, res) := Observe(t, hash, l, victim);
            l.k in after.entries &&
            var e := after.entries[l.k];
            e.r == res.r && e.lastSeen == l.now && l.host in e.warm && e.warm[l.host] == l.now &&
            (forall h :: h in e.warm && h != l.host ==> l.now - e.warm[h] <= l.retention) &&
            match l.decision
            case Some(d) => e.home == d.home && res.r == d.r && res.demoted == d.demoted && res.pick == ""
            case None =>
              e.home in Hosts(l.candidates) && res.pick in Hosts(l.candidates) &&
              res.r == ReplicationFactor(res.rpm, l.thresholdRPM, |l.candidates|) &&
              forall c :: c in l.candidates ==>
                hash(l.k.key, c.host) < hash(l.k.key, e.home) ||
                (hash(l.k.key, c.host) == hash(l.k.key, e.home) && (c.host == e.home || Less(Codes(e.home), Codes(c.host))))
  {
    hide Rank, CappedPick, Place, Before, Room;
    var p := Place(hash, l, RpmOf(Prior(Room(t, victim), l.k, l.retention), l.now));
    assert Observe(t, hash, l, victim).0.entries[l.k] == Landed(Prior(Room(t, victim), l.k, l.retention), l, p);
    PlaceTops(hash, l, RpmOf(Prior(Room(t, victim), l.k, l.retention), l.now));
  }

  lemma PlaceTops(hash: (string, string) -> nat, l: Landing, rpm: real)
    requires ValidLanding(l) && NoDup(Hosts(l.candidates))
    ensures var p := Place(hash, l, rpm);
            match l.decision
            case Some(d) => p == Placement(d.home, d.r, "", d.demoted)
            case None =>
              p.home in Hosts(l.candidates) && p.pick in Hosts(l.candidates) &&
              p.r == ReplicationFactor(rpm, l.thresholdRPM, |l.candidates|) &&
              forall c :: c in l.candidates ==>
                hash(l.k.key, c.host) < hash(l.k.key, p.home) ||
                (hash(l.k.key, c.host) == hash(l.k.key, p.home) && (c.host == p.home || Less(Codes(p.home), Codes(c.host))))
  {
    if l.decision.None? {
      var score := ScoreFor(hash, l.k.key);
      var ranked := Rank(score, l.candidates);
      RankSorts(score, l.candidates);
      hide Rank;
      HostsMultiset(ranked, l.candidates);
      PickIsHost(ranked, ReplicationFactor(rpm, l.thresholdRPM, |ranked|), l.delta);
      TopFirst(score, ranked, l.candidates);
    }
  }

  lemma PickIsHost(ranked: seq<Candidate>, r: int, delta: int)
    requires 1 <= r <= |ranked|
    ensures CappedPick(ranked, r, delta).0 in Hosts(ranked)
  {
    var w, b := LeastLoadedIndex(ranked[..r]), LeastLoadedIndex(ranked);
    assert Hosts(ranked)[w] == ranked[..r][w].host && Hosts(ranked)[b] == ranked[b].host;
  }

  lemma TopFirst(score: string -> nat, ranked: seq<Candidate>, cs: seq<Candidate>)
    requires ranked != [] && InOrder(score, Hosts(ranked)) && multiset(ranked) == multiset(cs)
    ensures ranked[0].host in Hosts(ranked)
    ensures forall c :: c in cs ==> c.host == ranked[0].host || Before(score, ranked[0].host, c.host)
  {
    assert Hosts(ranked)[0] == ranked[0].host;
    forall c | c in cs ensures c.host == ranked[0].host || Before(score, ranked[0].host, c.host) {
      assert c in multiset(ranked);
      var i :| 0 <= i < |ranked| && ranked[i] == c;
      assert i > 0 ==> Before(score, Hosts(ranked)[0], Hosts(ranked)[i]);
    }
  }

  /** Nothing is evicted for a tracked key, nor while there is room. */
  lemma EvictsOnlyWhenFull(t: Table, k: TableKey, victim: Option<TableKey>)
    requires VictimOk(t, k, victim)
    ensures victim.Some? ==> k !in t.entries && |t.entries| >= Capacity(t.maxKeys) && victim.value in t.entries
    ensures victim.None? ==> k in t.entries || |t.entries| < Capacity(t.maxKeys)
  {}

  // ---- Sweeping ------------------------------------------------------------------------------

  /** after is before less some entries that had expired at now. */
  ghost predicate Trimmed(before: map<TableKey, Entry>, after: map<TableKey, Entry>, now: int) {
    (forall k :: k in after ==> k in before && after[k] == before[k]) &&
    (forall k :: k in before && k !in after ==> before[k].expiry <= now)
  }

  lemma TrimmedSeen(before: map<TableKey, Entry>, after: map<TableKey, Entry>, clock: int, now: int)
    requires Trimmed(before, after, now) && SeenBy(before, clock) && clock <= now
    ensures SeenBy(after, now)
  {}

  lemma EvictTrims(t: Table, k: TableKey, now: int)
    requires k in t.entries && t.entries[k].expiry <= now
    ensures Trimmed(t.entries, Evict(t, k).entries, now)
  {
    assert Evict(t, k).entries == t.entries - {k};
  }

  ghost predicate NoneExpired(entries: map<TableKey, Entry>, now: int) {
    forall k :: k in entries ==> entries[k].expiry > now
  }

  lemma BackOf(t: Table, r: int)
    requires Shape(t) && r in t.lists && t.lists[r] != []
    ensures Back(t.lists[r]) in t.entries && t.entries[Back(t.lists[r])].retention == r
  {
    assert Back(t.lists[r]) in t.lists[r];
  }

  /** Within a sorted list, LRU order is expiry order. */
  lemma BackExpiresFirst(t: Table, r: int, k: TableKey)
    requires Shape(t) && r in t.lists && Newest(t.entries, t.lists[r]) && k in t.lists[r]
    ensures k in t.entries && Back(t.lists[r]) in t.entries
    ensures t.entries[Back(t.lists[r])].expiry <= t.entries[k].expiry
  {
    LastIsOldest(t.entries, r, t.lists[r], k);
  }

  lemma DropEmptyOk(t: Table, r: int)
    requires Shape(t) && r in t.lists && t.lists[r] == []
    ensures Shape(t.(lists := t.lists - {r}))
  {
    assert forall k :: k in t.entries ==> k in t.lists[t.entries[k].retention];
  }

  /** A sweep pass may stop anywhere in its chunk: it leaves a well-formed table without empty lists
      that is short of some expired entries, and no less sorted. */
  ghost predicate SweepStep(t: Table, now: int, after: Table) {
    Trimmed(t.entries, after.entries, now) && Shape(after) && after.maxKeys == t.maxKeys &&
    (forall r :: r in after.lists ==> after.lists[r] != []) &&
    (ListsSorted(t.entries, t.lists) ==> ListsSorted(after.entries, after.lists))
  }

  /** The inner loop of sweep is through with r's list: it is empty, or its back has not expired. */
  ghost predicate Stopped(t: Table, now: int, r: int)
    requires r in t.lists
  {
    t.lists[r] == [] || (Back(t.lists[r]) in t.entries && t.entries[Back(t.lists[r])].expiry > now)
  }

  ghost predicate AllStopped(t: Table, now: int) {
    forall r :: r in t.lists ==> Stopped(t, now, r)
  }

  /** In a sorted table, stopped lists hold nothing expired. */
  lemma StoppedIsClean(t: Table, now: int)
    requires Shape(t) && ListsSorted(t.entries, t.lists) && AllStopped(t, now)
    ensures NoneExpired(t.entries, now)
  {
    forall k | k in t.entries ensures t.entries[k].expiry > now {
      var r := t.entries[k].retention;
      assert k in t.lists[r] && Stopped(t, now, r);
      BackExpiresFirst(t, r, k);
    }
  }

  /** t is t0 after n evictions of expired entries from r's list. */
  ghost predicate ListSwept(t0: Table, t: Table, now: int, r: int, n: int) {
    Trimmed(t0.entries, t.entries, now) && |t.entries| == |t0.entries| - n && t.maxKeys == t0.maxKeys &&
    (ListsSorted(t0.entries, t0.lists) ==> ListsSorted(t.entries, t.lists)) &&
    t.lists.Keys == t0.lists.Keys && forall q :: q in t.lists && q != r ==> t.lists[q] == t0.lists[q]
  }

  lemma PopExpired(t0: Table, t: Table, now: int, r: int, n: int)
    requires Shape(t) && ListSwept(t0, t, now, r, n) && r in t.lists && t.lists[r] != []
    requires Back(t.lists[r]) in t.entries && t.entries[Back(t.lists[r])].expiry <= now
    ensures t.entries[Back(t.lists[r])].retention == r
    ensures var t' := Evict(t, Back(t.lists[r])); Shape(t') && ListSwept(t0, t', now, r, n + 1)
  {
    hide ListsOk, CountsOk, EntriesOk, ListsSorted;
    var back := Back(t.lists[r]);
    BackOf(t, r);
    EvictOk(t, back);
    EvictTrims(t, back, now);
  }

  /** t is t0 part-way through a pass: the lists of todo are still to be swept. */
  ghost predicate PassSwept(t0: Table, t: Table, now: int, todo: set<int>, n: int) {
    Trimmed(t0.entries, t.entries, now) && |t.entries| == |t0.entries| - n && t.maxKeys == t0.maxKeys &&
    (ListsSorted(t0.entries, t0.lists) ==> ListsSorted(t.entries, t.lists)) &&
    todo <= t.lists.Keys &&
    (forall r :: r in t.lists && r !in todo ==> t.lists[r] != []) &&
    (n < SWEEP_CHUNK ==> forall r :: r in t.lists && r !in todo ==> Stopped(t, now, r))
  }

  lemma PassStarts(t: Table, now: int)
    ensures PassSwept(t, t, now, t.lists.Keys, 0)
  {}

  /** What a list's back says is not changed by evictions from another list. */
  lemma StaysStopped(t: Table, t': Table, now: int, r: int, m: int, q: int)
    requires Shape(t') && ListSwept(t, t', now, r, m) && q in t'.lists && q != r && Stopped(t, now, q)
    ensures Stopped(t', now, q)
  {
    hide CountsOk, ListsSorted;
    if t'.lists[q] != [] { BackOf(t', q); }
  }

  /** t without r's list, if that is empty. */
  function Tidied(t: Table, r: int): Table {
    if r in t.lists && t.lists[r] == [] then t.(lists := t.lists - {r}) else t
  }

  lemma TidiedOk(t: Table, r: int)
    requires Shape(t)
    ensures Shape(Tidied(t, r)) && (ListsSorted(t.entries, t.lists) ==> ListsSorted(t.entries, Tidied(t, r).lists))
  {
    if r in t.lists && t.lists[r] == [] { DropEmptyOk(t, r); }
  }

  lemma TrimmedTwice(a: map<TableKey, Entry>, b: map<TableKey, Entry>, c: map<TableKey, Entry>, now: int)
    requires Trimmed(a, b, now) && Trimmed(b, c, now)
    ensures Trimmed(a, c, now)
  {}

  /** The pass after r's list was popped and, if empty, deleted. */
  lemma PassAdvances(t0: Table, t: Table, t': Table, now: int, todo: set<int>, r: int, n: int, m: int)
    requires Shape(t') && PassSwept(t0, t, now, todo, n) && r in todo && ListSwept(t, t', now, r, m) && 0 <= m
    requires r in t'.lists && (n + m < SWEEP_CHUNK ==> Stopped(t', now, r))
    ensures Shape(Tidied(t', r)) && PassSwept(t0, Tidied(t', r), now, todo - {r}, n + m)
  {
    hide Shape, ListsSorted, Trimmed, Stopped;
    var t'' := Tidied(t', r);
    TidiedOk(t', r);
    TrimmedTwice(t0.entries, t.entries, t'.entries, now);
    if n + m < SWEEP_CHUNK {
      forall q | q in t''.lists && q !in todo - {r} ensures Stopped(t'', now, q) {
        if q != r { StaysStopped(t, t', now, r, m, q); }
        SameBack(t', t'', now, q);
      }
    }
  }

  lemma SameBack(t: Table, t': Table, now: int, q: int)
    requires q in t.lists && q in t'.lists && t.lists[q] == t'.lists[q] && t.entries == t'.entries
    ensures Stopped(t, now, q) <==> Stopped(t', now, q)
  {}

  lemma PassDone(t0: Table, t: Table, now: int, n: int)
    requires Shape(t) && PassSwept(t0, t, now, {}, n)
    ensures SweepStep(t0, now, t) && (n < SWEEP_CHUNK ==> AllStopped(t, now))
  {}

  lemma SoundShape(t: Table, clock: int, ordered: bool)
    requires Sound(t, clock, ordered)
    ensures Shape(t)
  {}

  lemma SweepSound(t: Table, clock: int, ordered: bool, now: int, after: Table)
    requires Sound(t, clock, ordered) && clock <= now && SweepStep(t, now, after)
    ensures Sound(after, now, ordered)
  {
    TrimmedSeen(t.entries, after.entries, clock, now);
  }

  /** The state of insertLocked's scan: oldest is the least recently seen back outside todo. */
  ghost predicate OldestSoFar(t: Table, todo: set<int>, oldest: Option<TableKey>) {
    match oldest
    case None => forall r :: r in t.lists && r !in todo ==> t.lists[r] == []
    case Some(k) =>
      k in t.entries &&
      (exists r :: r in t.lists && t.lists[r] != [] && Back(t.lists[r]) == k) &&
      forall r :: r in t.lists && r !in todo ==> NoYoungerThanBack(t, k, r)
  }

  lemma ScanStep(t: Table, todo: set<int>, oldest: Option<TableKey>, r: int)
    requires ListsOk(t.entries, t.lists) && OldestSoFar(t, todo, oldest) && r in todo && r in t.lists
    ensures t.lists[r] == [] ==> OldestSoFar(t, todo - {r}, oldest)
    ensures t.lists[r] != [] ==>
      var back := Back(t.lists[r]);
      back in t.entries &&
      if oldest.None? || t.entries[back].lastSeen < t.entries[oldest.value].lastSeen
      then OldestSoFar(t, todo - {r}, Some(back))
      else OldestSoFar(t, todo - {r}, oldest)
  {
    assert t.lists[r] != [] ==> Back(t.lists[r]) in t.lists[r];
  }

  lemma ScanDone(t: Table, oldest: Option<TableKey>)
    requires ListsOk(t.entries, t.lists) && OldestSoFar(t, {}, oldest)
    ensures t.entries == map[] ==> oldest.None?
    ensures t.entries != map[] ==> oldest.Some? && IsVictim(t, oldest.value)
  {
    if t.entries != map[] {
      var k :| k in t.entries;
      assert k in t.lists[t.entries[k].retention];
    }
  }

  /** Field by field, the state after a landing is Observe's. */
  lemma ObserveAssembled(t: Table, hash: (string, string) -> nat, l: Landing, victim: Option<TableKey>,
                         after: Table, res: Result)
    requires ValidLanding(l) && (victim.Some? ==> victim.value in t.entries)
    requires var base := Room(t, victim);
             var prior := Prior(base, l.k, l.retention);
             var repeat := l.k in base.entries;
             var p := Place(hash, l, RpmOf(prior, l.now));
             after.entries == base.entries[l.k := Landed(prior, l, p)] &&
             after.lists == PushFront(if repeat then Detach(base.lists, prior.retention, l.k) else base.lists,
                                      l.retention, l.k) &&
             after.counts == ShiftCount(base.counts, l.k.model, prior.home, prior.r, p.home, p.r) &&
             after.maxKeys == t.maxKeys &&
             res == Result(ReuseOf(prior, l), repeat, if repeat then l.now - prior.lastSeen else 0,
                           RpmOf(prior, l.now), p.pick, p.demoted, p.r)
    ensures (after, res) == Observe(t, hash, l, victim)
  {}
}
