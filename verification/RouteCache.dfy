/** The admission cache: a byte-budget LRU whose single eviction watermark stands in for per-key
    tombstones (route_context_cache.go, route_context.go). */
module RouteCache {
  import opened Seqs

  const ENTRY_OVERHEAD: int := 1024
  const STRING_OVERHEAD: int := 2
  const SECOND: int := 1_000_000_000

  /** Credential and model are hashed in the source; equal keys mean equal inputs here. */
  datatype Key = Key(credential: string, model: string)

  datatype Quota = Quota(limit: Option<int>, used: Option<int>)
  datatype RateLimit = RateLimit(
    decision: string, reason: string, retryAfterSeconds: Option<int>, requests: Option<Quota>, tokens: Option<Quota>,
    observedAt: int)
  datatype RouteContext = RouteContext(priority: Option<int>, orgID: string, rateLimit: Option<RateLimit>, refreshedAt: int)
  datatype RouteError = RouteError(retryAfter: string, kind: string, code: string, param: string, message: string)
  datatype Answer = Answer(resolved: RouteContext, err: Option<RouteError>)

  datatype Entry = Entry(answer: Answer, sequence: nat, bytes: int)
  datatype Cache = Cache(entries: map<Key, Entry>, lru: seq<Key>, bytes: int, maxBytes: int, evictedSequence: nat)

  function Size(a: Answer): (n: int)
    ensures n >= ENTRY_OVERHEAD
  {
    var limit := match a.resolved.rateLimit case None => 0 case Some(r) => |r.decision| + |r.reason|;
    var error :=
      match a.err
      case None => 0
      case Some(e) => |e.retryAfter| + |e.kind| + |e.code| + |e.param| + |e.message|;
    ENTRY_OVERHEAD + STRING_OVERHEAD * (|a.resolved.orgID| + limit + error)
  }

  /** Every string of an answer, whatever it holds. */
  function Strings(a: Answer): seq<string> {
    [a.resolved.orgID] +
    (match a.resolved.rateLimit case None => [] case Some(r) => [r.decision, r.reason]) +
    (match a.err case None => [] case Some(e) => [e.retryAfter, e.kind, e.code, e.param, e.message])
  }

  /** An answer is charged 1024 bytes and twice the text it carries. */
  lemma SizeCountsAllText(a: Answer)
    ensures Size(a) == 1024 + 2 * |Concat(Strings(a))|
  {
    var org := [a.resolved.orgID];
    var limit := match a.resolved.rateLimit case None => [] case Some(r) => [r.decision, r.reason];
    var error := match a.err case None => [] case Some(e) => [e.retryAfter, e.kind, e.code, e.param, e.message];
    ConcatLength(org + limit, error);
    ConcatLength(org, limit);
    assert |Concat(org)| == |a.resolved.orgID|;
    if a.resolved.rateLimit.Some? { ConcatTwo(a.resolved.rateLimit.value.decision, a.resolved.rateLimit.value.reason); }
    if a.err.Some? {
      var e := a.err.value;
      ConcatLength([e.retryAfter, e.kind], [e.code, e.param, e.message]);
      ConcatLength([e.code, e.param], [e.message]);
      ConcatTwo(e.retryAfter, e.kind);
      ConcatTwo(e.code, e.param);
      assert |Concat([e.message])| == |e.message|;
      assert error == [e.retryAfter, e.kind] + [e.code, e.param, e.message];
      assert [e.code, e.param, e.message] == [e.code, e.param] + [e.message];
    }
  }

  lemma {:induction false} ConcatLength(a: seq<string>, b: seq<string>)
    ensures |Concat(a + b)| == |Concat(a)| + |Concat(b)|
  {
    if a == [] {
      assert a + b == b;
    } else {
      assert (a + b)[1..] == a[1..] + b;
      ConcatLength(a[1..], b);
    }
  }

  lemma ConcatTwo(a: string, b: string)
    ensures |Concat([a, b])| == |a| + |b|
  {
    ConcatLength([a], [b]);
    assert [a, b] == [a] + [b] && |Concat([a])| == |a| && |Concat([b])| == |b|;
  }

  // ---- Operations ---------------------------------------------------------------------

  function Touch(c: Cache, k: Key): Cache {
    if k in c.entries then c.(lru := [k] + Without(c.lru, k)) else c
  }

  function Remove(c: Cache, k: Key): Cache
    requires k in c.entries
  {
    c.(bytes := c.bytes - c.entries[k].bytes, lru := Without(c.lru, k), entries := c.entries - {k})
  }

  function Max(a: nat, b: nat): nat { if a < b then b else a }

  /** One turn of put's eviction loop. */
  function PopBack(c: Cache): Cache
    requires c.lru != [] && c.lru[|c.lru| - 1] in c.entries
  {
    var k := c.lru[|c.lru| - 1];
    c.(lru := c.lru[..|c.lru| - 1], entries := c.entries - {k}, bytes := c.bytes - c.entries[k].bytes,
       evictedSequence := Max(c.evictedSequence, c.entries[k].sequence))
  }

  function MakeRoom(c: Cache, size: int): Cache
    decreases |c.lru|
  {
    if c.bytes + size > c.maxBytes && c.lru != [] && c.lru[|c.lru| - 1] in c.entries
    then MakeRoom(PopBack(c), size) else c
  }

  function Insert(c: Cache, k: Key, a: Answer, sequence: nat): Cache {
    c.(entries := c.entries[k := Entry(a, sequence, Size(a))], lru := [k] + c.lru, bytes := c.bytes + Size(a))
  }

  /** A put is refused if it cannot fit, or is older than the entry or than the watermark. */
  predicate Refused(c: Cache, k: Key, a: Answer, sequence: nat) {
    Size(a) > c.maxBytes ||
    (if k in c.entries then sequence < c.entries[k].sequence else sequence <= c.evictedSequence)
  }

  function Cleared(c: Cache, k: Key): Cache { if k in c.entries then Remove(c, k) else c }

  function Put(c: Cache, k: Key, a: Answer, sequence: nat): Cache {
    if Refused(c, k, a, sequence) then c
    else Insert(MakeRoom(Cleared(c, k), Size(a)), k, a, sequence)
  }

  // ---- Accounting ------------------------------------------------------------------------

  function Total(entries: map<Key, Entry>, lru: seq<Key>): int
    requires forall k :: k in lru ==> k in entries
  {
    if lru == [] then 0 else entries[lru[0]].bytes + Total(entries, lru[1..])
  }

  /** Map and list are in bijection and bytes is the sum of the entry sizes, within the budget. */
  ghost predicate Inv(c: Cache) {
    NoDup(c.lru) && (forall k :: k in c.lru <==> k in c.entries) &&
    c.bytes == Total(c.entries, c.lru) && 0 <= c.bytes <= c.maxBytes &&
    forall k :: k in c.entries ==> c.entries[k].bytes == Size(c.entries[k].answer)
  }

  lemma {:induction false} TotalSame(a: map<Key, Entry>, b: map<Key, Entry>, lru: seq<Key>)
    requires forall k :: k in lru ==> k in a && k in b && a[k].bytes == b[k].bytes
    ensures Total(a, lru) == Total(b, lru)
  {
    if lru != [] { TotalSame(a, b, lru[1..]); }
  }

  lemma {:induction false} TotalWithout(entries: map<Key, Entry>, lru: seq<Key>, k: Key)
    requires (forall x :: x in lru ==> x in entries) && NoDup(lru) && k in lru
    ensures forall x :: x in Without(lru, k) ==> x in entries
    ensures Total(entries, Without(lru, k)) == Total(entries, lru) - entries[k].bytes
  {
    WithoutProps(lru, k);
    if lru[0] == k {
      WithoutAbsent(lru[1..], k);
      assert Without(lru, k) == [] + lru[1..] == lru[1..];
    } else {
      TotalWithout(entries, lru[1..], k);
      var rest := Without(lru[1..], k);
      assert Without(lru, k) == [lru[0]] + rest && ([lru[0]] + rest)[1..] == rest;
    }
  }

  lemma {:induction false} TotalNonNegative(entries: map<Key, Entry>, lru: seq<Key>)
    requires forall k :: k in lru ==> k in entries && entries[k].bytes >= 0
    ensures Total(entries, lru) >= 0
  {
    if lru != [] { TotalNonNegative(entries, lru[1..]); }
  }

  lemma RemoveOk(c: Cache, k: Key)
    requires Inv(c) && k in c.entries
    ensures Inv(Remove(c, k))
  {
    WithoutProps(c.lru, k);
    TotalWithout(c.entries, c.lru, k);
    var r := Remove(c, k);
    TotalSame(c.entries, r.entries, r.lru);
    TotalNonNegative(r.entries, r.lru);
  }

  lemma TouchOk(c: Cache, k: Key)
    requires Inv(c)
    ensures Inv(Touch(c, k))
  {
    hide Size, Without, NoDup;
    if k in c.entries {
      WithoutProps(c.lru, k);
      TotalWithout(c.entries, c.lru, k);
      NoDupCons(k, Without(c.lru, k));
      assert ([k] + Without(c.lru, k))[1..] == Without(c.lru, k);
    }
  }

  lemma PopBackOk(c: Cache)
    requires Inv(c) && c.lru != []
    ensures Inv(PopBack(c))
  {
    hide Size, Without, Total;
    var k := c.lru[|c.lru| - 1];
    assert k in c.lru;
    RemoveOk(c, k);
    WithoutLast(c.lru);
    assert PopBack(c) == Remove(c, k).(evictedSequence := PopBack(c).evictedSequence);
  }

  /** The eviction loop never runs on an empty list: what is asked for fits the whole cache. */
  lemma LoopHasVictim(c: Cache, size: int)
    requires Inv(c) && size <= c.maxBytes && c.bytes + size > c.maxBytes
    ensures c.lru != [] && c.lru[|c.lru| - 1] in c.entries
  {
    assert c.lru != [] ==> c.lru[|c.lru| - 1] in c.lru;
  }

  /** r keeps a prefix of c's list with its entries, and one more key would not have fitted. */
  ghost predicate Kept(c: Cache, r: Cache, size: int) {
    r.maxBytes == c.maxBytes && r.evictedSequence >= c.evictedSequence &&
    |r.lru| <= |c.lru| && r.lru == c.lru[..|r.lru|] &&
    (forall k :: k in r.entries ==> k in c.entries && r.entries[k] == c.entries[k]) &&
    (forall k :: k in c.entries && k !in r.entries ==> c.entries[k].sequence <= r.evictedSequence) &&
    (|r.lru| < |c.lru| ==>
      c.lru[|r.lru|] in c.entries && r.bytes + c.entries[c.lru[|r.lru|]].bytes + size > c.maxBytes)
  }

  lemma KeptOneMore(c: Cache, r: Cache, size: int)
    requires c.lru != [] && c.lru[|c.lru| - 1] in c.entries && c.bytes + size > c.maxBytes
    requires Kept(PopBack(c), r, size) && (r.lru == PopBack(c).lru ==> r.bytes == PopBack(c).bytes)
    ensures Kept(c, r, size)
  {
    var p := PopBack(c);
    assert |r.lru| < |p.lru| ==> p.lru[|r.lru|] == c.lru[|r.lru|];
    assert r.lru == c.lru[..|r.lru|];
    forall k | k in c.entries && k !in r.entries ensures c.entries[k].sequence <= r.evictedSequence {
      assert k != c.lru[|c.lru| - 1] ==> k in p.entries && p.entries[k] == c.entries[k];
    }
  }

  /** Eviction drops a suffix of the list, the least recently touched keys, and no more than needed. */
  lemma {:induction false} MakeRoomOk(c: Cache, size: int)
    requires Inv(c) && size <= c.maxBytes
    ensures var r := MakeRoom(c, size);
            Inv(r) && r.bytes + size <= c.maxBytes && Kept(c, r, size) && (r.lru == c.lru ==> r.bytes == c.bytes)
    decreases |c.lru|
  {
    hide Inv, Kept;
    if c.bytes + size > c.maxBytes {
      LoopHasVictim(c, size);
      PopBackOk(c);
      MakeRoomOk(PopBack(c), size);
      KeptOneMore(c, MakeRoom(c, size), size);
      KeptShorter(PopBack(c), MakeRoom(c, size), size);
    } else {
      KeptAll(c, size);
    }
  }

  lemma KeptShorter(c: Cache, r: Cache, size: int)
    requires Kept(c, r, size)
    ensures |r.lru| <= |c.lru|
  {}

  lemma KeptAll(c: Cache, size: int)
    ensures Kept(c, c, size)
  {}

  lemma InsertOk(c: Cache, k: Key, a: Answer, sequence: nat)
    requires Inv(c) && k !in c.entries && c.bytes + Size(a) <= c.maxBytes
    ensures Inv(Insert(c, k, a, sequence))
  {
    hide Size, NoDup;
    var r := Insert(c, k, a, sequence);
    NoDupCons(k, c.lru);
    assert ([k] + c.lru)[1..] == c.lru;
    TotalSame(c.entries, r.entries, c.lru);
  }

  lemma MakeRoomKeepsAbsent(c: Cache, size: int, k: Key)
    requires Inv(c) && size <= c.maxBytes && k !in c.entries
    ensures k !in MakeRoom(c, size).entries
  {
    MakeRoomOk(c, size);
  }

  /** Every put keeps the accounting. */
  lemma PutOk(c: Cache, k: Key, a: Answer, sequence: nat)
    requires Inv(c)
    ensures Inv(Put(c, k, a, sequence)) && Put(c, k, a, sequence).maxBytes == c.maxBytes
  {
    if !Refused(c, k, a, sequence) {
      if k in c.entries { RemoveOk(c, k); }
      MakeRoomOk(Cleared(c, k), Size(a));
      MakeRoomKeepsAbsent(Cleared(c, k), Size(a), k);
      InsertOk(MakeRoom(Cleared(c, k), Size(a)), k, a, sequence);
    }
  }

  /** A put is accepted exactly if it fits and is not older than the entry, or newer than the watermark
      where there is none; then the key holds it, and otherwise nothing changes. */
  lemma PutExactly(c: Cache, k: Key, a: Answer, sequence: nat)
    requires Inv(c)
    ensures var r := Put(c, k, a, sequence);
            if Size(a) <= c.maxBytes &&
               (k in c.entries ==> sequence >= c.entries[k].sequence) && (k !in c.entries ==> sequence > c.evictedSequence)
            then k in r.entries && r.entries[k].answer == a && r.entries[k].sequence == sequence && r.lru != [] && r.lru[0] == k
            else r == c
  {}

  // ---- Order of last touch -------------------------------------------------------------------

  /** One past the index of k's last touch, or 0. */
  function LastTouch(touches: seq<Key>, k: Key): nat {
    if touches == [] then 0
    else if touches[|touches| - 1] == k then |touches|
    else LastTouch(touches[..|touches| - 1], k)
  }

  lemma {:induction false} LastTouchBound(touches: seq<Key>, k: Key)
    ensures LastTouch(touches, k) <= |touches|
  {
    if touches != [] { LastTouchBound(touches[..|touches| - 1], k); }
  }

  lemma LastTouchAppend(touches: seq<Key>, k: Key, x: Key)
    ensures LastTouch(touches + [k], x) == if x == k then |touches| + 1 else LastTouch(touches, x)
  {
    assert (touches + [k])[..|touches|] == touches;
  }

  /** The list is exactly the order of last touch, most recent first. */
  ghost predicate ByLastTouch(lru: seq<Key>, touches: seq<Key>) {
    forall i, j :: 0 <= i < j < |lru| ==> LastTouch(touches, lru[i]) > LastTouch(touches, lru[j])
  }

  lemma {:induction false} WithoutByLastTouch(lru: seq<Key>, touches: seq<Key>, k: Key)
    requires ByLastTouch(lru, touches)
    ensures ByLastTouch(Without(lru, k), touches)
  {
    if lru != [] {
      WithoutByLastTouch(lru[1..], touches, k);
      var rest := Without(lru[1..], k);
      forall j | 0 <= j < |rest| ensures LastTouch(touches, lru[0]) > LastTouch(touches, rest[j]) {
        WithoutSubset(lru[1..], k, rest[j]);
      }
    }
  }

  lemma {:induction false} WithoutSubset(s: seq<Key>, k: Key, x: Key)
    requires x in Without(s, k)
    ensures x in s && x != k
  {
    if s != [] && x in Without(s[1..], k) { WithoutSubset(s[1..], k, x); }
  }

  lemma FrontByLastTouch(lru: seq<Key>, touches: seq<Key>, k: Key)
    requires ByLastTouch(lru, touches) && k !in lru
    ensures ByLastTouch([k] + lru, touches + [k])
  {
    forall x | x in lru ensures LastTouch(touches + [k], x) == LastTouch(touches, x) <= |touches| {
      LastTouchAppend(touches, k, x);
      LastTouchBound(touches, x);
    }
    LastTouchAppend(touches, k, k);
    var l := [k] + lru;
    forall i, j | 0 <= i < j < |l| ensures LastTouch(touches + [k], l[i]) > LastTouch(touches + [k], l[j]) {
      assert l[j] == lru[j - 1];
      assert i > 0 ==> l[i] == lru[i - 1];
    }
  }

  /** A hit and an accepted put are touches; anything else leaves the order alone. */
  function Touches(touches: seq<Key>, k: Key, hit: bool): seq<Key> {
    if hit then touches + [k] else touches
  }

  lemma TouchKeepsOrder(c: Cache, touches: seq<Key>, k: Key)
    requires Inv(c) && ByLastTouch(c.lru, touches)
    ensures ByLastTouch(Touch(c, k).lru, Touches(touches, k, k in c.entries))
  {
    if k in c.entries {
      WithoutProps(c.lru, k);
      WithoutByLastTouch(c.lru, touches, k);
      FrontByLastTouch(Without(c.lru, k), touches, k);
    }
  }

  lemma PutKeepsOrder(c: Cache, touches: seq<Key>, k: Key, a: Answer, sequence: nat)
    requires Inv(c) && ByLastTouch(c.lru, touches)
    ensures ByLastTouch(Put(c, k, a, sequence).lru, Touches(touches, k, !Refused(c, k, a, sequence)))
  {
    hide Size;
    if !Refused(c, k, a, sequence) {
      var cleared := Cleared(c, k);
      ClearedOk(c, touches, k);
      RoomKeepsOrder(cleared, touches, Size(a), k);
      FrontByLastTouch(MakeRoom(cleared, Size(a)).lru, touches, k);
    }
  }

  lemma ClearedOk(c: Cache, touches: seq<Key>, k: Key)
    requires Inv(c) && ByLastTouch(c.lru, touches)
    ensures Inv(Cleared(c, k)) && k !in Cleared(c, k).entries && ByLastTouch(Cleared(c, k).lru, touches)
  {
    hide Size, Total;
    if k in c.entries {
      RemoveOk(c, k);
      WithoutByLastTouch(c.lru, touches, k);
    }
  }

  lemma RoomKeepsOrder(c: Cache, touches: seq<Key>, size: int, k: Key)
    requires Inv(c) && size <= c.maxBytes && ByLastTouch(c.lru, touches) && k !in c.entries
    ensures ByLastTouch(MakeRoom(c, size).lru, touches) && k !in MakeRoom(c, size).lru
  {
    hide Size, Total, MakeRoom, LastTouch;
    MakeRoomOk(c, size);
  }

  /** Whatever an accepted put evicts was touched before everything it keeps. */
  lemma VictimsAreLeastRecent(c: Cache, touches: seq<Key>, size: int, gone: Key, kept: Key)
    requires Inv(c) && ByLastTouch(c.lru, touches) && size <= c.maxBytes
    requires gone in c.entries && gone !in MakeRoom(c, size).entries && kept in MakeRoom(c, size).entries
    ensures LastTouch(touches, gone) < LastTouch(touches, kept)
  {
    hide Size, Total, MakeRoom, LastTouch;
    MakeRoomOk(c, size);
    var r := MakeRoom(c, size);
    var i :| 0 <= i < |c.lru| && c.lru[i] == gone;
    var j :| 0 <= j < |r.lru| && r.lru[j] == kept;
    assert c.lru[j] == kept;
    assert i >= |r.lru| || r.lru[i] == gone;
  }

  // ---- The decision contract ----------------------------------------------------------------------

  predicate ValidQuota(q: Option<Quota>) {
    q.None? || (q.value.limit.Some? && q.value.used.Some? && q.value.limit.value >= 0 && q.value.used.value >= 0)
  }

  /** routeRateLimit.valid. */
  predicate ValidLimit(r: Option<RateLimit>) {
    r.Some? && r.value.retryAfterSeconds.Some? && r.value.retryAfterSeconds.value >= 0 &&
    ValidQuota(r.value.requests) && ValidQuota(r.value.tokens) &&
    r.value.reason in {"", "requests", "tokens"} &&
    if r.value.decision == "allowed" then r.value.reason == ""
    else if r.value.decision == "demote" then r.value.reason == "requests"
    else r.value.decision == "rejected" && r.value.reason != "" && r.value.retryAfterSeconds.value > 0
  }

  predicate Rejects(r: Option<RateLimit>) { r.Some? && r.value.decision == "rejected" }

  /** The decision a reader sees at now: a rejection counts down and lapses. */
  function AsOf(r: Option<RateLimit>, now: int): Option<RateLimit>
    requires Rejects(r) ==> r.value.retryAfterSeconds.Some?
  {
    if !Rejects(r) then r
    else
      var elapsed := now - r.value.observedAt;
      var seconds := if elapsed >= 0 then elapsed / SECOND else -(-elapsed / SECOND);
      var remaining := r.value.retryAfterSeconds.value - seconds;
      if remaining <= 0 then None else Some(r.value.(retryAfterSeconds := Some(remaining)))
  }

  /** A reader sees a decision that is not a rejection as it was stored, and a rejection unchanged but
      for its wait, which is the original less the whole seconds since, while any are left. */
  lemma ShownDecision(r: Option<RateLimit>, now: int)
    requires Rejects(r) ==> r.value.retryAfterSeconds.Some? && r.value.observedAt <= now
    ensures !Rejects(r) ==> AsOf(r, now) == r
    ensures Rejects(r) && AsOf(r, now).Some? ==>
      var shown := AsOf(r, now).value;
      shown.retryAfterSeconds.Some? && shown == r.value.(retryAfterSeconds := shown.retryAfterSeconds) &&
      var gone := r.value.retryAfterSeconds.value - shown.retryAfterSeconds.value;
      gone * 1_000_000_000 <= now - r.value.observedAt < (gone + 1) * 1_000_000_000
  {}

  /** The decisions that pass: allowed without a reason, demoted for requests, or rejected for requests
      or tokens with time to wait; counters are present and not negative. */
  lemma ValidLimitExactly(r: RateLimit)
    ensures ValidLimit(Some(r)) <==>
            r.retryAfterSeconds.Some? && r.retryAfterSeconds.value >= 0 &&
            (forall q :: q in {r.requests, r.tokens} && q.Some? ==>
              q.value.limit.Some? && q.value.limit.value >= 0 && q.value.used.Some? && q.value.used.value >= 0) &&
            ((r.decision, r.reason) in {("allowed", ""), ("demote", "requests")} ||
             ((r.decision, r.reason) in {("rejected", "requests"), ("rejected", "tokens")} && r.retryAfterSeconds.value > 0))
  {
    if ValidLimit(Some(r)) {
      forall q | q in {r.requests, r.tokens} && q.Some?
        ensures q.value.limit.Some? && q.value.limit.value >= 0 && q.value.used.Some? && q.value.used.value >= 0
      {
        assert ValidQuota(q);
      }
    } else if r.retryAfterSeconds.Some? && r.retryAfterSeconds.value >= 0 {
      assert r.requests in {r.requests, r.tokens} && r.tokens in {r.requests, r.tokens};
    }
  }

  /** A validated rejection stays one for exactly its whole seconds, always with time to wait. */
  lemma RejectionLapses(r: Option<RateLimit>, now: int)
    requires ValidLimit(r) && Rejects(r) && r.value.observedAt <= now
    ensures Rejects(AsOf(r, now)) <==> now < r.value.observedAt + r.value.retryAfterSeconds.value * SECOND
    ensures Rejects(AsOf(r, now)) ==> ValidLimit(AsOf(r, now))
    ensures AsOf(r, now).Some? ==> AsOf(r, now).value.retryAfterSeconds.value <= r.value.retryAfterSeconds.value
  {
    var elapsed := now - r.value.observedAt;
    assert elapsed / SECOND >= 0;
  }
}
