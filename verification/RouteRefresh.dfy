/** Refreshes around the admission cache: they draw a sequence number when they start and complete
    in any order, yet no older verdict ever replaces a newer one, even across eviction
    (route_context.go, route_context_cache.go). */
module RouteRefresh {
  import opened Seqs
  import opened RouteCache

  const MAX_REFRESHES: int := 256

  /** An answer handed to put that could fit the cache. */
  datatype Offer = Offer(k: Key, a: Answer, sequence: nat)

  // ---- Freshness of the cache, against everything ever offered --------------------------

  ghost predicate FreshKey(c: Cache, offers: seq<Offer>, k: Key) {
    if k in c.entries then
      Offer(k, c.entries[k].answer, c.entries[k].sequence) in offers &&
      forall o :: o in offers && o.k == k ==> o.sequence <= c.entries[k].sequence
    else forall o :: o in offers && o.k == k ==> o.sequence <= c.evictedSequence
  }

  ghost predicate Fresh(c: Cache, offers: seq<Offer>) {
    forall k :: FreshKey(c, offers, k)
  }

  function Offered(c: Cache, offers: seq<Offer>, k: Key, a: Answer, sequence: nat): seq<Offer> {
    if Size(a) <= c.maxBytes then offers + [Offer(k, a, sequence)] else offers
  }

  lemma FreshOther(c: Cache, r: Cache, offers: seq<Offer>, o: Offer, k: Key)
    requires FreshKey(c, offers, k) && o.k != k && r.evictedSequence >= c.evictedSequence
    requires k in r.entries ==> k in c.entries && r.entries[k] == c.entries[k]
    requires k in c.entries && k !in r.entries ==> c.entries[k].sequence <= r.evictedSequence
    ensures FreshKey(r, offers + [o], k)
  {}

  /** Every put, accepted, refused or evicting, keeps the cache fresh. */
  lemma PutKeepsFresh(c: Cache, offers: seq<Offer>, k: Key, a: Answer, sequence: nat)
    requires Inv(c) && Fresh(c, offers)
    ensures Fresh(Put(c, k, a, sequence), Offered(c, offers, k, a, sequence))
  {
    hide Inv, Size, MakeRoom;
    var o := Offer(k, a, sequence);
    var r := Put(c, k, a, sequence);
    if Size(a) <= c.maxBytes {
      assert o in offers + [o];
      if Refused(c, k, a, sequence) {
        forall x ensures FreshKey(c, offers + [o], x) {
          assert FreshKey(c, offers, x);
        }
      } else {
        PutKeepsOthers(c, k, a, sequence);
        forall x ensures FreshKey(r, offers + [o], x) {
          assert FreshKey(c, offers, x);
          if x != k { FreshOther(c, r, offers, o, x); }
        }
      }
    }
  }

  /** An accepted put leaves every other key alone or evicts it under the watermark. */
  lemma PutKeepsOthers(c: Cache, k: Key, a: Answer, sequence: nat)
    requires Inv(c) && !Refused(c, k, a, sequence)
    ensures var r := Put(c, k, a, sequence);
            r.evictedSequence >= c.evictedSequence && k in r.entries && r.entries[k] == Entry(a, sequence, Size(a)) &&
            forall x :: x != k ==>
              (x in r.entries ==> x in c.entries && r.entries[x] == c.entries[x]) &&
              (x in c.entries && x !in r.entries ==> c.entries[x].sequence <= r.evictedSequence)
  {
    hide Inv, Size, MakeRoom;
    ClearInv(c, k);
    MakeRoomOk(Cleared(c, k), Size(a));
  }

  lemma ClearInv(c: Cache, k: Key)
    requires Inv(c)
    ensures Inv(Cleared(c, k))
  {
    if k in c.entries { RemoveOk(c, k); }
  }

  // ---- The protocol -----------------------------------------------------------------------

  /** A refresh between its two puts: the metadata still to be renewed. */
  datatype Renewal = Renewal(k: Key, a: Answer)

  /** The client: cache, sequence counter, refreshes in flight, those between their two puts, and the
      history of offers. */
  datatype Client = Client(
    cache: Cache, sequence: nat, inflight: map<nat, Key>, renewing: map<nat, Renewal>, offers: seq<Offer>)

  datatype Event =
    | Read(k: Key)                                     // a cache read by Lookup or Metadata
    | Start(k: Key)                                    // a refresh draws its sequence number
    | Complete(sequence: nat, answer: Option<Answer>)  // a refresh has its answer; None is an outage
    | Renew(sequence: nat)                             // its second put, of the caller's metadata

  /** The model name of the key that only carries metadata is empty. */
  predicate IsInference(k: Key) { k.model != "" }

  function PutAnswer(s: Client, k: Key, a: Answer, sequence: nat): Client {
    s.(cache := Put(s.cache, k, a, sequence), offers := Offered(s.cache, s.offers, k, a, sequence))
  }

  function Metadata(a: Answer): Answer { Answer(a.resolved.(rateLimit := None), None) }

  /** What a completed refresh hands to the cache: an inference answer counts only if it is a
      denial or carries a decision, and a success goes on to renew the caller's metadata. */
  function Deliver(s: Client, k: Key, a: Answer, sequence: nat): Client {
    if !IsInference(k) then PutAnswer(s, k, Metadata(a), sequence)
    else if a.err.None? && a.resolved.rateLimit.None? then s
    else
      var s' := PutAnswer(s, k, a, sequence);
      if a.err.Some? then s'
      else s'.(renewing := s'.renewing[sequence := Renewal(Key(k.credential, ""), Metadata(a))])
  }

  function Apply(s: Client, e: Event): Client {
    match e
    case Read(k) => s.(cache := Touch(s.cache, k))
    case Start(k) =>
      if |s.inflight| + |s.renewing| >= MAX_REFRESHES then s
      else s.(sequence := s.sequence + 1, inflight := s.inflight[s.sequence + 1 := k])
    case Complete(sequence, answer) =>
      if sequence !in s.inflight then s
      else
        var done := s.(inflight := s.inflight - {sequence});
        if answer.None? then done else Deliver(done, s.inflight[sequence], answer.value, sequence)
    case Renew(sequence) =>
      if sequence !in s.renewing then s
      else
        var r := s.renewing[sequence];
        PutAnswer(s.(renewing := s.renewing - {sequence}), r.k, r.a, sequence)
  }

  function After(maxBytes: nat, run: seq<Event>): Client {
    if run == [] then Client(Cache(map[], [], 0, maxBytes, 0), 0, map[], map[], [])
    else Apply(After(maxBytes, run[..|run| - 1]), run[|run| - 1])
  }

  // ---- What every run keeps ------------------------------------------------------------------

  /** Sequence numbers in use were drawn, and each belongs to at most one offer of an inference key. */
  ghost predicate Drawn(s: Client) {
    Refreshing(s.inflight, s.renewing, s.sequence) && OffersDrawn(s.offers, s.inflight, s.sequence) &&
    OfferedOnce(s.offers)
  }

  ghost predicate Refreshing(inflight: map<nat, Key>, renewing: map<nat, Renewal>, sequence: nat) {
    (forall q :: q in inflight ==> 1 <= q <= sequence) &&
    (forall q :: q in renewing ==> 1 <= q <= sequence && q !in inflight && !IsInference(renewing[q].k))
  }

  ghost predicate OffersDrawn(offers: seq<Offer>, inflight: map<nat, Key>, sequence: nat) {
    forall o :: o in offers ==> 1 <= o.sequence <= sequence && o.sequence !in inflight
  }

  ghost predicate OfferedOnce(offers: seq<Offer>) {
    forall i, j :: 0 <= i < j < |offers| && offers[i].k == offers[j].k && IsInference(offers[i].k) ==>
      offers[i].sequence != offers[j].sequence
  }

  ghost predicate ClientInv(s: Client) {
    Inv(s.cache) && Fresh(s.cache, s.offers) && Drawn(s) && |s.inflight| + |s.renewing| <= MAX_REFRESHES
  }

  lemma PutAnswerOk(s: Client, k: Key, a: Answer, sequence: nat)
    requires ClientInv(s) && 1 <= sequence <= s.sequence && sequence !in s.inflight
    requires IsInference(k) ==> forall o :: o in s.offers ==> o.sequence != sequence
    ensures ClientInv(PutAnswer(s, k, a, sequence))
    ensures forall o :: o in PutAnswer(s, k, a, sequence).offers ==> o in s.offers || o == Offer(k, a, sequence)
  {
    hide Inv, Fresh, Put, Size;
    PutOk(s.cache, k, a, sequence);
    PutKeepsFresh(s.cache, s.offers, k, a, sequence);
  }

  lemma DeliverOk(s: Client, k: Key, a: Answer, sequence: nat)
    requires ClientInv(s) && |s.inflight| + |s.renewing| < MAX_REFRESHES
    requires 1 <= sequence <= s.sequence && sequence !in s.inflight && sequence !in s.renewing
    requires forall o :: o in s.offers ==> o.sequence != sequence
    ensures ClientInv(Deliver(s, k, a, sequence))
  {
    hide Inv, Fresh, Put, Size, OfferedOnce;
    if !IsInference(k) {
      PutAnswerOk(s, k, Metadata(a), sequence);
    } else if !(a.err.None? && a.resolved.rateLimit.None?) {
      PutAnswerOk(s, k, a, sequence);
      OneMore(s.renewing, sequence, Renewal(Key(k.credential, ""), Metadata(a)));
    }
  }

  lemma RenewOk(s: Client, sequence: nat)
    requires ClientInv(s)
    ensures ClientInv(Apply(s, Renew(sequence)))
  {
    hide Inv, Fresh, Put, Size, OfferedOnce;
    if sequence in s.renewing {
      var r, done := s.renewing[sequence], s.(renewing := s.renewing - {sequence});
      assert done.renewing.Keys == s.renewing.Keys - {sequence};
      PutAnswerOk(done, r.k, r.a, sequence);
    }
  }

  lemma TouchKeepsFresh(c: Cache, offers: seq<Offer>, k: Key)
    requires Fresh(c, offers)
    ensures Fresh(Touch(c, k), offers)
  {
    forall x ensures FreshKey(Touch(c, k), offers, x) {
      assert FreshKey(c, offers, x);
    }
  }

  lemma StartOk(s: Client, k: Key)
    requires ClientInv(s)
    ensures ClientInv(Apply(s, Start(k)))
  {
    hide Inv, Fresh, OfferedOnce;
    OneMore(s.inflight, s.sequence + 1, k);
  }

  lemma CompleteOk(s: Client, sequence: nat, answer: Option<Answer>)
    requires ClientInv(s)
    ensures ClientInv(Apply(s, Complete(sequence, answer)))
  {
    hide Inv, Fresh, Deliver, OfferedOnce;
    if sequence in s.inflight {
      var done := s.(inflight := s.inflight - {sequence});
      assert done.inflight.Keys == s.inflight.Keys - {sequence};
      if answer.Some? { DeliverOk(done, s.inflight[sequence], answer.value, sequence); }
    }
  }

  lemma {:induction false} RunOk(maxBytes: nat, run: seq<Event>)
    ensures ClientInv(After(maxBytes, run))
  {
    if run != [] {
      var s := After(maxBytes, run[..|run| - 1]);
      RunOk(maxBytes, run[..|run| - 1]);
      match run[|run| - 1]
      case Read(k) =>
        TouchOk(s.cache, k);
        TouchKeepsFresh(s.cache, s.offers, k);
      case Start(k) => StartOk(s, k);
      case Complete(sequence, answer) => CompleteOk(s, sequence, answer);
      case Renew(sequence) => RenewOk(s, sequence);
    }
  }

  /** In every run, the verdict a reader sees for an inference key is that of the latest-started
      refresh among all answers offered for it; an absent key's offers are all under the watermark,
      so a key with an offer is absent only after an eviction. */
  lemma LatestStartedIsVisible(maxBytes: nat, run: seq<Event>, k: Key, i: nat)
    requires IsInference(k) && i < |After(maxBytes, run).offers| && After(maxBytes, run).offers[i].k == k
    ensures var s := After(maxBytes, run);
            var o := s.offers[i];
            if k in s.cache.entries then
              o.sequence <= s.cache.entries[k].sequence &&
              (o.sequence == s.cache.entries[k].sequence ==> o.a == s.cache.entries[k].answer)
            else 0 < o.sequence <= s.cache.evictedSequence
  {
    RunOk(maxBytes, run);
    var s := After(maxBytes, run);
    assert FreshKey(s.cache, s.offers, k);
    if k in s.cache.entries {
      var shown := Offer(k, s.cache.entries[k].answer, s.cache.entries[k].sequence);
      var j :| 0 <= j < |s.offers| && s.offers[j] == shown;
      assert i != j ==> s.offers[i].sequence != s.offers[j].sequence;
    }
  }

  lemma OffersGrowOnce(s: Client, e: Event)
    ensures forall o :: o in s.offers ==> o in Apply(s, e).offers
  {}

  lemma {:induction false} OffersGrow(maxBytes: nat, run: seq<Event>, n: nat, o: Offer)
    requires n <= |run| && o in After(maxBytes, run[..n]).offers
    ensures o in After(maxBytes, run).offers
    decreases |run|
  {
    if n == |run| {
      assert run[..n] == run;
    } else {
      var before := run[..|run| - 1];
      assert before[..n] == run[..n];
      OffersGrow(maxBytes, before, n, o);
      OffersGrowOnce(After(maxBytes, before), run[|run| - 1]);
    }
  }

  /** Once a refresh has been offered, no earlier-started verdict is visible at any later point of
      the run, however many evictions lie between. */
  lemma NoStaleVerdict(maxBytes: nat, run: seq<Event>, n: nat, o: Offer)
    requires n <= |run| && o in After(maxBytes, run[..n]).offers
    ensures var c := After(maxBytes, run).cache;
            o.k in c.entries ==> c.entries[o.k].sequence >= o.sequence
  {
    RunOk(maxBytes, run);
    OffersGrow(maxBytes, run, n, o);
    assert FreshKey(After(maxBytes, run).cache, After(maxBytes, run).offers, o.k);
  }

  // ---- What a completed refresh does, told from the events ---------------------------------------

  /** How many refreshes the run asked for. */
  function Starts(run: seq<Event>): nat {
    if run == [] then 0 else Starts(run[..|run| - 1]) + (if run[|run| - 1].Start? then 1 else 0)
  }

  lemma {:induction false} SlotsWithinStarts(maxBytes: nat, run: seq<Event>)
    ensures var s := After(maxBytes, run);
            |s.inflight| + |s.renewing| <= Starts(run) && (Starts(run) <= MAX_REFRESHES ==> s.sequence == Starts(run))
  {
    if run != [] {
      hide Put;
      var before, e := run[..|run| - 1], run[|run| - 1];
      SlotsWithinStarts(maxBytes, before);
      SlotsStep(After(maxBytes, before), e);
    }
  }

  lemma CompleteSlots(s: Client, sequence: nat, answer: Option<Answer>)
    ensures var t := Apply(s, Complete(sequence, answer));
            t.sequence == s.sequence && |t.inflight| + |t.renewing| <= |s.inflight| + |s.renewing|
  {
    hide Put, Size;
    if sequence in s.inflight {
      OneLess(s.inflight, sequence);
      if answer.Some? { AtMostOneMore(s.renewing, sequence, Renewal(Key(s.inflight[sequence].credential, ""), Metadata(answer.value))); }
    }
  }

  lemma SlotsStep(s: Client, e: Event)
    ensures var t := Apply(s, e);
            if e.Start? && |s.inflight| + |s.renewing| < MAX_REFRESHES
            then t.sequence == s.sequence + 1 && |t.inflight| + |t.renewing| <= |s.inflight| + |s.renewing| + 1 &&
                 t.inflight == s.inflight[s.sequence + 1 := e.k]
            else t.sequence == s.sequence && |t.inflight| + |t.renewing| <= |s.inflight| + |s.renewing|
  {
    hide Put, Size;
    match e
    case Read(_) =>
    case Start(k) =>
      if s.sequence + 1 in s.inflight {
        assert s.inflight[s.sequence + 1 := k].Keys == s.inflight.Keys;
        assert |s.inflight[s.sequence + 1 := k]| == |s.inflight[s.sequence + 1 := k].Keys| == |s.inflight|;
      } else {
        OneMore(s.inflight, s.sequence + 1, k);
      }
    case Complete(sequence, answer) => CompleteSlots(s, sequence, answer);
    case Renew(sequence) =>
      if sequence in s.renewing { OneLess(s.renewing, sequence); }
  }

  lemma AfterOneMore(maxBytes: nat, run: seq<Event>, e: Event)
    ensures After(maxBytes, run + [e]) == Apply(After(maxBytes, run), e)
  {
    assert (run + [e])[..|run|] == run;
  }

  /** A refresh is refused only when 256 slots are taken; in a run that has asked for fewer, every one is
      granted, and numbered in order. */
  lemma FewStartsAreGranted(maxBytes: nat, run: seq<Event>, k: Key)
    requires Starts(run) < 256
    ensures Granted(maxBytes, run + [Start(k)], |run|, k, Starts(run) + 1)
  {
    hide Apply, After;
    SlotsWithinStarts(maxBytes, run);
    SlotsStep(After(maxBytes, run), Start(k));
    AfterOneMore(maxBytes, run, Start(k));
    assert (run + [Start(k)])[..|run|] == run && (run + [Start(k)])[..|run| + 1] == run + [Start(k)];
  }

  /** Event i of the run started refresh q of key k. */
  ghost predicate Granted(maxBytes: nat, run: seq<Event>, i: nat, k: Key, q: nat) {
    i < |run| && run[i] == Start(k) && q == After(maxBytes, run[..i]).sequence + 1 &&
    After(maxBytes, run[..i + 1]).sequence == q
  }

  /** No event from i on completes q. */
  ghost predicate Unanswered(run: seq<Event>, i: nat, q: nat) {
    forall m :: i <= m < |run| && run[m].Complete? ==> run[m].sequence != q
  }

  lemma KeepsInflight(s: Client, e: Event, q: nat)
    requires q in s.inflight && (e.Complete? ==> e.sequence != q) && q <= s.sequence
    ensures q in Apply(s, e).inflight && Apply(s, e).inflight[q] == s.inflight[q] && q <= Apply(s, e).sequence
  {
    hide Put, Size;
  }

  /** A started refresh is in flight, under its own key, until it is answered. */
  lemma {:induction false} StillInflight(maxBytes: nat, run: seq<Event>, i: nat, k: Key, q: nat)
    requires Granted(maxBytes, run, i, k, q) && Unanswered(run, i, q)
    ensures var s := After(maxBytes, run); q in s.inflight && s.inflight[q] == k && q <= s.sequence
    decreases |run|
  {
    var before, e := run[..|run| - 1], run[|run| - 1];
    if i == |run| - 1 {
      assert run[..i + 1] == run;
      SlotsStep(After(maxBytes, before), e);
    } else {
      assert before[..i] == run[..i] && before[..i + 1] == run[..i + 1];
      StillInflight(maxBytes, before, i, k, q);
      KeepsInflight(After(maxBytes, before), e, q);
    }
  }

  /** What the put of an answered refresh leaves behind. */
  ghost predicate Shows(s: Client, t: Client, k: Key, a: Answer, q: nat) {
    Offer(k, a, q) in t.offers &&
    (k in t.cache.entries <==> k in s.cache.entries || q > s.cache.evictedSequence) &&
    (k in t.cache.entries ==> t.cache.entries[k].sequence >= q) &&
    (k in t.cache.entries && (forall o :: o in s.offers && o.k == k ==> o.sequence < q) ==>
      t.cache.entries[k].answer == a && t.cache.entries[k].sequence == q)
  }

  lemma PutShows(s: Client, k: Key, a: Answer, q: nat)
    requires Inv(s.cache) && Fresh(s.cache, s.offers) && Size(a) <= s.cache.maxBytes
    ensures Shows(s, PutAnswer(s, k, a, q), k, a, q)
  {
    hide Inv, Size, MakeRoom;
    assert FreshKey(s.cache, s.offers, k);
    if !Refused(s.cache, k, a, q) { PutKeepsOthers(s.cache, k, a, q); }
    assert Offer(k, a, q) in s.offers + [Offer(k, a, q)];
  }

  /** Every answer to an inference refresh that is a denial or carries a decision, and fits the cache, is
      offered when it comes. Right then its key holds an answer at least as late, that very one if no
      later-started one was offered before, unless the key was absent and the refresh is at or below
      the eviction watermark. */
  lemma AnswerReachesTheCache(maxBytes: nat, run: seq<Event>, i: nat, k: Key, q: nat, a: Answer)
    requires Granted(maxBytes, run, i, k, q) && Unanswered(run, i, q) && IsInference(k)
    requires (a.err.Some? || a.resolved.rateLimit.Some?) && Size(a) <= maxBytes
    ensures Shows(After(maxBytes, run), After(maxBytes, run + [Complete(q, Some(a))]), k, a, q)
  {
    hide Put, Size, Fresh, Inv;
    var s, run' := After(maxBytes, run), run + [Complete(q, Some(a))];
    assert run'[..|run|] == run;
    StillInflight(maxBytes, run, i, k, q);
    RunOk(maxBytes, run);
    BudgetStays(maxBytes, run);
    var done := s.(inflight := s.inflight - {q});
    PutShows(done, k, a, q);
  }

  lemma {:induction false} BudgetStays(maxBytes: nat, run: seq<Event>)
    ensures After(maxBytes, run).cache.maxBytes == maxBytes
  {
    if run != [] {
      BudgetStays(maxBytes, run[..|run| - 1]);
      RunOk(maxBytes, run[..|run| - 1]);
      BudgetStep(After(maxBytes, run[..|run| - 1]), run[|run| - 1]);
    }
  }

  lemma BudgetStep(s: Client, e: Event)
    requires ClientInv(s)
    ensures Apply(s, e).cache.maxBytes == s.cache.maxBytes
  {
    hide Put, Size, Fresh, Inv;
    match e
    case Read(_) =>
    case Start(_) =>
    case Complete(sequence, answer) =>
      if sequence in s.inflight && answer.Some? {
        var k, a := s.inflight[sequence], answer.value;
        PutOk(s.cache, k, if IsInference(k) then a else Metadata(a), sequence);
      }
    case Renew(sequence) =>
      if sequence in s.renewing { PutOk(s.cache, s.renewing[sequence].k, s.renewing[sequence].a, sequence); }
  }

  /** What is kept of an answer for the caller's metadata: who it is, not what was decided. */
  lemma MetadataKeepsIdentity(a: Answer)
    ensures Metadata(a).err.None? && Metadata(a).resolved.rateLimit.None?
    ensures Metadata(a).resolved.orgID == a.resolved.orgID && Metadata(a).resolved.priority == a.resolved.priority
    ensures Metadata(a).resolved.refreshedAt == a.resolved.refreshedAt
  {}

  /** An outage changes nothing in the cache, and neither does an inference answer without a decision. */
  lemma NothingToStore(maxBytes: nat, run: seq<Event>, i: nat, k: Key, q: nat, answer: Option<Answer>)
    requires Granted(maxBytes, run, i, k, q) && Unanswered(run, i, q)
    requires answer.None? || (IsInference(k) && answer.value.err.None? && answer.value.resolved.rateLimit.None?)
    ensures var s, t := After(maxBytes, run), After(maxBytes, run + [Complete(q, answer)]);
            t.cache == s.cache && t.offers == s.offers && q !in t.inflight
  {
    assert (run + [Complete(q, answer)])[..|run|] == run;
    StillInflight(maxBytes, run, i, k, q);
  }

  /** A metadata refresh offers who the caller is under its own key. */
  lemma MetadataReachesTheCache(maxBytes: nat, run: seq<Event>, i: nat, k: Key, q: nat, a: Answer)
    requires Granted(maxBytes, run, i, k, q) && Unanswered(run, i, q) && !IsInference(k) && Size(Metadata(a)) <= maxBytes
    ensures Shows(After(maxBytes, run), After(maxBytes, run + [Complete(q, Some(a))]), k, Metadata(a), q)
  {
    hide Put, Size, Fresh, Inv;
    var s := After(maxBytes, run);
    assert (run + [Complete(q, Some(a))])[..|run|] == run;
    StillInflight(maxBytes, run, i, k, q);
    RunOk(maxBytes, run);
    BudgetStays(maxBytes, run);
    PutShows(s.(inflight := s.inflight - {q}), k, Metadata(a), q);
  }

  /** A success leaves its metadata to be renewed, and the renewal offers them under the caller's key. */
  lemma RenewalReachesTheCache(maxBytes: nat, run: seq<Event>, i: nat, k: Key, q: nat, a: Answer)
    requires Granted(maxBytes, run, i, k, q) && Unanswered(run, i, q) && IsInference(k)
    requires a.err.None? && a.resolved.rateLimit.Some? && Size(Metadata(a)) <= maxBytes
    ensures Offer(Key(k.credential, ""), Metadata(a), q) in
            After(maxBytes, run + [Complete(q, Some(a))] + [Renew(q)]).offers
  {
    hide Put, Size, Fresh, Inv;
    var run' := run + [Complete(q, Some(a))];
    assert run'[..|run|] == run && (run' + [Renew(q)])[..|run'|] == run';
    StillInflight(maxBytes, run, i, k, q);
    BudgetStays(maxBytes, run');
    var t := After(maxBytes, run');
    assert q in t.renewing && t.renewing[q] == Renewal(Key(k.credential, ""), Metadata(a));
  }

  // ---- Cached decisions are valid ------------------------------------------------------------

  /** What fetch lets through for an inference key: no decision, or a valid one. */
  predicate Checked(a: Answer) {
    a.resolved.rateLimit.None? || ValidLimit(a.resolved.rateLimit)
  }

  ghost predicate CacheChecked(c: Cache) {
    forall k :: k in c.entries ==> Checked(c.entries[k].answer)
  }

  /** Every answer to an inference refresh of the run went through fetch's check. */
  ghost predicate RunChecked(maxBytes: nat, run: seq<Event>) {
    run == [] ||
    (RunChecked(maxBytes, run[..|run| - 1]) &&
     match run[|run| - 1]
     case Complete(sequence, Some(a)) =>
       var s := After(maxBytes, run[..|run| - 1]);
       sequence in s.inflight && IsInference(s.inflight[sequence]) ==> Checked(a)
     case _ => true)
  }

  lemma PutChecked(c: Cache, k: Key, a: Answer, sequence: nat)
    requires Inv(c) && CacheChecked(c) && Checked(a)
    ensures CacheChecked(Put(c, k, a, sequence))
  {
    hide Inv, Size, MakeRoom, Checked;
    if !Refused(c, k, a, sequence) { PutKeepsOthers(c, k, a, sequence); }
  }

  ghost predicate RenewalsChecked(s: Client) {
    forall q :: q in s.renewing ==> Checked(s.renewing[q].a)
  }

  /** In every run whose inference answers were checked, every cached decision is valid: a reader
      always finds the retry-after of a rejection. */
  lemma {:induction false} CachedDecisionsAreValid(maxBytes: nat, run: seq<Event>)
    requires RunChecked(maxBytes, run)
    ensures CacheChecked(After(maxBytes, run).cache) && RenewalsChecked(After(maxBytes, run))
  {
    if run != [] {
      CachedDecisionsAreValid(maxBytes, run[..|run| - 1]);
      RunOk(maxBytes, run[..|run| - 1]);
      hide Inv, Put, Size, ValidLimit, Apply, CacheChecked, RenewalsChecked;
      ApplyChecked(After(maxBytes, run[..|run| - 1]), run[|run| - 1]);
    } else {
      assert After(maxBytes, run).cache.entries == map[];
    }
  }

  lemma ApplyChecked(s: Client, e: Event)
    requires Inv(s.cache) && CacheChecked(s.cache) && RenewalsChecked(s)
    requires e.Complete? && e.answer.Some? && e.sequence in s.inflight && IsInference(s.inflight[e.sequence]) ==> Checked(e.answer.value)
    ensures CacheChecked(Apply(s, e).cache) && RenewalsChecked(Apply(s, e))
  {
    hide Inv, Put, Size, ValidLimit;
    match e
    case Read(_) =>
    case Start(_) =>
    case Complete(sequence, answer) =>
      if sequence in s.inflight && answer.Some? {
        var k, a := s.inflight[sequence], answer.value;
        PutChecked(s.cache, k, if IsInference(k) then a else Metadata(a), sequence);
      }
    case Renew(sequence) =>
      if sequence in s.renewing { PutChecked(s.cache, s.renewing[sequence].k, s.renewing[sequence].a, sequence); }
  }

  /** In particular a reader may count down every rejection it finds, as Get asks. */
  lemma CachedRejectionsCountDown(maxBytes: nat, run: seq<Event>, k: Key)
    requires RunChecked(maxBytes, run) && k in After(maxBytes, run).cache.entries
    ensures var limit := After(maxBytes, run).cache.entries[k].answer.resolved.rateLimit;
            Rejects(limit) ==> limit.value.retryAfterSeconds.Some? && limit.value.retryAfterSeconds.value > 0
  {
    CachedDecisionsAreValid(maxBytes, run);
  }

  // ---- The cache object --------------------------------------------------------------------------

  class RouteContextCache {
    var entries: map<Key, Entry>
    var lru: seq<Key>
    var bytes: int
    const maxBytes: int
    var evictedSequence: nat
    ghost var touches: seq<Key>  // every hit and accepted put, in order

    ghost function State(): Cache
      reads this
    {
      Cache(entries, lru, bytes, maxBytes, evictedSequence)
    }

    ghost predicate Valid()
      reads this
    {
      Inv(State()) && ByLastTouch(lru, touches)
    }

    constructor (maxBytes: nat)
      ensures Valid() && State() == After(maxBytes, []).cache && touches == []
    {
      entries, lru, bytes, evictedSequence, touches := map[], [], 0, 0, [];
      this.maxBytes := maxBytes;
    }

    /** get: a hit moves to the front and shows its verdict as of now. */
    method Get(k: Key, now: int) returns (resolved: Option<RouteContext>, err: Option<RouteError>)
      requires Valid()
      requires k in entries && Rejects(entries[k].answer.resolved.rateLimit) ==>
                 entries[k].answer.resolved.rateLimit.value.retryAfterSeconds.Some?
      modifies this`lru, this`touches
      ensures Valid() && State() == Touch(old(State()), k)
      ensures touches == Touches(old(touches), k, k in entries)
      ensures if k in entries then
                var a := entries[k].answer;
                resolved == Some(a.resolved.(rateLimit := AsOf(a.resolved.rateLimit, now))) && err == a.err
              else resolved.None? && err.None?
    {
      hide Inv, ByLastTouch, Size;
      if k !in entries { return None, None; }
      TouchOk(State(), k);
      TouchKeepsOrder(State(), touches, k);
      lru := [k] + Without(lru, k);
      touches := touches + [k];
      var a := entries[k].answer;
      resolved := Some(a.resolved.(rateLimit := AsOf(a.resolved.rateLimit, now)));
      err := a.err;
    }

    /** put's eviction loop. */
    method EvictFor(size: int)
      requires Inv(State()) && size <= maxBytes
      modifies this`entries, this`lru, this`bytes, this`evictedSequence
      ensures State() == MakeRoom(old(State()), size)
    {
      hide Inv;
      while bytes + size > maxBytes
        invariant Inv(State()) && MakeRoom(State(), size) == MakeRoom(old(State()), size)
        decreases |lru|
      {
        LoopHasVictim(State(), size);
        PopBackOk(State());
        var oldest := lru[|lru| - 1];
        evictedSequence := Max(evictedSequence, entries[oldest].sequence);
        bytes := bytes - entries[oldest].bytes;
        lru := lru[..|lru| - 1];
        entries := entries - {oldest};
      }
    }

    method Put(k: Key, a: Answer, sequence: nat)
      requires Valid()
      modifies this
      ensures Valid() && State() == RouteCache.Put(old(State()), k, a, sequence)
      ensures touches == Touches(old(touches), k, !Refused(old(State()), k, a, sequence))
    {
      hide Inv, ByLastTouch, Size, MakeRoom, Without;
      PutOk(State(), k, a, sequence);
      PutKeepsOrder(State(), touches, k, a, sequence);
      ClearInv(State(), k);
      var size := Size(a);
      if size > maxBytes { return; }
      if k in entries {
        if sequence < entries[k].sequence { return; }
        bytes := bytes - entries[k].bytes;
        lru := Without(lru, k);
        entries := entries - {k};
      } else if sequence <= evictedSequence {
        return;
      }
      EvictFor(size);
      entries := entries[k := Entry(a, sequence, size)];
      lru := [k] + lru;
      bytes := bytes + size;
      touches := touches + [k];
    }
  }
}
