/** Exactly-once delivery over a whole turn: what is streamed live and what finalize sends afterwards
    (toolruntime/chat_stream.go). */
module ToolCallTurn {
  import opened Seqs
  import opened ToolCallDeltas
  import opened ToolCallDelivery
  import opened ToolCallFinish
  import opened ToolCallMatch

  /** The first n calls of a turn as its deltas alone tell them. */
  function Summary(owned: set<string>, ds: seq<Delta>, n: nat): (s: seq<Shown>)
    ensures |s| == n && forall u :: 0 <= u < n ==> s[u] == Shown(Assemble(Of(ds, u)), LiveCall(owned, ds, u))
  {
    seq(n, u requires 0 <= u < n => Shown(Assemble(Of(ds, u)), LiveCall(owned, ds, u)))
  }

  function AllCalls(owned: set<string>, f: Forwarder, ds: seq<Delta>): seq<Shown> {
    Summary(owned, ds, |Iterate(owned, f, ds).entries|)
  }

  function Counts(t: Turn): map<string, int> { Recorded(t.f, t.entries, |t.entries|) }

  /** What unstreamed returns for the client calls of the turn, and the entries finalize sends. */
  function Pending(owned: set<string>, t: Turn): seq<Call> {
    Unstreamed(t.f.streamedIDs, Counts(t), ClientCalls(owned, Calls(t.entries)))
  }

  function AtEnd(owned: set<string>, t: Turn): (r: seq<nat>)
    ensures forall j :: 0 <= j < |r| ==> r[j] < |t.entries|
  {
    Sent(t.f.streamedIDs, Counts(t), ClientCalls(owned, Calls(t.entries)), t.entries)
  }

  // ---- The forwarder's records, read off the deltas -------------------------------------

  /** recordStreamedWithoutIDs counts, per name, the live calls without an id. */
  lemma {:induction false} RecordCounts(f: Forwarder, entries: seq<Entry>, n: nat, name: string)
    requires n <= |entries|
    ensures Lookup(Recorded(f, entries, n), name) == Lookup(f.streamedWithoutIDs, name) +
            |Positions((u: nat) => u < |entries| && LiveWithoutID(f, entries, u) && entries[u].name == name, n)|
  {
    if n > 0 { RecordCounts(f, entries, n - 1, name); }
  }

  lemma NothingYet(owned: set<string>, f: Forwarder)
    ensures Iterate(owned, f, []).entries == [] && Assemble([]) == BLANK && FirstName([]) == ""
    ensures forall u :: Of([], u) == []
  {}

  lemma AssembledID(ds: seq<Delta>)
    ensures Assemble(ds).id != "" ==> Carries(ds, Assemble(ds).id)
  {
    if ds != [] {
      var init, d := ds[..|ds| - 1], ds[|ds| - 1];
      AssembledID(init);
      CarriesAppend(init, d, Assemble(ds).id);
      assert ds == init + [d];
    }
  }

  lemma CallAt(owned: set<string>, f: Forwarder, ds: seq<Delta>, u: nat)
    ensures var t := Iterate(owned, f, ds);
            (u < |t.entries| ==> t.entries[u] == Assemble(Of(ds, u)) && (StateOf(t.f, u).mode == Live <==> LiveCall(owned, ds, u))) &&
            (u >= |t.entries| ==> Of(ds, u) == [])
  {
    IterateOk(owned, f, ds);
    var t := Iterate(owned, f, ds);
    assert Built(t.entries, u, Of(ds, u)) && Routed(owned, t.f, t.frames, u, Of(ds, u));
  }

  /** At the end of a turn the forwarder has counted exactly its live calls without an id, and
      recorded the ids of the others. */
  lemma TurnRecords(owned: set<string>, f: Forwarder, ds: seq<Delta>)
    ensures var t, s := Iterate(owned, f, ds), AllCalls(owned, f, ds);
            Entries(s) == t.entries && CountsLive(owned, Counts(t), s) && LiveRecorded(owned, t.f.streamedIDs, s)
  {
    hide Iterate, Of, Assemble, FirstName, Recorded;
    var t, s := Iterate(owned, f, ds), AllCalls(owned, f, ds);
    forall u: nat | u < |s|
      ensures t.entries[u] == s[u].entry && (StateOf(t.f, u).mode == Live <==> s[u].live)
      ensures s[u].live && s[u].entry.id != "" ==> s[u].entry.id in t.f.streamedIDs
    {
      CallAt(owned, f, ds, u);
      AssembledID(Of(ds, u));
      StreamedExactly(owned, f, ds, s[u].entry.id);
    }
    IterateOk(owned, f, ds);
    forall name | name != "" && name !in owned ensures Lookup(Counts(t), name) == LiveBefore(owned, s, |s|, name) {
      RecordCounts(t.f, t.entries, |s|, name);
      PositionsSame((u: nat) => u < |t.entries| && LiveWithoutID(t.f, t.entries, u) && t.entries[u].name == name,
                    (u: nat) => u < |s| && Unnumbered(owned, s[u], name) && s[u].live, |s|);
    }
  }

  /** unstreamed returns the calls that Keeps describes, and finalize sends the entries that match
      them first. */
  lemma TurnEnds(owned: set<string>, f: Forwarder, ds: seq<Delta>)
    ensures var t, s := Iterate(owned, f, ds), AllCalls(owned, f, ds);
            var kept := Kept(owned, t.f.streamedIDs, s, |s|);
            Ascending(kept, |s|) && Pending(owned, t) == CallsAt(s, kept) && AtEnd(owned, t) == TakenFor(s, kept, |s|)
  {
    hide Iterate, Summary, Unstreamed, Taken, Keeps;
    TurnRecords(owned, f, ds);
    var t, s := Iterate(owned, f, ds), AllCalls(owned, f, ds);
    UnstreamedKeeps(owned, t.f.streamedIDs, Counts(t), s, |s|);
    MissedAscend(owned, t.f.streamedIDs, s);
    assert Entries(s)[..|s|] == t.entries;
  }

  // ---- Exactly once -----------------------------------------------------------------------

  /** What a client is to have of an assembled call that comes whole: a type is always given. */
  function Typed(e: Entry): Entry { e.(kind := if e.kind == "" then "function" else e.kind) }

  /** Call i reaches whoever owns its final name: of a client-owned call the client receives exactly the
      assembled one, either live, a frame per delta, or whole in one frame at the end, and of any
      other call nothing. */
  ghost predicate DeliveredOnce(owned: set<string>, t: Turn, end: seq<nat>, ds: seq<Delta>, i: nat)
    requires forall j :: 0 <= j < |end| ==> end[j] < |t.entries|
  {
    var e, final := Assemble(Of(ds, i)), Wholes(t.f.next, t.entries, end);
    if e.name != "" && e.name !in owned then
      if i in t.f.clientIndex then
        var sent := Under(t.frames, t.f.clientIndex[i]);
        sent == ToFrames(t.f.clientIndex[i], Of(ds, i)) && |sent| == |Of(ds, i)| && Received(sent) == e && i !in end
      else i in end && forall j :: 0 <= j < |end| && end[j] == i ==> Received([final[j]]) == Typed(e)
    else i !in t.f.clientIndex && i !in end
  }

  /** Every call of the turn is delivered once, and end names no entry twice. */
  ghost predicate Delivered(owned: set<string>, t: Turn, end: seq<nat>, ds: seq<Delta>) {
    NoDup(end) && (forall j :: 0 <= j < |end| ==> end[j] < |t.entries|) &&
    forall i: nat :: DeliveredOnce(owned, t, end, ds, i)
  }

  predicate NoneLeaked(owned: set<string>, s: seq<Shown>) {
    forall u :: 0 <= u < |s| ==> !Leaked(owned, s[u])
  }

  lemma AscendingSame(a: seq<nat>, b: seq<nat>, n: nat)
    requires Ascending(a, n) && Ascending(b, n) && forall u: nat :: u in a <==> u in b
    ensures a == b
  {
    ArrangementIsUnique((x: nat, y: nat) => x < y, a, b);
  }

  /** Sending the client entries end after the live frames delivers the turn if and only if no
      router-owned call went live and end is exactly the missed calls. */
  lemma DeliveredIff(owned: set<string>, f: Forwarder, ds: seq<Delta>, end: seq<nat>)
    requires var s := AllCalls(owned, f, ds); Ascending(end, |s|) && forall u :: u in end ==> Client(owned, s[u])
    ensures var t, s := Iterate(owned, f, ds), AllCalls(owned, f, ds);
            Delivered(owned, t, end, ds) <==> NoneLeaked(owned, s) && end == AllMissed(owned, s)
  {
    hide Iterate, Summary, DeliveredOnce, AllMissed;
    var t, s := Iterate(owned, f, ds), AllCalls(owned, f, ds);
    var m := AllMissed(owned, s);
    MissedAscend(owned, t.f.streamedIDs, s);
    forall i: nat ensures DeliveredOnce(owned, t, end, ds, i) <==>
      (i < |s| ==> !Leaked(owned, s[i]) && (i in end <==> Missed(owned, s[i])))
    {
      DeliveredOnceIff(owned, f, ds, end, i);
    }
    if Delivered(owned, t, end, ds) {
      forall u: nat ensures u in end <==> u in m {
        assert DeliveredOnce(owned, t, end, ds, u);
      }
      AscendingSame(end, m, |s|);
      forall u: nat | u < |s| ensures !Leaked(owned, s[u]) {
        assert DeliveredOnce(owned, t, end, ds, u);
      }
    }
  }

  /** One call of it. */
  lemma DeliveredOnceIff(owned: set<string>, f: Forwarder, ds: seq<Delta>, end: seq<nat>, i: nat)
    requires var s := AllCalls(owned, f, ds); Ascending(end, |s|) && forall u :: u in end ==> Client(owned, s[u])
    ensures var t, s := Iterate(owned, f, ds), AllCalls(owned, f, ds);
            DeliveredOnce(owned, t, end, ds, i) <==>
            (i < |s| ==> !Leaked(owned, s[i]) && (i in end <==> Missed(owned, s[i])))
  {
    hide Iterate, Of, Assemble, FirstName, Under, ToFrames, ArgsSent, Received;
    var t := Iterate(owned, f, ds);
    CallAt(owned, f, ds, i);
    LiveExactly(owned, f, ds, i);
    NamedIffFirstNamed(Of(ds, i));
    NothingYet(owned, f);
    forall j | 0 <= j < |end| && end[j] == i
      ensures Received([Wholes(t.f.next, t.entries, end)[j]]) == Typed(Assemble(Of(ds, i)))
    {
      ReceivedWhole(t.f.next + j, t.entries[i]);
    }
  }

  lemma EndIsClient(owned: set<string>, f: Forwarder, ds: seq<Delta>)
    ensures var t, s := Iterate(owned, f, ds), AllCalls(owned, f, ds);
            Ascending(AtEnd(owned, t), |s|) && forall u :: u in AtEnd(owned, t) ==> Client(owned, s[u])
  {
    hide Iterate, Summary, TakenFor, Kept;
    TurnEnds(owned, f, ds);
    var t, s := Iterate(owned, f, ds), AllCalls(owned, f, ds);
    var kept := Kept(owned, t.f.streamedIDs, s, |s|);
    MissedAscend(owned, t.f.streamedIDs, s);
    TakenAims(s, kept, |s|);
    var end := AtEnd(owned, t);
    forall u | u in end ensures Client(owned, s[u]) {
      var j: nat :| j < |end| && end[j] == u;
      assert Hits(s, kept, end, j);
    }
  }

  /** For every stream of deltas: the turn is delivered exactly once if and only if no call is first a
      client's and last the router's, and the kept calls aim at the missed ones. */
  lemma DeliveredExactly(owned: set<string>, f: Forwarder, ds: seq<Delta>)
    ensures var t, s := Iterate(owned, f, ds), AllCalls(owned, f, ds);
            Delivered(owned, t, AtEnd(owned, t), ds) <==>
            NoneLeaked(owned, s) && Aims(s, Kept(owned, t.f.streamedIDs, s, |s|), AllMissed(owned, s))
  {
    hide Iterate, Summary, Delivered, TakenFor, Aims, Kept, AllMissed;
    var t, s := Iterate(owned, f, ds), AllCalls(owned, f, ds);
    TurnEnds(owned, f, ds);
    EndIsClient(owned, f, ds);
    DeliveredIff(owned, f, ds, AtEnd(owned, t));
    MissedAscend(owned, t.f.streamedIDs, s);
    TakenExactly(s, Kept(owned, t.f.streamedIDs, s, |s|), AllMissed(owned, s));
  }

  /** When the missed calls can be told apart, by an id not streamed or else by name, unstreamed
      returns exactly them, in order, and only a leaked call is not delivered exactly once. */
  lemma DeliveredApart(owned: set<string>, f: Forwarder, ds: seq<Delta>)
    requires Apart(owned, Iterate(owned, f, ds).f.streamedIDs, AllCalls(owned, f, ds))
    ensures var t, s := Iterate(owned, f, ds), AllCalls(owned, f, ds);
            Ascending(AllMissed(owned, s), |s|) &&
            Pending(owned, t) == CallsAt(s, AllMissed(owned, s)) && AtEnd(owned, t) == AllMissed(owned, s) &&
            (Delivered(owned, t, AtEnd(owned, t), ds) <==> NoneLeaked(owned, s))
  {
    hide Iterate, Summary, Delivered, TakenFor, Aims, Kept, AllMissed, Apart;
    var t, s := Iterate(owned, f, ds), AllCalls(owned, f, ds);
    TurnRecords(owned, f, ds);
    TurnEnds(owned, f, ds);
    ApartAims(owned, t.f.streamedIDs, s);
    MissedAscend(owned, t.f.streamedIDs, s);
    TakenExactly(s, AllMissed(owned, s), AllMissed(owned, s));
    DeliveredExactly(owned, f, ds);
  }

  /** When every client call has an id: exactly once if and only if no call leaked and no missed call
      carries a streamed id. */
  lemma DeliveredNumbered(owned: set<string>, f: Forwarder, ds: seq<Delta>)
    requires var s := AllCalls(owned, f, ds); forall u :: 0 <= u < |s| && Client(owned, s[u]) ==> s[u].entry.id != ""
    ensures var t, s := Iterate(owned, f, ds), AllCalls(owned, f, ds);
            Delivered(owned, t, AtEnd(owned, t), ds) <==> NoneLeaked(owned, s) && FreshIDs(owned, t.f.streamedIDs, s)
  {
    hide Iterate, Summary, Delivered, TakenFor, Kept, AllMissed, FreshIDs;
    var t, s := Iterate(owned, f, ds), AllCalls(owned, f, ds);
    TurnRecords(owned, f, ds);
    TurnEnds(owned, f, ds);
    NumberedExactly(owned, t.f.streamedIDs, s);
    EndIsClient(owned, f, ds);
    DeliveredIff(owned, f, ds, AtEnd(owned, t));
  }

  /** When no client call has an id: exactly once if and only if no call leaked, the calls kept by
      name are the missed ones' names in order, and no call of its name obstructs a missed one. */
  lemma DeliveredUnnumbered(owned: set<string>, f: Forwarder, ds: seq<Delta>)
    requires var s := AllCalls(owned, f, ds); forall u :: 0 <= u < |s| && Client(owned, s[u]) ==> s[u].entry.id == ""
    ensures var t, s := Iterate(owned, f, ds), AllCalls(owned, f, ds);
            var kept, m := Kept(owned, t.f.streamedIDs, s, |s|), AllMissed(owned, s);
            Ascending(kept, |s|) && Ascending(m, |s|) &&
            (Delivered(owned, t, AtEnd(owned, t), ds) <==>
             NoneLeaked(owned, s) && NamesAt(s, kept) == NamesAt(s, m) && Unobstructed(s, m))
  {
    hide Iterate, Summary, Delivered, AtEnd, Kept, AllMissed, Aims, Unobstructed, NoneLeaked;
    DeliveredExactly(owned, f, ds);
    UnnumberedAims(owned, Iterate(owned, f, ds).f.streamedIDs, AllCalls(owned, f, ds));
  }

  /** Ids that belong to one call each and were not streamed before are fresh. */
  lemma OwnIDsAreFresh(owned: set<string>, f: Forwarder, ds: seq<Delta>)
    requires forall i: nat, j: nat, id :: Carries(Of(ds, i), id) && Carries(Of(ds, j), id) ==> i == j
    requires forall i: nat, id :: Carries(Of(ds, i), id) ==> id !in f.streamedIDs
    ensures FreshIDs(owned, Iterate(owned, f, ds).f.streamedIDs, AllCalls(owned, f, ds))
  {
    hide Iterate, Of, Assemble, FirstName, Carries;
    var s := AllCalls(owned, f, ds);
    forall u: nat | u < |s| && Missed(owned, s[u]) && s[u].entry.id != ""
      ensures s[u].entry.id !in Iterate(owned, f, ds).f.streamedIDs
    {
      AssembledID(Of(ds, u));
      StreamedExactly(owned, f, ds, s[u].entry.id);
      assert !LiveCall(owned, ds, u);
    }
  }

  /** The forced final turn hands finalize no calls: it is delivered if and only if every call keeps
      its owner. */
  lemma ForcedFinalDelivered(owned: set<string>, f: Forwarder, ds: seq<Delta>)
    ensures var t, s := Iterate(owned, f, ds), AllCalls(owned, f, ds);
            Sent(t.f.streamedIDs, Counts(t), [], t.entries) == [] &&
            (Delivered(owned, t, [], ds) <==> forall u :: 0 <= u < |s| ==> !Leaked(owned, s[u]) && !Missed(owned, s[u]))
  {
    hide Iterate, Summary, Delivered;
    var t, s := Iterate(owned, f, ds), AllCalls(owned, f, ds);
    NothingTaken(t.entries, |t.entries|);
    DeliveredIff(owned, f, ds, []);
    MissedAscend(owned, t.f.streamedIDs, s);
    if AllMissed(owned, s) != [] { assert AllMissed(owned, s)[0] in AllMissed(owned, s); }
  }

  /** A turn without missed calls leaves nothing to send, whatever its ids. */
  lemma NothingLeftToSend(owned: set<string>, f: Forwarder, ds: seq<Delta>)
    requires var s := AllCalls(owned, f, ds); forall u :: 0 <= u < |s| ==> !Missed(owned, s[u])
    ensures Pending(owned, Iterate(owned, f, ds)) == []
  {
    hide Iterate, Summary, Pending, Kept;
    var t, s := Iterate(owned, f, ds), AllCalls(owned, f, ds);
    TurnRecords(owned, f, ds);
    TurnEnds(owned, f, ds);
    KeptExactly(owned, t.f.streamedIDs, s);
    PositionsNone((u: nat) => u < |s| && Missed(owned, s[u]), |s|);
  }

  /** What is sent at the end is whole, under indices no frame has had. */
  lemma EndIndicesAreFresh(owned: set<string>, f: Forwarder, ds: seq<Delta>, j: nat)
    requires j < |AtEnd(owned, Iterate(owned, f, ds))|
    ensures var t := Iterate(owned, f, ds);
            var u := AtEnd(owned, t)[j];
            Wholes(t.f.next, t.entries, AtEnd(owned, t))[j] == Whole(t.f.next + j, Assemble(Of(ds, u))) &&
            forall fr :: fr in t.frames ==> fr.index < t.f.next + j
  {
    hide Iterate, AtEnd;
    CallAt(owned, f, ds, AtEnd(owned, Iterate(owned, f, ds))[j]);
    IndicesAreFresh(owned, f, ds);
  }

  // ---- Turns that are not delivered exactly once ---------------------------------------------

  lemma LengthStep(owned: set<string>, f: Forwarder, ds: seq<Delta>, d: Delta)
    ensures var n := |Iterate(owned, f, ds).entries|;
            |Iterate(owned, f, ds + [d]).entries| == if d.index < n then n else d.index + 1
  {
    assert (ds + [d])[..|ds|] == ds;
  }

  lemma TwoDeltas(owned: set<string>, f: Forwarder, d: Delta, e: Delta)
    requires d.index == e.index >= 0
    ensures var ds := [d, e];
            Of(ds, d.index) == ds && (forall u :: u != d.index ==> Of(ds, u) == []) &&
            |Iterate(owned, f, ds).entries| == d.index + 1 && Assemble(ds) == Merge(Merge(BLANK, d), e) &&
            FirstName(ds) == if NameOf(d) != "" then NameOf(d) else NameOf(e)
  {
    assert [] + [d] == [d] && [d] + [e] == [d, e];
    forall u ensures Of([d, e], u) == if u == d.index then [d, e] else [] {
      OfAppend([], d, u);
      OfAppend([d], e, u);
    }
    AppendStep([], d, 0);
    AppendStep([d], e, 0);
    LengthStep(owned, f, [], d);
    LengthStep(owned, f, [d], e);
  }

  /** Any call named first after a client tool and then after a router tool: its deltas have gone to
      the client, although the router runs the call. */
  lemma LeakedCallIsNotDelivered(owned: set<string>, f: Forwarder, d: Delta, e: Delta)
    requires d.index == e.index >= 0
    requires NameOf(d) != "" && NameOf(d) !in owned && NameOf(e) != "" && NameOf(e) in owned
    ensures var ds := [d, e];
            var t := Iterate(owned, f, ds);
            !Delivered(owned, t, AtEnd(owned, t), ds) && d.index in t.f.clientIndex &&
            Under(t.frames, t.f.clientIndex[d.index]) == ToFrames(t.f.clientIndex[d.index], ds)
  {
    var ds := [d, e];
    TwoDeltas(owned, f, d, e);
    LiveExactly(owned, f, ds, d.index);
    hide Iterate, Of, Assemble, FirstName, Under, ToFrames, Delivered, AtEnd, Aims;
    assert Leaked(owned, AllCalls(owned, f, ds)[d.index]);
    DeliveredExactly(owned, f, ds);
  }

  /** Any call named first after a router tool and then after a client tool, with an id not streamed
      before: nothing goes out live, and the whole call once at the end. */
  lemma MissedCallIsDelivered(owned: set<string>, f: Forwarder, d: Delta, e: Delta)
    requires d.index == e.index >= 0 && d.id != "" && e.id == "" && d.id !in f.streamedIDs
    requires NameOf(d) != "" && NameOf(d) in owned && NameOf(e) != "" && NameOf(e) !in owned
    ensures var ds := [d, e];
            var t := Iterate(owned, f, ds);
            Delivered(owned, t, AtEnd(owned, t), ds) && AtEnd(owned, t) == [d.index] && d.index !in t.f.clientIndex &&
            Pending(owned, t) == [Call(d.id, NameOf(e), ArgsOf(d) + ArgsOf(e))]
  {
    hide Iterate, Of, Assemble, FirstName, Delivered, AtEnd, Pending, AllMissed, Carries;
    var ds, i: nat := [d, e], d.index;
    TwoDeltas(owned, f, d, e);
    LiveExactly(owned, f, ds, i);
    var s := AllCalls(owned, f, ds);
    NothingYet(owned, f);
    assert s[i] == Shown(Merge(Merge(BLANK, d), e), false);
    assert "" + ArgsOf(d) == ArgsOf(d) && CallOf(s[i]) == Call(d.id, NameOf(e), ArgsOf(d) + ArgsOf(e));
    forall u: nat | u < i ensures s[u].entry.name == "" {
      assert Of(ds, u) == [];
    }
    StreamedExactly(owned, f, ds, d.id);
    assert !SentLive(owned, ds, d.id) by { NothingYet(owned, f); }
    DeliveredApart(owned, f, ds);
    MissedAscend(owned, {}, s);
    OnlyOne(AllMissed(owned, s), |s|, i);
  }

  lemma OnlyOne(a: seq<nat>, n: nat, u: nat)
    requires Ascending(a, n) && u < n && forall v: nat :: v in a <==> v == u
    ensures a == [u]
  {
    AscendingSame(a, [u], n);
  }

  /** Two client calls under one name without ids, one live and one missed: whichever comes first is
      sent at the end, so the turn is delivered if and only if that is the missed one. */
  lemma UnnumberedPair(owned: set<string>, f: Forwarder, ds: seq<Delta>)
    requires var s := AllCalls(owned, f, ds);
             |s| == 2 && Unnumbered(owned, s[0], s[0].entry.name) && Unnumbered(owned, s[1], s[0].entry.name) &&
             s[0].live != s[1].live
    ensures var t, s := Iterate(owned, f, ds), AllCalls(owned, f, ds);
            AtEnd(owned, t) == [0] && (Delivered(owned, t, AtEnd(owned, t), ds) <==> !s[0].live)
  {
    hide Iterate, Summary, Delivered, AtEnd, TakenFor, Kept, AllMissed, Pending, NoneLeaked, Unnumbered;
    var t, s := Iterate(owned, f, ds), AllCalls(owned, f, ds);
    PairKept(owned, t.f.streamedIDs, s);
    TurnEnds(owned, f, ds);
    EndIsClient(owned, f, ds);
    DeliveredIff(owned, f, ds, AtEnd(owned, t));
    PairMissed(owned, s);
  }

  lemma PairMissed(owned: set<string>, s: seq<Shown>)
    requires |s| == 2 && Unnumbered(owned, s[0], s[0].entry.name) && Unnumbered(owned, s[1], s[0].entry.name)
    requires s[0].live != s[1].live
    ensures NoneLeaked(owned, s) && (AllMissed(owned, s) == [0] <==> !s[0].live)
  {
    hide AllMissed, Kept, Keeps;
    MissedAscend(owned, {}, s);
    var m := AllMissed(owned, s);
    if s[0].live { assert 1 in m; } else { OnlyOne(m, 2, 0); }
  }

  lemma PairKept(owned: set<string>, ids: set<string>, s: seq<Shown>)
    requires |s| == 2 && Unnumbered(owned, s[0], s[0].entry.name) && Unnumbered(owned, s[1], s[0].entry.name)
    requires s[0].live != s[1].live
    ensures Kept(owned, ids, s, 2) == [1] && TakenFor(s, [1], 2) == [0]
  {
    hide Before, LiveBefore, Kept, AllMissed, TakenFor;
    PairCounts(owned, s, s[0].entry.name);
    assert !Keeps(owned, ids, s, 0) && Keeps(owned, ids, s, 1);
    MissedAscend(owned, ids, s);
    OnlyOne(Kept(owned, ids, s, 2), 2, 1);
    assert Hits(s, [1], [0], 0);
    TakenExactly(s, [1], [0]);
  }

  lemma PairCounts(owned: set<string>, s: seq<Shown>, name: string)
    requires |s| == 2 && Unnumbered(owned, s[0], name) && Unnumbered(owned, s[1], name) && s[0].live != s[1].live
    ensures Before(owned, s, 0, name) == 0 && Before(owned, s, 1, name) == 1 && LiveBefore(owned, s, 2, name) == 1
  {
    var live := (u: nat) => u < |s| && Unnumbered(owned, s[u], name) && s[u].live;
    BeforeStep(owned, s, 0, name);
    assert |Positions(live, 1)| == if live(0) then 1 else 0;
    assert |Positions(live, 2)| == |Positions(live, 1)| + if live(1) then 1 else 0;
  }

  function Named(index: int, name: string): Delta { Delta(index, "", "", Some(map["name" := name])) }

  lemma ThreeDeltas(owned: set<string>, f: Forwarder, a: Delta, b: Delta, c: Delta)
    requires a.index == 0 && b.index == c.index == 1
    ensures var ds := [a, b, c];
            Of(ds, 0) == [a] && Of(ds, 1) == [b, c] && |Iterate(owned, f, ds).entries| == 2 &&
            Assemble([a]) == Merge(BLANK, a) && FirstName([a]) == NameOf(a)
  {
    assert [] + [a] == [a] && [a] + [b] == [a, b] && [a, b] + [c] == [a, b, c];
    hide Iterate, Of, Assemble;
    AppendStep([], a, 0);
    LengthStep(owned, f, [], a);
    LengthStep(owned, f, [a], b);
    LengthStep(owned, f, [a, b], c);
    OfThree(a, b, c, 0);
    OfThree(a, b, c, 1);
    NothingYet(owned, f);
  }

  lemma OfNothing(u: int)
    ensures Of([], u) == []
  {}

  lemma OfThree(a: Delta, b: Delta, c: Delta, u: int)
    ensures Of([a, b, c], u) == (if a.index == u then [a] else []) + (if b.index == u then [b] else []) +
            (if c.index == u then [c] else [])
  {
    hide Of;
    assert [] + [a] == [a] && [a] + [b] == [a, b] && [a, b] + [c] == [a, b, c];
    OfNothing(u);
    OfAppend([], a, u);
    OfAppend([a], b, u);
    OfAppend([a, b], c, u);
  }

  /** Such a turn, lost: call 0 goes out live and again at the end, call 1 never. */
  lemma SecondCallIsLost(owned: set<string>, f: Forwarder, router: string, client: string)
    requires router != "" && router in owned && client != "" && client !in owned
    ensures var ds := [Named(0, client), Named(1, router), Named(1, client)];
            var t := Iterate(owned, f, ds);
            AtEnd(owned, t) == [0] && 0 in t.f.clientIndex && 1 !in t.f.clientIndex &&
            !Delivered(owned, t, AtEnd(owned, t), ds)
  {
    hide Iterate, Of, Assemble, FirstName, Delivered, AtEnd;
    var a, b, c := Named(0, client), Named(1, router), Named(1, client);
    var ds := [a, b, c];
    ThreeDeltas(owned, f, a, b, c);
    TwoDeltas(owned, f, b, c);
    LiveExactly(owned, f, ds, 0);
    LiveExactly(owned, f, ds, 1);
    UnnumberedPair(owned, f, ds);
  }
}
