/** The end of a turn: calls are assembled and split by owner, and what was streamed live is not
    sent again (toolruntime/chat_stream.go, toolruntime/tool_call.go). */
module ToolCallFinish {
  import opened Seqs
  import opened ToolCallDeltas
  import opened ToolCallDelivery

  // ---- Assembled calls and their owners ------------------------------------------------

  /** toolCalls: one call per named entry. */
  function Calls(entries: seq<Entry>): seq<Call> {
    if entries == [] then []
    else
      var e := entries[|entries| - 1];
      Calls(entries[..|entries| - 1]) + (if e.name != "" then [Call(e.id, e.name, e.arguments)] else [])
  }

  predicate Mine(owned: set<string>, c: Call) { c.name in owned }

  function RouterCalls(owned: set<string>, calls: seq<Call>): seq<Call> {
    Filter((c: Call) => Mine(owned, c), calls)
  }

  function ClientCalls(owned: set<string>, calls: seq<Call>): seq<Call> {
    Filter((c: Call) => !Mine(owned, c), calls)
  }

  lemma SplitStep(owned: set<string>, calls: seq<Call>, c: Call)
    ensures RouterCalls(owned, calls + [c]) == RouterCalls(owned, calls) + (if c.name in owned then [c] else [])
    ensures ClientCalls(owned, calls + [c]) == ClientCalls(owned, calls) + (if c.name in owned then [] else [c])
  {
    FilterAppend((x: Call) => Mine(owned, x), calls, [c]);
    FilterAppend((x: Call) => !Mine(owned, x), calls, [c]);
  }

  /** Each call is on its owner's side, and none is lost or doubled. */
  lemma {:induction false} SplitKeepsAll(owned: set<string>, calls: seq<Call>)
    ensures forall c :: multiset(RouterCalls(owned, calls))[c] + multiset(ClientCalls(owned, calls))[c] == multiset(calls)[c]
    ensures forall c :: c in RouterCalls(owned, calls) ==> c.name in owned
    ensures forall c :: c in ClientCalls(owned, calls) ==> c.name !in owned
  {
    hide RouterCalls, ClientCalls;
    if calls == [] {
      SplitNothing(owned);
    } else {
      var init, last := calls[..|calls| - 1], calls[|calls| - 1];
      SplitKeepsAll(owned, init);
      SplitStep(owned, init, last);
      assert calls == init + [last];
    }
  }

  lemma SplitNothing(owned: set<string>)
    ensures RouterCalls(owned, []) == [] && ClientCalls(owned, []) == []
  {}

  /** splitToolCalls keeps every call, on its owner's side and in order. */
  method SplitToolCalls(owned: set<string>, calls: seq<Call>) returns (router: seq<Call>, client: seq<Call>)
    ensures router == RouterCalls(owned, calls) && client == ClientCalls(owned, calls)
    ensures multiset(router) + multiset(client) == multiset(calls)
    ensures (forall c :: c in router ==> c.name in owned) && (forall c :: c in client ==> c.name !in owned)
  {
    hide RouterCalls, ClientCalls;
    router, client := [], [];
    SplitNothing(owned);
    for i := 0 to |calls|
      invariant router == RouterCalls(owned, calls[..i]) && client == ClientCalls(owned, calls[..i])
    {
      assert calls[..i + 1] == calls[..i] + [calls[i]];
      SplitStep(owned, calls[..i], calls[i]);
      if calls[i].name in owned { router := router + [calls[i]]; } else { client := client + [calls[i]]; }
    }
    assert calls[..|calls|] == calls;
    SplitKeepsAll(owned, calls);
  }

  // ---- Live calls without an id ------------------------------------------------------------

  function Lookup(counts: map<string, int>, name: string): int {
    if name in counts then counts[name] else 0
  }

  predicate LiveWithoutID(f: Forwarder, entries: seq<Entry>, u: int)
    requires 0 <= u < |entries|
  {
    entries[u].id == "" && StateOf(f, u).mode == Live
  }

  /** recordStreamedWithoutIDs, over the first n entries. */
  function Recorded(f: Forwarder, entries: seq<Entry>, n: nat): map<string, int>
    requires n <= |entries|
  {
    if n == 0 then f.streamedWithoutIDs
    else
      var counts := Recorded(f, entries, n - 1);
      if LiveWithoutID(f, entries, n - 1)
      then counts[entries[n - 1].name := Lookup(counts, entries[n - 1].name) + 1] else counts
  }

  /** What unstreamed still has to send. */
  function Unstreamed(ids: set<string>, counts: map<string, int>, calls: seq<Call>): seq<Call>
    decreases |calls|
  {
    if calls == [] then []
    else
      var c := calls[0];
      if c.id != "" && c.id in ids then Unstreamed(ids, counts, calls[1..])
      else if c.id == "" && Lookup(counts, c.name) > 0 then
        Unstreamed(ids, counts[c.name := Lookup(counts, c.name) - 1], calls[1..])
      else [c] + Unstreamed(ids, counts, calls[1..])
  }

  /** The counts after unstreamed has drawn on them. */
  function Spent(ids: set<string>, counts: map<string, int>, calls: seq<Call>): map<string, int>
    decreases |calls|
  {
    if calls == [] then counts
    else
      var c := calls[0];
      if c.id == "" && Lookup(counts, c.name) > 0
      then Spent(ids, counts[c.name := Lookup(counts, c.name) - 1], calls[1..])
      else Spent(ids, counts, calls[1..])
  }

  lemma {:induction false} NothingStreamed(calls: seq<Call>)
    ensures Unstreamed({}, map[], calls) == calls && Spent({}, map[], calls) == map[]
    decreases |calls|
  {
    if calls != [] {
      NothingStreamed(calls[1..]);
      assert calls == [calls[0]] + calls[1..];
    }
  }

  // ---- What finalize sends -------------------------------------------------------------------

  /** rawToolCallMatchesParsed. */
  predicate Matches(e: Entry, c: Call) {
    e.name == c.name && (c.id != "" ==> e.id == c.id)
  }

  /** rawToolCallsFromParsedAt: among the first n entries, the ones taken for the calls, each for the
      next call not yet taken care of. */
  function Taken(calls: seq<Call>, entries: seq<Entry>, n: nat): (r: seq<nat>)
    requires n <= |entries|
    ensures |r| <= |calls| && forall j :: 0 <= j < |r| ==> r[j] < n && entries[r[j]].name != ""
  {
    if n == 0 then []
    else
      var r := Taken(calls, entries, n - 1);
      if entries[n - 1].name != "" && |r| < |calls| && Matches(entries[n - 1], calls[|r|]) then r + [n - 1] else r
  }

  /** A whole assembled call in one frame. */
  function Whole(index: int, e: Entry): Frame {
    Frame(index, e.id, if e.kind == "" then "function" else e.kind, Some(map["name" := e.name, "arguments" := e.arguments]))
  }

  /** A client that gets a call whole has it as assembled, of type function if it had none. */
  lemma ReceivedWhole(index: int, e: Entry)
    ensures Received([Whole(index, e)]) == e.(kind := if e.kind == "" then "function" else e.kind)
    ensures Whole(index, e).index == index
  {
    assert [Whole(index, e)][..0] == [];
    assert "" + e.arguments == e.arguments;
  }

  function Wholes(next: int, entries: seq<Entry>, taken: seq<nat>): (r: seq<Frame>)
    requires forall j :: 0 <= j < |taken| ==> taken[j] < |entries|
    ensures |r| == |taken| && forall j :: 0 <= j < |taken| ==> r[j] == Whole(next + j, entries[taken[j]])
  {
    if taken == [] then []
    else
      var last := |taken| - 1;
      Wholes(next, entries, taken[..last]) + [Whole(next + last, entries[taken[last]])]
  }

  /** The entries finalize sends for the given client calls. */
  function Sent(ids: set<string>, counts: map<string, int>, calls: seq<Call>, entries: seq<Entry>): (r: seq<nat>)
    ensures forall j :: 0 <= j < |r| ==> r[j] < |entries| && entries[r[j]].name != ""
  {
    Taken(Unstreamed(ids, counts, calls), entries, |entries|)
  }

  /** The loop of rawToolCallsFromParsedAt, over the entries raw makes its items from. */
  method TakeEntries(calls: seq<Call>, entries: seq<Entry>) returns (taken: seq<nat>)
    ensures taken == Taken(calls, entries, |entries|)
  {
    taken := [];
    for u := 0 to |entries|
      invariant taken == Taken(calls, entries, u)
    {
      if entries[u].name == "" { continue; }
      if |taken| >= |calls| || !Matches(entries[u], calls[|taken|]) { continue; }
      taken := taken + [u];
    }
  }

  // ---- The forwarder and builder objects -------------------------------------------------------

  class DeltaForwarder {
    const owned: set<string>
    var states: map<int, CallState>
    var clientIndex: map<int, int>
    var next: int
    var streamedIDs: set<string>
    var streamedWithoutIDs: map<string, int>
    var emitted: seq<Frame>  // what the emit callback has received

    ghost function State(): Forwarder
      reads this
    {
      Forwarder(states, clientIndex, next, streamedIDs, streamedWithoutIDs)
    }

    constructor (owned: set<string>)
      ensures this.owned == owned && State() == Forwarder(map[], map[], 0, {}, map[]) && emitted == []
    {
      this.owned := owned;
      states, clientIndex, next, streamedIDs, streamedWithoutIDs, emitted := map[], map[], 0, {}, map[], [];
    }

    method ResetIteration()
      modifies this
      ensures State() == Reset(old(State())) && emitted == old(emitted)
    {
      states, clientIndex, streamedWithoutIDs := map[], map[], map[];
    }

    method Send(i: int, d: Delta)
      modifies this
      ensures State() == Forward(old(State()), i, d).0 && emitted == old(emitted) + [Forward(old(State()), i, d).1]
    {
      if i !in clientIndex {
        clientIndex := clientIndex[i := next];
        next := next + 1;
      }
      var frame := Frame(clientIndex[i], "", "", None);
      if d.id != "" {
        frame := frame.(id := d.id);
        streamedIDs := streamedIDs + {d.id};
      }
      if d.kind != "" { frame := frame.(kind := d.kind); }
      if d.fn.Some? && |d.fn.value| > 0 { frame := frame.(fn := d.fn); }
      assert d.fn.Some? ==> (|d.fn.value| > 0 <==> d.fn.value != map[]);
      emitted := emitted + [frame];
    }

    method Ingest(i: int, name: string, d: Delta)
      modifies this
      ensures var (g, frames) := Route(owned, old(State()), i, name, d);
              State() == g && emitted == old(emitted) + frames
    {
      var s := if i in states then states[i] else CallState([], Pending);
      states := states[i := s];
      if s.mode == Live {
        Send(i, d);
        return;
      }
      if s.mode == Drop { return; }
      if name == "" {
        states := states[i := CallState(s.pending + [d], Pending)];
        return;
      }
      if name in owned {
        states := states[i := CallState([], Drop)];
        return;
      }
      states := states[i := CallState([], Live)];
      ghost var f0, e0 := State(), emitted;
      var todo := s.pending + [d];
      for k := 0 to |todo|
        invariant State() == ForwardAll(f0, i, todo[..k]).0 && emitted == e0 + ForwardAll(f0, i, todo[..k]).1
      {
        assert todo[..k + 1][..k] == todo[..k];
        Send(i, todo[k]);
      }
      assert todo[..|todo|] == todo;
    }

    method RecordStreamedWithoutIDs(entries: seq<Entry>)
      modifies this`streamedWithoutIDs
      ensures streamedWithoutIDs == Recorded(old(State()), entries, |entries|)
    {
      for u := 0 to |entries|
        invariant streamedWithoutIDs == Recorded(old(State()), entries, u)
      {
        if u in states && entries[u].id == "" && states[u].mode == Live {
          streamedWithoutIDs := streamedWithoutIDs[entries[u].name := Lookup(streamedWithoutIDs, entries[u].name) + 1];
        }
      }
    }

    method TakeUnstreamed(calls: seq<Call>) returns (out: seq<Call>)
      modifies this`streamedWithoutIDs
      ensures out == Unstreamed(streamedIDs, old(streamedWithoutIDs), calls)
      ensures streamedWithoutIDs == Spent(streamedIDs, old(streamedWithoutIDs), calls)
    {
      if |streamedIDs| == 0 && |streamedWithoutIDs| == 0 {
        assert streamedIDs == {} && streamedWithoutIDs == map[];
        NothingStreamed(calls);
        return calls;
      }
      out := [];
      for k := 0 to |calls|
        invariant Unstreamed(streamedIDs, old(streamedWithoutIDs), calls) ==
                  out + Unstreamed(streamedIDs, streamedWithoutIDs, calls[k..])
        invariant Spent(streamedIDs, old(streamedWithoutIDs), calls) ==
                  Spent(streamedIDs, streamedWithoutIDs, calls[k..])
      {
        var c := calls[k];
        assert calls[k..][0] == c && calls[k..][1..] == calls[k + 1..];
        if c.id != "" && c.id in streamedIDs { continue; }
        if c.id == "" && Lookup(streamedWithoutIDs, c.name) > 0 {
          streamedWithoutIDs := streamedWithoutIDs[c.name := Lookup(streamedWithoutIDs, c.name) - 1];
          continue;
        }
        out := out + [c];
      }
      assert calls[|calls|..] == [];
    }

    /** The part of finalize that sends what was not streamed, whole. */
    method Finalize(clientCalls: seq<Call>, entries: seq<Entry>)
      modifies this
      ensures var sent := Sent(old(streamedIDs), old(streamedWithoutIDs), clientCalls, entries);
              emitted == old(emitted) + Wholes(old(next), entries, sent) && next == old(next) + |sent|
      ensures states == old(states) && clientIndex == old(clientIndex) && streamedIDs == old(streamedIDs)
      ensures streamedWithoutIDs == Spent(old(streamedIDs), old(streamedWithoutIDs), clientCalls)
    {
      ghost var sent := Sent(streamedIDs, streamedWithoutIDs, clientCalls, entries);
      if |clientCalls| == 0 {
        NothingTaken(entries, |entries|);
        assert emitted + [] == emitted;
        return;
      }
      var pending := TakeUnstreamed(clientCalls);
      if |pending| == 0 {
        NothingTaken(entries, |entries|);
        assert emitted + [] == emitted;
        return;
      }
      var taken := TakeEntries(pending, entries);
      emitted := emitted + Wholes(next, entries, taken);
      next := next + |taken|;
    }
  }

  lemma {:induction false} NothingTaken(entries: seq<Entry>, n: nat)
    requires n <= |entries|
    ensures Taken([], entries, n) == []
  {
    if n > 0 { NothingTaken(entries, n - 1); }
  }

  class ToolCallBuilder {
    var entries: seq<Entry>
    const forwarder: DeltaForwarder

    constructor (forwarder: DeltaForwarder)
      ensures entries == [] && this.forwarder == forwarder
    {
      this.forwarder := forwarder;
      entries := [];
    }

    /** ingest: merge each fragment into its entry and let the forwarder see it. */
    method Ingest(raw: seq<Delta>)
      modifies this, forwarder
      ensures var t := IngestAll(forwarder.owned, Turn(old(entries), old(forwarder.State()), old(forwarder.emitted)), raw);
              entries == t.entries && forwarder.State() == t.f && forwarder.emitted == t.frames
    {
      ghost var t0 := Turn(entries, forwarder.State(), forwarder.emitted);
      for k := 0 to |raw|
        invariant Turn(entries, forwarder.State(), forwarder.emitted) == IngestAll(forwarder.owned, t0, raw[..k])
      {
        var d := raw[k];
        assert raw[..k + 1][..k] == raw[..k];
        if d.index < 0 { continue; }
        GrowTo(d.index);
        var entry := Merge(entries[d.index], d);
        entries := entries[d.index := entry];
        forwarder.Ingest(d.index, entry.name, d);
      }
      assert raw[..|raw|] == raw;
    }

    method GrowTo(index: nat)
      modifies this`entries
      ensures entries == Grow(old(entries), index)
    {
      while |entries| <= index
        invariant Grow(entries, index) == Grow(old(entries), index)
        decreases index + 1 - |entries|
      {
        entries := entries + [BLANK];
      }
    }

    method ToolCalls() returns (out: seq<Call>)
      ensures out == Calls(entries)
    {
      out := [];
      for k := 0 to |entries|
        invariant out == Calls(entries[..k])
      {
        assert entries[..k + 1][..k] == entries[..k];
        var e := entries[k];
        if e.name == "" { continue; }
        out := out + [Call(e.id, e.name, e.arguments)];
      }
      assert entries[..|entries|] == entries;
    }
  }

  function IngestAll(owned: set<string>, t: Turn, ds: seq<Delta>): Turn {
    if ds == [] then t else Ingest(owned, IngestAll(owned, t, ds[..|ds| - 1]), ds[|ds| - 1])
  }

  /** A whole iteration is one long ingest from the reset state, whatever the SSE chunks were. */
  lemma {:induction false} IterationIsIngest(owned: set<string>, f: Forwarder, ds: seq<Delta>)
    ensures Iterate(owned, f, ds) == IngestAll(owned, Turn([], Reset(f), []), ds)
  {
    if ds != [] { IterationIsIngest(owned, f, ds[..|ds| - 1]); }
  }
}
