/** Tool-call deltas of a streamed chat turn: assembling them into calls and forwarding the
    client-owned ones live (toolruntime/chat_stream.go, toolruntime/tool_call.go). */
module ToolCallDeltas {
  import opened Seqs

  /** One raw tool_calls fragment; fn is its function object, when present. */
  datatype Delta = Delta(index: int, id: string, kind: string, fn: Option<map<string, string>>)

  /** A fragment as sent to the client, under the client's own index. */
  datatype Frame = Frame(index: int, id: string, kind: string, fn: Option<map<string, string>>)

  datatype Entry = Entry(id: string, kind: string, name: string, arguments: string)
  datatype Mode = Pending | Live | Drop
  datatype CallState = CallState(pending: seq<Delta>, mode: Mode)

  datatype Forwarder = Forwarder(
    states: map<int, CallState>, clientIndex: map<int, int>, next: int,
    streamedIDs: set<string>, streamedWithoutIDs: map<string, int>)

  datatype Call = Call(id: string, name: string, arguments: string)

  function Field(fn: Option<map<string, string>>, key: string): string {
    if fn.Some? && key in fn.value then fn.value[key] else ""
  }

  function NameOf(d: Delta): string { Field(d.fn, "name") }
  function ArgsOf(d: Delta): string { Field(d.fn, "arguments") }

  // ---- Assembling ------------------------------------------------------------------

  const BLANK := Entry("", "", "", "")

  function Merge(e: Entry, d: Delta): Entry {
    Entry(if d.id != "" then d.id else e.id, if d.kind != "" then d.kind else e.kind,
          if NameOf(d) != "" then NameOf(d) else e.name, e.arguments + ArgsOf(d))
  }

  function Grow(entries: seq<Entry>, index: nat): (r: seq<Entry>)
    ensures |r| == if |entries| <= index then index + 1 else |entries|
    ensures forall i :: 0 <= i < |r| ==> r[i] == if i < |entries| then entries[i] else BLANK
    decreases index + 1 - |entries|
  {
    if |entries| <= index then Grow(entries + [BLANK], index) else entries
  }

  // ---- Forwarding --------------------------------------------------------------------

  function ToFrame(index: int, d: Delta): Frame {
    Frame(index, d.id, d.kind, if d.fn.Some? && d.fn.value != map[] then d.fn else None)
  }

  /** clientIndex: the next free index on first use. */
  function Assign(f: Forwarder, i: int): Forwarder {
    if i in f.clientIndex then f else f.(clientIndex := f.clientIndex[i := f.next], next := f.next + 1)
  }

  function Forward(f: Forwarder, i: int, d: Delta): (Forwarder, Frame) {
    var g := Assign(f, i);
    (if d.id != "" then g.(streamedIDs := g.streamedIDs + {d.id}) else g, ToFrame(g.clientIndex[i], d))
  }

  function ForwardAll(f: Forwarder, i: int, ds: seq<Delta>): (Forwarder, seq<Frame>) {
    if ds == [] then (f, [])
    else
      var (g, frames) := ForwardAll(f, i, ds[..|ds| - 1]);
      var (h, frame) := Forward(g, i, ds[|ds| - 1]);
      (h, frames + [frame])
  }

  function StateOf(f: Forwarder, i: int): CallState {
    if i in f.states then f.states[i] else CallState([], Pending)
  }

  /** The forwarder's ingest: pass on, drop, or hold until the name says whose call it is. */
  function Route(owned: set<string>, f: Forwarder, i: int, name: string, d: Delta): (Forwarder, seq<Frame>) {
    var s := StateOf(f, i);
    var f0 := f.(states := f.states[i := s]);
    match s.mode
    case Live =>
      var (g, frame) := Forward(f0, i, d);
      (g, [frame])
    case Drop => (f0, [])
    case Pending =>
      if name == "" then (f0.(states := f0.states[i := CallState(s.pending + [d], Pending)]), [])
      else if name in owned then (f0.(states := f0.states[i := CallState([], Drop)]), [])
      else ForwardAll(f0.(states := f0.states[i := CallState([], Live)]), i, s.pending + [d])
  }

  // ---- One iteration ---------------------------------------------------------------------

  datatype Turn = Turn(entries: seq<Entry>, f: Forwarder, frames: seq<Frame>)

  function Ingest(owned: set<string>, t: Turn, d: Delta): Turn {
    if d.index < 0 then t
    else
      var grown := Grow(t.entries, d.index);
      var entry := Merge(grown[d.index], d);
      var (g, frames) := Route(owned, t.f, d.index, entry.name, d);
      Turn(grown[d.index := entry], g, t.frames + frames)
  }

  function Reset(f: Forwarder): Forwarder {
    f.(states := map[], clientIndex := map[], streamedWithoutIDs := map[])
  }

  function Iterate(owned: set<string>, f: Forwarder, ds: seq<Delta>): Turn {
    if ds == [] then Turn([], Reset(f), []) else Ingest(owned, Iterate(owned, f, ds[..|ds| - 1]), ds[|ds| - 1])
  }

  // ---- What one call's deltas add up to ----------------------------------------------------

  /** The deltas of call i, in order. */
  function Of(ds: seq<Delta>, i: int): seq<Delta> {
    if ds == [] then []
    else Of(ds[..|ds| - 1], i) + (if ds[|ds| - 1].index == i then [ds[|ds| - 1]] else [])
  }

  function Assemble(ds: seq<Delta>): Entry {
    if ds == [] then BLANK else Merge(Assemble(ds[..|ds| - 1]), ds[|ds| - 1])
  }

  /** The first name the call was given, which decides who owns it. */
  function FirstName(ds: seq<Delta>): string {
    if ds == [] then ""
    else
      var before := FirstName(ds[..|ds| - 1]);
      if before != "" then before else NameOf(ds[|ds| - 1])
  }

  function ToFrames(index: int, ds: seq<Delta>): seq<Frame> {
    if ds == [] then [] else ToFrames(index, ds[..|ds| - 1]) + [ToFrame(index, ds[|ds| - 1])]
  }

  /** The frames sent under one client index, in order. */
  function Under(frames: seq<Frame>, index: int): seq<Frame> {
    if frames == [] then []
    else Under(frames[..|frames| - 1], index) +
         (if frames[|frames| - 1].index == index then [frames[|frames| - 1]] else [])
  }

  function ArgsSent(frames: seq<Frame>): string {
    if frames == [] then "" else ArgsSent(frames[..|frames| - 1]) + Field(frames[|frames| - 1].fn, "arguments")
  }

  /** What a client makes of the frames of one call: an id, a type or a name replaces the one before,
      argument text is appended. */
  function Received(frames: seq<Frame>): Entry {
    if frames == [] then Entry("", "", "", "")
    else
      var before, fr := Received(frames[..|frames| - 1]), frames[|frames| - 1];
      var fn := if fr.fn.Some? then fr.fn.value else map[];
      Entry(
        if fr.id == "" then before.id else fr.id,
        if fr.kind == "" then before.kind else fr.kind,
        if "name" !in fn || fn["name"] == "" then before.name else fn["name"],
        if "arguments" !in fn then before.arguments else before.arguments + fn["arguments"])
  }

  // ---- Lemmas about the projections -----------------------------------------------------------

  /** The deltas of a call are those with its index, in stream order, and so for frames. */
  lemma {:induction false} OfIsFilter(ds: seq<Delta>, i: int)
    ensures Of(ds, i) == Filter((d: Delta) => d.index == i, ds)
  {
    if ds != [] {
      var init, d := ds[..|ds| - 1], ds[|ds| - 1];
      OfIsFilter(init, i);
      assert ds == init + [d];
      FilterAppend((d: Delta) => d.index == i, init, [d]);
    }
  }

  lemma {:induction false} UnderIsFilter(frames: seq<Frame>, index: int)
    ensures Under(frames, index) == Filter((fr: Frame) => fr.index == index, frames)
  {
    if frames != [] {
      var init, fr := frames[..|frames| - 1], frames[|frames| - 1];
      UnderIsFilter(init, index);
      assert frames == init + [fr];
      FilterAppend((fr: Frame) => fr.index == index, init, [fr]);
    }
  }

  lemma OfAppend(ds: seq<Delta>, d: Delta, i: int)
    ensures Of(ds + [d], i) == if d.index == i then Of(ds, i) + [d] else Of(ds, i)
  {
    assert (ds + [d])[..|ds|] == ds;
    assert Of(ds, i) + [] == Of(ds, i);
  }

  lemma AppendStep(ds: seq<Delta>, d: Delta, index: int)
    ensures Assemble(ds + [d]) == Merge(Assemble(ds), d)
    ensures FirstName(ds + [d]) == if FirstName(ds) != "" then FirstName(ds) else NameOf(d)
    ensures ToFrames(index, ds + [d]) == ToFrames(index, ds) + [ToFrame(index, d)]
  {
    assert (ds + [d])[..|ds|] == ds;
  }

  lemma {:induction false} UnderAppend(a: seq<Frame>, b: seq<Frame>, index: int)
    ensures Under(a + b, index) == Under(a, index) + Under(b, index)
    decreases |b|
  {
    if b == [] {
      assert a + b == a;
    } else {
      var last := |b| - 1;
      UnderAppend(a, b[..last], index);
      assert (a + b)[..|a + b| - 1] == a + b[..last] && (a + b)[|a + b| - 1] == b[last];
      var more := if b[last].index == index then [b[last]] else [];
      assert Under(a, index) + (Under(b[..last], index) + more) == (Under(a, index) + Under(b[..last], index)) + more;
    }
  }

  lemma {:induction false} UnderToFrames(ci: int, ds: seq<Delta>, index: int)
    ensures Under(ToFrames(ci, ds), index) == if ci == index then ToFrames(ci, ds) else []
    ensures forall fr :: fr in ToFrames(ci, ds) ==> fr.index == ci
  {
    if ds != [] {
      UnderToFrames(ci, ds[..|ds| - 1], index);
      var init := ToFrames(ci, ds[..|ds| - 1]);
      assert (init + [ToFrame(ci, ds[|ds| - 1])])[..|init|] == init;
    }
  }

  /** A call that has a name was first named, and its latest name is set. */
  lemma {:induction false} NamedIffFirstNamed(ds: seq<Delta>)
    ensures FirstName(ds) == "" <==> Assemble(ds).name == ""
  {
    if ds != [] { NamedIffFirstNamed(ds[..|ds| - 1]); }
  }

  /** The frames of a call carry exactly its assembled arguments. */
  lemma {:induction false} ArgsConserved(index: int, ds: seq<Delta>)
    ensures ArgsSent(ToFrames(index, ds)) == Assemble(ds).arguments
  {
    if ds != [] {
      var init, d := ds[..|ds| - 1], ds[|ds| - 1];
      ArgsConserved(index, init);
      var frames := ToFrames(index, init);
      assert (frames + [ToFrame(index, d)])[..|frames|] == frames;
      assert Field(ToFrame(index, d).fn, "arguments") == ArgsOf(d);
    }
  }

  /** A client that gets a call's frames ends up with the call as it was assembled. */
  lemma {:induction false} ReceivedIsAssembled(index: int, ds: seq<Delta>)
    ensures Received(ToFrames(index, ds)) == Assemble(ds)
  {
    if ds != [] {
      var init, d := ds[..|ds| - 1], ds[|ds| - 1];
      ReceivedIsAssembled(index, init);
      var frames := ToFrames(index, init);
      assert (frames + [ToFrame(index, d)])[..|frames|] == frames;
      assert Assemble(init).arguments + "" == Assemble(init).arguments;
    }
  }

  /** ForwardAll sends every delta once, in order, under one index, and records the ids. */
  lemma {:induction false} ForwardAllSends(f: Forwarder, i: int, ds: seq<Delta>)
    requires ds != []
    ensures var (g, frames) := ForwardAll(f, i, ds);
            var a := Assign(f, i);
            frames == ToFrames(a.clientIndex[i], ds) &&
            g.states == f.states && g.clientIndex == a.clientIndex && g.next == a.next &&
            g.streamedWithoutIDs == f.streamedWithoutIDs && f.streamedIDs <= g.streamedIDs &&
            forall d :: d in ds && d.id != "" ==> d.id in g.streamedIDs
  {
    var init, d := ds[..|ds| - 1], ds[|ds| - 1];
    assert ds == init + [d];
    if init != [] { ForwardAllSends(f, i, init); }
  }
}
