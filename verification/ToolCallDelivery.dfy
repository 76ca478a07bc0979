/** Live delivery: every delta of a call first named by a client tool reaches the client once and in
    order, no delta of any other call does (toolruntime/chat_stream.go). */
module ToolCallDelivery {
  import opened ToolCallDeltas

  // ---- The invariant of one iteration ------------------------------------------------

  /** Routing state of a call whose deltas so far are ds. */
  ghost predicate Routed(owned: set<string>, f: Forwarder, frames: seq<Frame>, i: int, ds: seq<Delta>) {
    var n := FirstName(ds);
    if n == "" then StateOf(f, i) == CallState(ds, Pending) && i !in f.clientIndex
    else if n in owned then StateOf(f, i) == CallState([], Drop) && i !in f.clientIndex
    else
      StateOf(f, i) == CallState([], Live) && i in f.clientIndex &&
      Under(frames, f.clientIndex[i]) == ToFrames(f.clientIndex[i], ds) &&
      forall d :: d in ds && d.id != "" ==> d.id in f.streamedIDs
  }

  ghost predicate Built(entries: seq<Entry>, i: nat, ds: seq<Delta>) {
    if i < |entries| then entries[i] == Assemble(ds) else ds == []
  }

  ghost predicate Uses(f: Forwarder, c: int) {
    exists i :: i in f.clientIndex && f.clientIndex[i] == c
  }

  /** Client indices are base, base + 1, ... without gap or reuse, and every frame carries one. */
  ghost predicate Indexed(f: Forwarder, frames: seq<Frame>, base: int) {
    base <= f.next &&
    (forall i :: i in f.clientIndex ==> base <= f.clientIndex[i] < f.next) &&
    (forall i, j :: i in f.clientIndex && j in f.clientIndex && i != j ==> f.clientIndex[i] != f.clientIndex[j]) &&
    (forall c :: base <= c < f.next ==> Uses(f, c)) &&
    (forall fr :: fr in frames ==> base <= fr.index < f.next)
  }

  ghost predicate TurnOk(owned: set<string>, t: Turn, ds: seq<Delta>, base: int) {
    Indexed(t.f, t.frames, base) &&
    forall i: nat :: Built(t.entries, i, Of(ds, i)) && Routed(owned, t.f, t.frames, i, Of(ds, i))
  }

  // ---- One delta -----------------------------------------------------------------------

  lemma {:induction false} UnderFree(frames: seq<Frame>, c: int)
    requires forall fr :: fr in frames ==> fr.index != c
    ensures Under(frames, c) == []
  {
    if frames != [] { UnderFree(frames[..|frames| - 1], c); }
  }

  lemma AssignIndexed(f: Forwarder, frames: seq<Frame>, base: int, i: int)
    requires Indexed(f, frames, base)
    ensures Indexed(Assign(f, i), frames, base)
  {
    if i !in f.clientIndex {
      var g := Assign(f, i);
      forall c | base <= c < g.next ensures Uses(g, c) {
        if c == f.next {
          assert g.clientIndex[i] == c;
        } else {
          assert Uses(f, c);
          var j :| j in f.clientIndex && f.clientIndex[j] == c;
          assert g.clientIndex[j] == c;
        }
      }
    }
  }

  /** What routing one delta sends: a tail of the call's deltas, all of them if this one named it. */
  lemma RouteSends(owned: set<string>, f: Forwarder, frames: seq<Frame>, i: int, ds: seq<Delta>, d: Delta, name: string)
    requires Routed(owned, f, frames, i, ds) && name == Assemble(ds + [d]).name
    ensures var n := FirstName(ds + [d]);
            var (g, more) := Route(owned, f, i, name, d);
            g.streamedWithoutIDs == f.streamedWithoutIDs && f.streamedIDs <= g.streamedIDs &&
            (forall j :: j != i ==> StateOf(g, j) == StateOf(f, j)) &&
            if n == "" then
              more == [] && g.clientIndex == f.clientIndex && g.next == f.next && StateOf(g, i) == CallState(ds + [d], Pending)
            else if n in owned then
              more == [] && g.clientIndex == f.clientIndex && g.next == f.next && StateOf(g, i) == CallState([], Drop)
            else
              var a := Assign(f, i);
              g.clientIndex == a.clientIndex && g.next == a.next && StateOf(g, i) == CallState([], Live) &&
              more == ToFrames(a.clientIndex[i], if FirstName(ds) == "" then ds + [d] else [d]) &&
              (forall x :: x in ds + [d] && x.id != "" ==> x.id in g.streamedIDs)
  {
    hide Under, ForwardAll;
    AppendStep(ds, d, 0);
    NamedIffFirstNamed(ds);
    if FirstName(ds) == "" && name != "" && name !in owned {
      var f1 := f.(states := f.states[i := CallState(ds, Pending)][i := CallState([], Live)]);
      assert f1.states == f.(states := f.states[i := StateOf(f, i)]).states[i := CallState([], Live)];
      ForwardAllSends(f1, i, ds + [d]);
    } else if FirstName(ds) != "" && FirstName(ds) !in owned {
      var ci := f.clientIndex[i];
      assert [d][..0] == [] && ToFrames(ci, [d]) == [] + [ToFrame(ci, d)];
    }
  }

  lemma RoutedSame(owned: set<string>, f: Forwarder, g: Forwarder, frames: seq<Frame>, more: seq<Frame>, j: int,
                   ds: seq<Delta>)
    requires Routed(owned, f, frames, j, ds) && StateOf(g, j) == StateOf(f, j) && f.streamedIDs <= g.streamedIDs
    requires j in g.clientIndex <==> j in f.clientIndex
    requires j in g.clientIndex ==> g.clientIndex[j] == f.clientIndex[j] && Under(more, g.clientIndex[j]) == []
    ensures Routed(owned, g, frames + more, j, ds)
  {
    if j in g.clientIndex {
      UnderAppend(frames, more, g.clientIndex[j]);
    }
  }

  /** The call the delta belongs to. */
  lemma RouteOwn(owned: set<string>, f: Forwarder, frames: seq<Frame>, i: int, ds: seq<Delta>, d: Delta, name: string,
                 base: int)
    requires Routed(owned, f, frames, i, ds) && name == Assemble(ds + [d]).name && Indexed(f, frames, base)
    ensures var (g, more) := Route(owned, f, i, name, d); Routed(owned, g, frames + more, i, ds + [d])
  {
    hide Route, Assemble;
    RouteSends(owned, f, frames, i, ds, d, name);
    var (g, more) := Route(owned, f, i, name, d);
    var n := FirstName(ds + [d]);
    if n != "" && n !in owned {
      AppendStep(ds, d, g.clientIndex[i]);
      var ci := g.clientIndex[i];
      UnderAppend(frames, more, ci);
      if FirstName(ds) == "" {
        UnderFree(frames, ci);
        UnderToFrames(ci, ds + [d], ci);
        assert [] + ToFrames(ci, ds + [d]) == ToFrames(ci, ds + [d]);
      } else {
        UnderToFrames(ci, [d], ci);
        assert [d][..0] == [] && ToFrames(ci, [d]) == [] + [ToFrame(ci, d)];
      }
    }
  }

  /** Every other call. */
  lemma RouteOther(owned: set<string>, f: Forwarder, frames: seq<Frame>, i: int, ds: seq<Delta>, d: Delta, name: string,
                   base: int, j: int, other: seq<Delta>)
    requires Routed(owned, f, frames, i, ds) && name == Assemble(ds + [d]).name && Indexed(f, frames, base)
    requires j != i && Routed(owned, f, frames, j, other)
    ensures var (g, more) := Route(owned, f, i, name, d); Routed(owned, g, frames + more, j, other)
  {
    hide Route, Assemble;
    RouteSends(owned, f, frames, i, ds, d, name);
    var (g, more) := Route(owned, f, i, name, d);
    if j in g.clientIndex {
      var sent := if FirstName(ds) == "" then ds + [d] else [d];
      if more != [] { UnderToFrames(g.clientIndex[i], sent, g.clientIndex[j]); }
    }
    RoutedSame(owned, f, g, frames, more, j, other);
  }

  lemma RouteIndexed(owned: set<string>, f: Forwarder, frames: seq<Frame>, i: int, ds: seq<Delta>, d: Delta, name: string,
                     base: int)
    requires Routed(owned, f, frames, i, ds) && name == Assemble(ds + [d]).name && Indexed(f, frames, base)
    ensures var (g, more) := Route(owned, f, i, name, d); Indexed(g, frames + more, base)
  {
    hide Route, Assemble;
    RouteSends(owned, f, frames, i, ds, d, name);
    var (g, more) := Route(owned, f, i, name, d);
    var n := FirstName(ds + [d]);
    if n != "" && n !in owned {
      UnderToFrames(g.clientIndex[i], if FirstName(ds) == "" then ds + [d] else [d], 0);
      AssignIndexed(f, frames, base, i);
      IndexedSame(Assign(f, i), g, frames, more, base);
    } else {
      IndexedSame(f, g, frames, more, base);
    }
  }

  lemma IndexedSame(f: Forwarder, g: Forwarder, frames: seq<Frame>, more: seq<Frame>, base: int)
    requires Indexed(f, frames, base) && g.clientIndex == f.clientIndex && g.next == f.next
    requires forall fr :: fr in more ==> exists i :: i in f.clientIndex && fr.index == f.clientIndex[i]
    ensures Indexed(g, frames + more, base)
  {
    forall c | base <= c < g.next ensures Uses(g, c) {
      assert Uses(f, c);
    }
  }

  lemma BuiltNext(entries: seq<Entry>, i: nat, mine: seq<Delta>, d: Delta, j: nat, theirs: seq<Delta>)
    requires Built(entries, i, mine) && Built(entries, j, theirs) && (i == j ==> mine == theirs)
    ensures Grow(entries, i)[i] == Assemble(mine)
    ensures Built(Grow(entries, i)[i := Assemble(mine + [d])], j, if i == j then mine + [d] else theirs)
  {}

  lemma IngestOther(owned: set<string>, t: Turn, ds: seq<Delta>, d: Delta, base: int, j: nat)
    requires TurnOk(owned, t, ds, base) && d.index >= 0
    ensures var t' := Ingest(owned, t, d);
            Built(t'.entries, j, Of(ds + [d], j)) && Routed(owned, t'.f, t'.frames, j, Of(ds + [d], j))
  {
    hide Route, Indexed, Routed, Built, Assemble, Grow;
    var i: nat := d.index;
    var mine := Of(ds, i);
    assert Built(t.entries, i, mine) && Routed(owned, t.f, t.frames, i, mine);
    assert Built(t.entries, j, Of(ds, j)) && Routed(owned, t.f, t.frames, j, Of(ds, j));
    OfAppend(ds, d, j);
    BuiltNext(t.entries, i, mine, d, j, Of(ds, j));
    AppendStep(mine, d, 0);
    var name := Assemble(mine + [d]).name;
    if j == i {
      RouteOwn(owned, t.f, t.frames, i, mine, d, name, base);
    } else {
      RouteOther(owned, t.f, t.frames, i, mine, d, name, base, j, Of(ds, j));
    }
  }

  lemma IngestOk(owned: set<string>, t: Turn, ds: seq<Delta>, d: Delta, base: int)
    requires TurnOk(owned, t, ds, base)
    ensures TurnOk(owned, Ingest(owned, t, d), ds + [d], base)
  {
    hide Route, Indexed, Routed, Built, Assemble, Grow;
    var t' := Ingest(owned, t, d);
    if d.index < 0 {
      forall j: nat ensures Built(t.entries, j, Of(ds + [d], j)) && Routed(owned, t.f, t.frames, j, Of(ds + [d], j)) {
        OfAppend(ds, d, j);
        assert Built(t.entries, j, Of(ds, j)) && Routed(owned, t.f, t.frames, j, Of(ds, j));
      }
    } else {
      var mine := Of(ds, d.index);
      assert Built(t.entries, d.index, mine) && Routed(owned, t.f, t.frames, d.index, mine);
      BuiltNext(t.entries, d.index, mine, d, d.index, mine);
      AppendStep(mine, d, 0);
      RouteIndexed(owned, t.f, t.frames, d.index, mine, d, Assemble(mine + [d]).name, base);
      forall j: nat
        ensures Built(t'.entries, j, Of(ds + [d], j)) && Routed(owned, t'.f, t'.frames, j, Of(ds + [d], j))
      {
        IngestOther(owned, t, ds, d, base, j);
      }
    }
  }

  /** The invariant holds after any stream of deltas. */
  lemma {:induction false} IterateOk(owned: set<string>, f: Forwarder, ds: seq<Delta>)
    ensures TurnOk(owned, Iterate(owned, f, ds), ds, f.next)
    ensures f.streamedIDs <= Iterate(owned, f, ds).f.streamedIDs
    ensures Iterate(owned, f, ds).f.streamedWithoutIDs == map[]
  {
    if ds != [] {
      var init, d := ds[..|ds| - 1], ds[|ds| - 1];
      IterateOk(owned, f, init);
      var t := Iterate(owned, f, init);
      IngestOk(owned, t, init, d, f.next);
      assert init + [d] == ds;
      if d.index >= 0 {
        var mine := Of(init, d.index);
        assert Built(t.entries, d.index, mine) && Routed(owned, t.f, t.frames, d.index, mine);
        AppendStep(mine, d, 0);
        RouteSends(owned, t.f, t.frames, d.index, mine, d, Assemble(mine + [d]).name);
      }
    }
  }

  // ---- What is sent live ------------------------------------------------------------------

  /** The first name the call was given is a client tool's. */
  predicate LiveCall(owned: set<string>, ds: seq<Delta>, i: int) {
    FirstName(Of(ds, i)) != "" && FirstName(Of(ds, i)) !in owned
  }

  /** A call has an index of its own, with all its deltas sent under it once and in order so that the
      client receives it as assembled, if and only if its first name is a client tool's; any other
      call has no index and so no frame. */
  lemma LiveExactly(owned: set<string>, f: Forwarder, ds: seq<Delta>, i: nat)
    ensures var t := Iterate(owned, f, ds);
            (i in t.f.clientIndex <==> LiveCall(owned, ds, i)) &&
            (i in t.f.clientIndex ==>
              var sent := Under(t.frames, t.f.clientIndex[i]);
              sent == ToFrames(t.f.clientIndex[i], Of(ds, i)) && |sent| == |Of(ds, i)| &&
              Received(sent) == Assemble(Of(ds, i)) && ArgsSent(sent) == Assemble(Of(ds, i)).arguments)
  {
    IterateOk(owned, f, ds);
    var t := Iterate(owned, f, ds);
    assert Routed(owned, t.f, t.frames, i, Of(ds, i));
    if i in t.f.clientIndex {
      ArgsConserved(t.f.clientIndex[i], Of(ds, i));
      ReceivedIsAssembled(t.f.clientIndex[i], Of(ds, i));
      FramesPerDelta(t.f.clientIndex[i], Of(ds, i));
    }
  }

  lemma {:induction false} FramesPerDelta(index: int, ds: seq<Delta>)
    ensures |ToFrames(index, ds)| == |ds|
  {
    if ds != [] { FramesPerDelta(index, ds[..|ds| - 1]); }
  }

  ghost predicate Carries(ds: seq<Delta>, id: string) {
    id != "" && exists d :: d in ds && d.id == id
  }

  /** Some live call carries the id. */
  ghost predicate SentLive(owned: set<string>, ds: seq<Delta>, id: string) {
    exists i: nat :: LiveCall(owned, ds, i) && Carries(Of(ds, i), id)
  }

  lemma {:induction false} ForwardAllIDs(f: Forwarder, i: int, ds: seq<Delta>, id: string)
    ensures id in ForwardAll(f, i, ds).0.streamedIDs <==> id in f.streamedIDs || Carries(ds, id)
  {
    if ds != [] {
      var init, d := ds[..|ds| - 1], ds[|ds| - 1];
      ForwardAllIDs(f, i, init, id);
      CarriesAppend(init, d, id);
      assert ds == init + [d];
    }
  }

  lemma CarriesAppend(ds: seq<Delta>, d: Delta, id: string)
    ensures Carries(ds + [d], id) <==> Carries(ds, id) || (id != "" && d.id == id)
  {
    assert d in ds + [d] && forall x :: x in ds ==> x in ds + [d];
  }

  lemma RouteIDs(owned: set<string>, f: Forwarder, frames: seq<Frame>, i: int, ds: seq<Delta>, d: Delta, id: string)
    requires Routed(owned, f, frames, i, ds)
    ensures var n := FirstName(ds + [d]);
            id in Route(owned, f, i, Assemble(ds + [d]).name, d).0.streamedIDs <==>
            id in f.streamedIDs || (n != "" && n !in owned && Carries(ds + [d], id))
  {
    hide Under, ForwardAll;
    AppendStep(ds, d, 0);
    NamedIffFirstNamed(ds);
    CarriesAppend(ds, d, id);
    var f1 := f.(states := f.states[i := StateOf(f, i)]);
    ForwardAllIDs(f1.(states := f1.states[i := CallState([], Live)]), i, ds + [d], id);
  }

  /** The ids on record are those of earlier iterations and those live calls carried. */
  lemma {:induction false} StreamedExactly(owned: set<string>, f: Forwarder, ds: seq<Delta>, id: string)
    ensures id in Iterate(owned, f, ds).f.streamedIDs <==> id in f.streamedIDs || SentLive(owned, ds, id)
  {
    if ds == [] {
      assert !SentLive(owned, ds, id);
    } else {
      var init, d := ds[..|ds| - 1], ds[|ds| - 1];
      assert ds == init + [d];
      StreamedExactly(owned, f, init, id);
      IterateOk(owned, f, init);
      var t := Iterate(owned, f, init);
      SentLiveStep(owned, init, d, id);
      if d.index >= 0 {
        var mine := Of(init, d.index);
        assert Built(t.entries, d.index, mine) && Routed(owned, t.f, t.frames, d.index, mine);
        BuiltNext(t.entries, d.index, mine, d, d.index, mine);
        AppendStep(mine, d, 0);
        RouteIDs(owned, t.f, t.frames, d.index, mine, d, id);
      }
    }
  }

  lemma SentLiveStep(owned: set<string>, ds: seq<Delta>, d: Delta, id: string)
    ensures d.index < 0 ==> (SentLive(owned, ds + [d], id) <==> SentLive(owned, ds, id))
    ensures d.index >= 0 ==>
      var mine := Of(ds, d.index) + [d];
      (SentLive(owned, ds + [d], id) <==>
       SentLive(owned, ds, id) || (FirstName(mine) != "" && FirstName(mine) !in owned && Carries(mine, id)))
  {
    hide FirstName, Carries, Of;
    forall j: nat ensures Of(ds + [d], j) == if d.index == j then Of(ds, j) + [d] else Of(ds, j) {
      OfAppend(ds, d, j);
    }
    if SentLive(owned, ds, id) {
      var i: nat :| LiveCall(owned, ds, i) && Carries(Of(ds, i), id);
      AppendStep(Of(ds, i), d, 0);
      CarriesAppend(Of(ds, i), d, id);
      assert LiveCall(owned, ds + [d], i) && Carries(Of(ds + [d], i), id);
    }
    if SentLive(owned, ds + [d], id) {
      var i: nat :| LiveCall(owned, ds + [d], i) && Carries(Of(ds + [d], i), id);
      assert i != d.index ==> LiveCall(owned, ds, i) && Carries(Of(ds, i), id);
    }
    if d.index >= 0 {
      var i: nat := d.index;
      var mine := Of(ds, i) + [d];
      assert FirstName(mine) != "" && FirstName(mine) !in owned ==> LiveCall(owned, ds + [d], i);
    }
  }

  /** Frames go out only under the indices of client-routed calls, 0, 1, 2, ... from where the
      previous iteration stopped. */
  lemma IndicesAreFresh(owned: set<string>, f: Forwarder, ds: seq<Delta>)
    ensures Indexed(Iterate(owned, f, ds).f, Iterate(owned, f, ds).frames, f.next)
  {
    IterateOk(owned, f, ds);
  }

  /** All iterations of one client stream. */
  function RunTurns(owned: set<string>, f: Forwarder, turns: seq<seq<Delta>>): (Forwarder, seq<seq<Frame>>)
    decreases |turns|
  {
    if turns == [] then (f, [])
    else
      var (g, sent) := RunTurns(owned, f, turns[..|turns| - 1]);
      var t := Iterate(owned, g, turns[|turns| - 1]);
      (t.f, sent + [t.frames])
  }

  lemma {:induction false} TurnsStayBelow(owned: set<string>, f: Forwarder, turns: seq<seq<Delta>>)
    ensures var (g, sent) := RunTurns(owned, f, turns);
            |sent| == |turns| && f.next <= g.next &&
            forall a, fr :: 0 <= a < |sent| && fr in sent[a] ==> f.next <= fr.index < g.next
    decreases |turns|
  {
    if turns != [] {
      var before := turns[..|turns| - 1];
      TurnsStayBelow(owned, f, before);
      var (g, sent) := RunTurns(owned, f, before);
      IndicesAreFresh(owned, g, turns[|turns| - 1]);
    }
  }

  /** No client index is used in two iterations. */
  lemma {:induction false} IndicesNeverReused(owned: set<string>, f: Forwarder, turns: seq<seq<Delta>>, a: nat, b: nat)
    requires a < b < |turns|
    ensures var sent := RunTurns(owned, f, turns).1;
            |sent| == |turns| && forall x, y :: x in sent[a] && y in sent[b] ==> x.index < y.index
    decreases |turns|
  {
    TurnsStayBelow(owned, f, turns);
    var last := |turns| - 1;
    var before := turns[..last];
    TurnsStayBelow(owned, f, before);
    var (g, sent) := RunTurns(owned, f, before);
    if b < last {
      IndicesNeverReused(owned, f, before, a, b);
    } else {
      IndicesAreFresh(owned, g, turns[last]);
    }
  }
}
