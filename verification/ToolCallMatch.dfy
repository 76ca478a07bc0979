/** What finalize makes of a finished turn: which client calls unstreamed keeps, and which entries
    are then sent for them (toolruntime/chat_stream.go). */
module ToolCallMatch {
  import opened Seqs
  import opened ToolCallDeltas
  import opened ToolCallFinish

  /** An assembled call, and whether its deltas were forwarded live. */
  datatype Shown = Shown(entry: Entry, live: bool)

  function Entries(s: seq<Shown>): (r: seq<Entry>)
    ensures |r| == |s| && forall u :: 0 <= u < |s| ==> r[u] == s[u].entry
  {
    seq(|s|, u requires 0 <= u < |s| => s[u].entry)
  }

  function CallOf(x: Shown): Call { Call(x.entry.id, x.entry.name, x.entry.arguments) }

  predicate Client(owned: set<string>, x: Shown) { x.entry.name != "" && x.entry.name !in owned }

  /** A client-owned call none of whose deltas was forwarded: a router tool was its first name. */
  predicate Missed(owned: set<string>, x: Shown) { Client(owned, x) && !x.live }

  /** A router-owned call whose deltas were forwarded: a client tool was its first name. */
  predicate Leaked(owned: set<string>, x: Shown) { x.live && x.entry.name != "" && x.entry.name in owned }

  predicate Unnumbered(owned: set<string>, x: Shown, name: string) {
    Client(owned, x) && x.entry.id == "" && x.entry.name == name
  }

  // ---- Which calls unstreamed keeps ----------------------------------------------------

  /** How many of the first n calls are client calls of that name without an id. */
  function Before(owned: set<string>, s: seq<Shown>, n: nat, name: string): nat {
    |Positions((u: nat) => u < |s| && Unnumbered(owned, s[u], name), n)|
  }

  /** How many of the first n of them were forwarded live. */
  function LiveBefore(owned: set<string>, s: seq<Shown>, n: nat, name: string): nat {
    |Positions((u: nat) => u < |s| && Unnumbered(owned, s[u], name) && s[u].live, n)|
  }

  /** A call with an id is kept unless the id was streamed; one without is kept unless as many of
      its name came before it as were streamed in all. */
  predicate Keeps(owned: set<string>, ids: set<string>, s: seq<Shown>, u: nat) {
    u < |s| && Client(owned, s[u]) &&
    if s[u].entry.id != "" then s[u].entry.id !in ids
    else LiveBefore(owned, s, |s|, s[u].entry.name) <= Before(owned, s, u, s[u].entry.name)
  }

  function Kept(owned: set<string>, ids: set<string>, s: seq<Shown>, n: nat): seq<nat> {
    Positions((u: nat) => Keeps(owned, ids, s, u), n)
  }

  function AllMissed(owned: set<string>, s: seq<Shown>): seq<nat> {
    Positions((u: nat) => u < |s| && Missed(owned, s[u]), |s|)
  }

  function CallsAt(s: seq<Shown>, at: seq<nat>): (r: seq<Call>)
    requires forall j :: 0 <= j < |at| ==> at[j] < |s|
    ensures |r| == |at| && forall j :: 0 <= j < |at| ==> r[j] == CallOf(s[at[j]])
  {
    seq(|at|, j requires 0 <= j < |at| => CallOf(s[at[j]]))
  }

  predicate Skips(ids: set<string>, counts: map<string, int>, c: Call) {
    if c.id != "" then c.id in ids else Lookup(counts, c.name) > 0
  }

  lemma {:induction false} UnstreamedAppend(ids: set<string>, counts: map<string, int>, calls: seq<Call>, c: Call)
    ensures Unstreamed(ids, counts, calls + [c]) ==
            Unstreamed(ids, counts, calls) + (if Skips(ids, Spent(ids, counts, calls), c) then [] else [c])
    ensures forall name ::
      Lookup(Spent(ids, counts, calls + [c]), name) ==
      Lookup(Spent(ids, counts, calls), name) -
      (if c.id == "" && name == c.name && Lookup(Spent(ids, counts, calls), name) > 0 then 1 else 0)
    decreases |calls|
  {
    if calls == [] {
      assert calls + [c] == [c] && [c][1..] == [];
    } else {
      var d := calls[0];
      assert (calls + [c])[1..] == calls[1..] + [c];
      var counts' := if d.id == "" && Lookup(counts, d.name) > 0 then counts[d.name := Lookup(counts, d.name) - 1] else counts;
      UnstreamedAppend(ids, counts', calls[1..], c);
    }
  }

  /** The client calls among the first n. */
  function ClientsOf(owned: set<string>, s: seq<Shown>, n: nat): seq<Call>
    requires n <= |s|
  {
    ClientCalls(owned, Calls(Entries(s)[..n]))
  }

  lemma ClientsStep(owned: set<string>, s: seq<Shown>, n: nat)
    requires n < |s|
    ensures ClientsOf(owned, s, n + 1) == ClientsOf(owned, s, n) + (if Client(owned, s[n]) then [CallOf(s[n])] else [])
  {
    var es := Entries(s);
    assert es[..n + 1][..n] == es[..n];
    var before := Calls(es[..n]);
    assert es[..n + 1][n] == s[n].entry;
    if s[n].entry.name != "" {
      SplitStep(owned, before, CallOf(s[n]));
    } else {
      assert before + [] == before;
    }
  }

  /** counts holds, per name, the live client calls without an id. */
  ghost predicate CountsLive(owned: set<string>, counts: map<string, int>, s: seq<Shown>) {
    forall name :: name != "" && name !in owned ==> Lookup(counts, name) == LiveBefore(owned, s, |s|, name)
  }

  function Left(all: int, used: int): int { if used < all then all - used else 0 }

  lemma BeforeStep(owned: set<string>, s: seq<Shown>, n: nat, name: string)
    requires n < |s|
    ensures Before(owned, s, n + 1, name) == Before(owned, s, n, name) + (if Unnumbered(owned, s[n], name) then 1 else 0)
  {}

  /** What unstreamed has left of a name's count after the first n calls. */
  lemma {:induction false} SpentLeaves(owned: set<string>, ids: set<string>, counts: map<string, int>, s: seq<Shown>,
                                       n: nat, name: string)
    requires n <= |s| && CountsLive(owned, counts, s) && name != "" && name !in owned
    ensures Lookup(Spent(ids, counts, ClientsOf(owned, s, n)), name) ==
            Left(LiveBefore(owned, s, |s|, name), Before(owned, s, n, name))
  {
    hide Unstreamed, Spent, ClientsOf, Before, LiveBefore;
    if n == 0 {
      NoClients(owned, ids, counts, s);
    } else {
      SpentLeaves(owned, ids, counts, s, n - 1, name);
      ClientsStep(owned, s, n - 1);
      BeforeStep(owned, s, n - 1, name);
      var calls := ClientsOf(owned, s, n - 1);
      if Client(owned, s[n - 1]) {
        UnstreamedAppend(ids, counts, calls, CallOf(s[n - 1]));
      } else {
        assert calls + [] == calls;
      }
    }
  }

  /** unstreamed keeps exactly the calls that Keeps describes, in order. */
  lemma {:induction false} UnstreamedKeeps(owned: set<string>, ids: set<string>, counts: map<string, int>, s: seq<Shown>, n: nat)
    requires n <= |s| && CountsLive(owned, counts, s)
    ensures forall j :: 0 <= j < |Kept(owned, ids, s, n)| ==> Kept(owned, ids, s, n)[j] < |s|
    ensures Unstreamed(ids, counts, ClientsOf(owned, s, n)) == CallsAt(s, Kept(owned, ids, s, n))
  {
    hide Unstreamed, Spent, ClientsOf, Before, LiveBefore;
    KeptBelow(owned, ids, s, n);
    if n == 0 {
      NoClients(owned, ids, counts, s);
    } else {
      UnstreamedKeeps(owned, ids, counts, s, n - 1);
      ClientsStep(owned, s, n - 1);
      var x := s[n - 1];
      var calls := ClientsOf(owned, s, n - 1);
      if Client(owned, x) {
        UnstreamedAppend(ids, counts, calls, CallOf(x));
        SpentLeaves(owned, ids, counts, s, n - 1, x.entry.name);
      } else {
        assert calls + [] == calls;
      }
    }
  }

  lemma KeptBelow(owned: set<string>, ids: set<string>, s: seq<Shown>, n: nat)
    ensures forall j :: 0 <= j < |Kept(owned, ids, s, n)| ==> Kept(owned, ids, s, n)[j] < |s|
  {
    PositionsAre((u: nat) => Keeps(owned, ids, s, u), n);
    var kept := Kept(owned, ids, s, n);
    assert forall j :: 0 <= j < |kept| ==> kept[j] in kept;
  }

  lemma NoClients(owned: set<string>, ids: set<string>, counts: map<string, int>, s: seq<Shown>)
    ensures Unstreamed(ids, counts, ClientsOf(owned, s, 0)) == [] && Spent(ids, counts, ClientsOf(owned, s, 0)) == counts
    ensures forall name :: Before(owned, s, 0, name) == 0
  {
    assert Entries(s)[..0] == [];
  }

  // ---- When those are the missed calls ---------------------------------------------------

  /** Forwarding a call recorded its id. */
  ghost predicate LiveRecorded(owned: set<string>, ids: set<string>, s: seq<Shown>) {
    forall u :: 0 <= u < |s| && Client(owned, s[u]) && s[u].live && s[u].entry.id != "" ==> s[u].entry.id in ids
  }

  /** No missed call carries a streamed id. */
  predicate FreshIDs(owned: set<string>, ids: set<string>, s: seq<Shown>) {
    forall u :: 0 <= u < |s| && Missed(owned, s[u]) && s[u].entry.id != "" ==> s[u].entry.id !in ids
  }

  /** Of the client calls without an id under one name, the live ones come first. */
  predicate LiveFirst(owned: set<string>, s: seq<Shown>) {
    forall u, v ::
      0 <= u < |s| && 0 <= v < |s| && Missed(owned, s[u]) && s[u].entry.id == "" &&
      s[v].live && Unnumbered(owned, s[v], s[u].entry.name) ==>
      v < u
  }

  lemma MissedIsKept(owned: set<string>, ids: set<string>, s: seq<Shown>, u: nat)
    requires u < |s| && Missed(owned, s[u]) && FreshIDs(owned, ids, s) && LiveFirst(owned, s)
    ensures Keeps(owned, ids, s, u)
  {
    var name := s[u].entry.name;
    var some := (v: nat) => v < |s| && Unnumbered(owned, s[v], name);
    var live := (v: nat) => v < |s| && Unnumbered(owned, s[v], name) && s[v].live;
    PositionsMore(live, some, u);
    if s[u].entry.id == "" { PositionsGrow(live, u, |s|); }
  }

  lemma LiveIsSkipped(owned: set<string>, ids: set<string>, s: seq<Shown>, v: nat)
    requires v < |s| && s[v].live && LiveRecorded(owned, ids, s) && LiveFirst(owned, s)
    ensures !Keeps(owned, ids, s, v)
  {
    var name := s[v].entry.name;
    var some := (u: nat) => u < |s| && Unnumbered(owned, s[u], name);
    var live := (u: nat) => u < |s| && Unnumbered(owned, s[u], name) && s[u].live;
    if Client(owned, s[v]) && s[v].entry.id == "" {
      PositionsMore(some, live, v);
      PositionsGrow(live, v, |s|);
      assert live(v);
    }
  }

  lemma OutOfTurn(owned: set<string>, ids: set<string>, s: seq<Shown>, u: nat, v: nat)
    requires u < v < |s| && Unnumbered(owned, s[u], s[v].entry.name) && Unnumbered(owned, s[v], s[v].entry.name)
    ensures Keeps(owned, ids, s, u) ==> Keeps(owned, ids, s, v)
  {
    PositionsGrow((w: nat) => w < |s| && Unnumbered(owned, s[w], s[v].entry.name), u, v);
  }

  /** unstreamed keeps exactly the missed calls if and only if none of them carries a streamed id
      and, per name, the live calls without an id come before the missed ones. */
  lemma KeptExactly(owned: set<string>, ids: set<string>, s: seq<Shown>)
    requires LiveRecorded(owned, ids, s)
    ensures Kept(owned, ids, s, |s|) == AllMissed(owned, s) <==> FreshIDs(owned, ids, s) && LiveFirst(owned, s)
  {
    hide Before, LiveBefore;
    PositionsSame((u: nat) => Keeps(owned, ids, s, u), (u: nat) => u < |s| && Missed(owned, s[u]), |s|);
    if FreshIDs(owned, ids, s) && LiveFirst(owned, s) {
      forall u: nat | u < |s| ensures Keeps(owned, ids, s, u) == Missed(owned, s[u]) {
        if Missed(owned, s[u]) { MissedIsKept(owned, ids, s, u); }
        if s[u].live { LiveIsSkipped(owned, ids, s, u); }
      }
    }
    if Kept(owned, ids, s, |s|) == AllMissed(owned, s) {
      var keeps, missed := (u: nat) => Keeps(owned, ids, s, u), (u: nat) => u < |s| && Missed(owned, s[u]);
      forall u: nat | u < |s| ensures Keeps(owned, ids, s, u) == Missed(owned, s[u]) {
        assert keeps(u) == missed(u);
      }
      forall u: nat, v: nat | u < |s| && v < |s| && Missed(owned, s[u]) && s[u].entry.id == "" && s[v].live &&
        Unnumbered(owned, s[v], s[u].entry.name) ensures v < u
      {
        if u < v { OutOfTurn(owned, ids, s, u, v); }
      }
    }
  }

  // ---- Which entries are sent for the kept calls -----------------------------------------------

  predicate MatchesAt(s: seq<Shown>, u: nat, k: nat)
    requires u < |s| && k < |s|
  {
    s[u].entry.name != "" && Matches(s[u].entry, CallOf(s[k]))
  }

  ghost predicate Ascending(at: seq<nat>, n: nat) {
    (forall j :: 0 <= j < |at| ==> at[j] < n) && forall i, j :: 0 <= i < j < |at| ==> at[i] < at[j]
  }

  /** No entry strictly between from and n matches the call k. */
  ghost predicate Silent(s: seq<Shown>, from: int, n: nat, k: nat)
    requires n <= |s| && k < |s|
  {
    forall u: nat :: from < u < n ==> !MatchesAt(s, u, k)
  }

  function Previous(m: seq<nat>, j: nat): int
    requires j <= |m|
  {
    if j == 0 then -1 else m[j - 1]
  }

  /** m[j] is the first match of the kept call j after m[j - 1]. */
  ghost predicate Hits(s: seq<Shown>, kept: seq<nat>, m: seq<nat>, j: nat) {
    j < |kept| && j < |m| && kept[j] < |s| && m[j] < |s| &&
    MatchesAt(s, m[j], kept[j]) && Silent(s, Previous(m, j), m[j], kept[j])
  }

  /** Scanning the entries in order, the first match of each kept call after the previous one's is
      the corresponding entry of m. */
  ghost predicate Aims(s: seq<Shown>, kept: seq<nat>, m: seq<nat>) {
    |kept| == |m| && forall j: nat :: j < |m| ==> Hits(s, kept, m, j)
  }

  /** The entries taken for the kept calls. */
  function TakenFor(s: seq<Shown>, kept: seq<nat>, n: nat): seq<nat>
    requires n <= |s| && forall j :: 0 <= j < |kept| ==> kept[j] < |s|
  {
    Taken(CallsAt(s, kept), Entries(s), n)
  }

  lemma TakenStep(s: seq<Shown>, kept: seq<nat>, n: nat)
    requires n <= |s| && Ascending(kept, |s|)
    ensures |TakenFor(s, kept, n)| <= |kept| && TakenFor(s, kept, 0) == []
    ensures n < |s| ==>
      var r := TakenFor(s, kept, n);
      TakenFor(s, kept, n + 1) == if |r| < |kept| && MatchesAt(s, n, kept[|r|]) then r + [n] else r
  {}

  lemma {:induction false} AimedIsTaken(s: seq<Shown>, kept: seq<nat>, m: seq<nat>, n: nat) returns (c: nat)
    requires Ascending(kept, |s|) && Ascending(m, |s|) && Aims(s, kept, m) && n <= |s|
    ensures c <= |m| && TakenFor(s, kept, n) == m[..c]
    ensures (forall j :: 0 <= j < c ==> m[j] < n) && (c < |m| ==> n <= m[c])
  {
    hide TakenFor, MatchesAt;
    TakenStep(s, kept, 0);
    c := 0;
    if n > 0 {
      c := AimedIsTaken(s, kept, m, n - 1);
      TakenStep(s, kept, n - 1);
      if c < |m| {
        assert Hits(s, kept, m, c);
        if m[c] == n - 1 {
          assert m[..c + 1] == m[..c] + [m[c]];
          c := c + 1;
        } else {
          assert Previous(m, c) < n - 1;
        }
      }
    }
  }

  /** Every taken entry is the first match after the one before it. */
  ghost predicate Aimed(s: seq<Shown>, kept: seq<nat>, r: seq<nat>, n: nat) {
    Ascending(kept, |s|) && n <= |s| &&
    Ascending(r, n) && |r| <= |kept| && (forall j: nat :: j < |r| ==> Hits(s, kept, r, j)) &&
    (|r| < |kept| ==> Silent(s, Previous(r, |r|), n, kept[|r|]))
  }

  lemma AimedNothing(s: seq<Shown>, kept: seq<nat>)
    requires Ascending(kept, |s|)
    ensures Aimed(s, kept, [], 0)
  {}

  lemma AimedSkip(s: seq<Shown>, kept: seq<nat>, r: seq<nat>, n: nat)
    requires n < |s| && Aimed(s, kept, r, n) && (|r| < |kept| ==> !MatchesAt(s, n, kept[|r|]))
    ensures Aimed(s, kept, r, n + 1)
  {
    hide MatchesAt;
  }

  lemma AimedTake(s: seq<Shown>, kept: seq<nat>, r: seq<nat>, n: nat)
    requires n < |s| && Aimed(s, kept, r, n) && |r| < |kept| && MatchesAt(s, n, kept[|r|])
    ensures Aimed(s, kept, r + [n], n + 1)
  {
    hide MatchesAt;
    forall j: nat | j < |r + [n]| ensures Hits(s, kept, r + [n], j) {
      assert Previous(r + [n], j) == Previous(r, j);
      if j < |r| { assert Hits(s, kept, r, j); }
    }
  }

  lemma {:induction false} TakenAims(s: seq<Shown>, kept: seq<nat>, n: nat)
    requires Ascending(kept, |s|) && n <= |s|
    ensures Aimed(s, kept, TakenFor(s, kept, n), n)
  {
    hide TakenFor, MatchesAt, Aimed;
    if n == 0 {
      TakenStep(s, kept, 0);
      AimedNothing(s, kept);
    } else {
      TakenAims(s, kept, n - 1);
      TakenStep(s, kept, n - 1);
      var r := TakenFor(s, kept, n - 1);
      if |r| < |kept| && MatchesAt(s, n - 1, kept[|r|]) {
        AimedTake(s, kept, r, n - 1);
      } else {
        AimedSkip(s, kept, r, n - 1);
      }
    }
  }

  /** No kept call goes without an entry: its own is there at the latest. */
  lemma {:induction false} NoneUntaken(s: seq<Shown>, kept: seq<nat>, n: nat, c: nat)
    requires Ascending(kept, |s|) && n <= |s| && c <= |kept| && (forall j :: 0 <= j < c ==> kept[j] < n)
    requires forall j :: 0 <= j < |kept| ==> s[kept[j]].entry.name != ""
    ensures c <= |TakenFor(s, kept, n)|
  {
    hide TakenFor;
    if n > 0 {
      TakenStep(s, kept, n - 1);
      if c > 0 && kept[c - 1] == n - 1 {
        NoneUntaken(s, kept, n - 1, c - 1);
        if |TakenFor(s, kept, n - 1)| == c - 1 { assert MatchesAt(s, n - 1, kept[c - 1]); }
      } else {
        assert forall j :: 0 <= j < c ==> kept[j] < n - 1;
        NoneUntaken(s, kept, n - 1, c);
      }
    }
  }

  /** The entries taken for the kept calls are m if and only if they aim at m. */
  lemma TakenExactly(s: seq<Shown>, kept: seq<nat>, m: seq<nat>)
    requires Ascending(kept, |s|) && Ascending(m, |s|) && forall j :: 0 <= j < |kept| ==> s[kept[j]].entry.name != ""
    ensures TakenFor(s, kept, |s|) == m <==> Aims(s, kept, m)
  {
    hide MatchesAt, TakenFor, Hits;
    TakenStep(s, kept, |s|);
    if Aims(s, kept, m) {
      var c := AimedIsTaken(s, kept, m, |s|);
      assert c == |m| && m[..c] == m;
    }
    TakenAims(s, kept, |s|);
    NoneUntaken(s, kept, |s|, |kept|);
  }

  // ---- Calls that can be told apart ---------------------------------------------------------------

  /** Every missed call carries an id that was not streamed, or shares its name with no live call. */
  predicate Apart(owned: set<string>, ids: set<string>, s: seq<Shown>) {
    forall u :: 0 <= u < |s| && Missed(owned, s[u]) ==>
      if s[u].entry.id != "" then s[u].entry.id !in ids
      else forall v :: 0 <= v < |s| && Client(owned, s[v]) && s[v].live ==> s[v].entry.name != s[u].entry.name
  }

  lemma MissedAscend(owned: set<string>, ids: set<string>, s: seq<Shown>)
    ensures Ascending(Kept(owned, ids, s, |s|), |s|) && Ascending(AllMissed(owned, s), |s|)
    ensures forall u: nat :: u in AllMissed(owned, s) <==> u < |s| && Missed(owned, s[u])
    ensures forall u: nat :: u in Kept(owned, ids, s, |s|) <==> Keeps(owned, ids, s, u)
    ensures forall j :: 0 <= j < |Kept(owned, ids, s, |s|)| ==> Client(owned, s[Kept(owned, ids, s, |s|)[j]])
  {
    hide Before, LiveBefore;
    PositionsAre((u: nat) => Keeps(owned, ids, s, u), |s|);
    PositionsAre((u: nat) => u < |s| && Missed(owned, s[u]), |s|);
    var kept, missed := Kept(owned, ids, s, |s|), AllMissed(owned, s);
    assert forall j :: 0 <= j < |kept| ==> kept[j] in kept;
    assert forall j :: 0 <= j < |missed| ==> missed[j] in missed;
  }

  /** Then each missed call is kept, and its own entry is sent for it. */
  lemma ApartAims(owned: set<string>, ids: set<string>, s: seq<Shown>)
    requires LiveRecorded(owned, ids, s) && Apart(owned, ids, s)
    ensures Kept(owned, ids, s, |s|) == AllMissed(owned, s) && Aims(s, AllMissed(owned, s), AllMissed(owned, s))
  {
    hide Before, LiveBefore;
    KeptExactly(owned, ids, s);
    MissedAscend(owned, ids, s);
    var m := AllMissed(owned, s);
    forall j: nat | j < |m| ensures Hits(s, m, m, j) {
      assert m[j] in m;
      forall u: nat | Previous(m, j) < u < m[j] ensures !MatchesAt(s, u, m[j]) {
        assert u in m ==> exists i :: 0 <= i < |m| && m[i] == u;
        assert u !in m;
      }
    }
  }

  /** When every client call has an id, fresh ids are necessary as well. */
  lemma NumberedExactly(owned: set<string>, ids: set<string>, s: seq<Shown>)
    requires LiveRecorded(owned, ids, s) && forall u :: 0 <= u < |s| && Client(owned, s[u]) ==> s[u].entry.id != ""
    ensures Ascending(Kept(owned, ids, s, |s|), |s|)
    ensures TakenFor(s, Kept(owned, ids, s, |s|), |s|) == AllMissed(owned, s) <==> FreshIDs(owned, ids, s)
  {
    hide Before, LiveBefore, TakenFor;
    MissedAscend(owned, ids, s);
    var kept, m := Kept(owned, ids, s, |s|), AllMissed(owned, s);
    TakenExactly(s, kept, m);
    if FreshIDs(owned, ids, s) { ApartAims(owned, ids, s); }
    PositionsMore((u: nat) => Keeps(owned, ids, s, u), (u: nat) => u < |s| && Missed(owned, s[u]), |s|);
    if Aims(s, kept, m) {
      ShorterIsSame((u: nat) => Keeps(owned, ids, s, u), (u: nat) => u < |s| && Missed(owned, s[u]), |s|);
      KeptExactly(owned, ids, s);
    }
  }

  function NamesAt(s: seq<Shown>, at: seq<nat>): (r: seq<string>)
    requires forall j :: 0 <= j < |at| ==> at[j] < |s|
    ensures |r| == |at| && forall j :: 0 <= j < |at| ==> r[j] == s[at[j]].entry.name
  {
    seq(|at|, j requires 0 <= j < |at| => s[at[j]].entry.name)
  }

  /** Between a missed call and the missed call before it, no call has its name. */
  ghost predicate Unobstructed(s: seq<Shown>, m: seq<nat>)
    requires Ascending(m, |s|)
  {
    forall j: nat, u: nat :: j < |m| && Previous(m, j) < u < m[j] ==> s[u].entry.name != s[m[j]].entry.name
  }

  /** The kept call j has the name of the missed call j, which nothing obstructs. */
  ghost predicate HitsName(s: seq<Shown>, kept: seq<nat>, m: seq<nat>, j: nat)
    requires Ascending(kept, |s|) && Ascending(m, |s|) && j < |kept| == |m|
  {
    s[m[j]].entry.name == s[kept[j]].entry.name &&
    forall u: nat :: Previous(m, j) < u < m[j] ==> s[u].entry.name != s[m[j]].entry.name
  }

  lemma HitsByName(owned: set<string>, s: seq<Shown>, kept: seq<nat>, m: seq<nat>, j: nat)
    requires Ascending(kept, |s|) && Ascending(m, |s|) && j < |kept| == |m|
    requires Client(owned, s[kept[j]]) && s[kept[j]].entry.id == ""
    ensures Hits(s, kept, m, j) <==> HitsName(s, kept, m, j)
  {
    forall u: nat | u < |s| ensures MatchesAt(s, u, kept[j]) <==> s[u].entry.name == s[kept[j]].entry.name {}
    hide MatchesAt;
  }

  lemma NamesAim(s: seq<Shown>, kept: seq<nat>, m: seq<nat>)
    requires Ascending(kept, |s|) && Ascending(m, |s|) && |kept| == |m|
    ensures (forall j: nat :: j < |m| ==> HitsName(s, kept, m, j)) <==> NamesAt(s, kept) == NamesAt(s, m) && Unobstructed(s, m)
  {
    if forall j: nat :: j < |m| ==> HitsName(s, kept, m, j) {
      forall j: nat | j < |m| ensures NamesAt(s, kept)[j] == NamesAt(s, m)[j] { assert HitsName(s, kept, m, j); }
      forall j: nat, u: nat | j < |m| && Previous(m, j) < u < m[j] ensures s[u].entry.name != s[m[j]].entry.name {
        assert HitsName(s, kept, m, j);
      }
    }
    if NamesAt(s, kept) == NamesAt(s, m) && Unobstructed(s, m) {
      forall j: nat | j < |m| ensures HitsName(s, kept, m, j) {
        assert NamesAt(s, kept)[j] == NamesAt(s, m)[j];
      }
    }
  }

  /** When no client call has an id, only names count: those kept are the missed ones' names in
      order, and the way to each missed call is free of its name. */
  lemma UnnumberedAims(owned: set<string>, ids: set<string>, s: seq<Shown>)
    requires forall u :: 0 <= u < |s| && Client(owned, s[u]) ==> s[u].entry.id == ""
    ensures var kept, m := Kept(owned, ids, s, |s|), AllMissed(owned, s);
            Ascending(kept, |s|) && Ascending(m, |s|) &&
            (Aims(s, kept, m) <==> NamesAt(s, kept) == NamesAt(s, m) && Unobstructed(s, m))
  {
    hide Kept, AllMissed, Keeps, Hits, HitsName, Unobstructed;
    MissedAscend(owned, ids, s);
    var kept, m := Kept(owned, ids, s, |s|), AllMissed(owned, s);
    if |kept| == |m| {
      forall j: nat | j < |m| ensures Hits(s, kept, m, j) <==> HitsName(s, kept, m, j) { HitsByName(owned, s, kept, m, j); }
      NamesAim(s, kept, m);
    }
  }

  lemma {:induction false} ShorterIsSame(p: nat -> bool, q: nat -> bool, n: nat)
    requires forall u: nat :: u < n && p(u) ==> q(u)
    requires |Positions(p, n)| == |Positions(q, n)|
    ensures Positions(p, n) == Positions(q, n)
  {
    if n > 0 {
      PositionsMore(p, q, n - 1);
      ShorterIsSame(p, q, n - 1);
    }
  }
}
