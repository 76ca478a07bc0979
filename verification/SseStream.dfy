/** What the first-token detector computes: split the stream into lines, group them into events
    at blank lines, join each event's data and classify the events that are not oversized
    (latency.go). */
module SseStream {
  import opened Seqs
  import opened SseDetector

  // ---- The simple reading of a stream -----------------------------------------------

  /** The complete lines of p and the unfinished one after the last newline. */
  function Lines(p: Bytes): (seq<Bytes>, Bytes) {
    if p == [] then ([], [])
    else
      var (complete, tail) := Lines(p[..|p| - 1]);
      var last := p[|p| - 1];
      if last == 10 then (complete + [tail], []) else (complete, tail + [last])
  }

  /** Nothing, or a lone carriage return. */
  predicate Blank(line: Bytes) { line == [] || line == [13] }

  /** The line begins with "data:". */
  predicate HasData(line: Bytes) { [100, 97, 116, 97, 58] <= line }

  /** What follows the colon, less one space in front and one carriage return at the end. */
  function RawValue(line: Bytes): Bytes
    requires HasData(line)
  {
    var from := if |line| > 5 && line[5] == 32 then 6 else 5;
    var to := if line[|line| - 1] == 13 then |line| - 1 else |line|;
    assert line[4] == 58;
    line[from..to]
  }

  /** The events closed by a blank line and the lines of the one still open. */
  function Events(lines: seq<Bytes>): (seq<seq<Bytes>>, seq<Bytes>) {
    if lines == [] then ([], [])
    else
      var (closed, current) := Events(lines[..|lines| - 1]);
      var last := lines[|lines| - 1];
      if Blank(last) then (closed + [current], []) else (closed, current + [last])
  }

  /** Some line of the event is longer than the buffer. */
  ghost predicate Overlong(event: seq<Bytes>) {
    exists l :: l in event && |l| > 65536
  }

  /** The values of the event's data lines. */
  function Values(event: seq<Bytes>): seq<Bytes> {
    if event == [] then []
    else
      var line := event[|event| - 1];
      Values(event[..|event| - 1]) + (if |line| <= 65536 && HasData(line) then [RawValue(line)] else [])
  }

  function JoinLF(values: seq<Bytes>): Bytes {
    if values == [] then []
    else if |values| == 1 then values[0]
    else JoinLF(values[..|values| - 1]) + [10] + values[|values| - 1]
  }

  /** The joined data does not fit the buffer. */
  predicate Oversized(values: seq<Bytes>) {
    |JoinLF(values)| > 65536
  }

  ghost predicate Skipped(event: seq<Bytes>) {
    Overlong(event) || Oversized(Values(event))
  }

  ghost function Judge(classify: Bytes -> Verdict, event: seq<Bytes>): Verdict {
    if Skipped(event) || Values(event) == [] then Control else classify(JoinLF(Values(event)))
  }

  /** Some closed event of the lines was judged v. */
  ghost predicate Judged(classify: Bytes -> Verdict, lines: seq<Bytes>, v: Verdict) {
    exists e :: e in Events(lines).0 && Judge(classify, e) == v
  }

  // ---- The detector's state is that reading ------------------------------------------

  ghost predicate EventReads(s: State, current: seq<Bytes>, skip: bool) {
    (s.skipEvent <==> skip || Skipped(current)) &&
    (!s.skipEvent ==> (s.hasData <==> Values(current) != []) && s.data == JoinLF(Values(current)))
  }

  ghost predicate LinesRead(classify: Bytes -> Verdict, s: State, token: bool, lines: seq<Bytes>, skip: bool) {
    EventReads(s, Events(lines).1, skip) &&
    (token <==> Judged(classify, lines, Token)) &&
    (s.sawError <==> Judged(classify, lines, Error))
  }

  /** The detector after p, having reported token: partial line, open event and verdicts. */
  ghost predicate Reads(classify: Bytes -> Verdict, s: State, token: bool, p: Bytes) {
    var (complete, tail) := Lines(p);
    var long := |tail| > MAX_SSE_BUFFER_BYTES;
    s.skipLine == long && s.line == (if long then [] else tail) &&
    LinesRead(classify, s, token, complete, long)
  }

  /** The detector's trimming and cutting read a line as it is. */
  lemma LineReads(raw: Bytes)
    ensures TrimCR(raw) == [] <==> Blank(raw)
    ensures IsData(TrimCR(raw)) <==> HasData(raw)
    ensures HasData(raw) ==> DataValue(TrimCR(raw)) == RawValue(raw)
  {
    assert DATA[4] == 58;
    if raw != [] && raw[|raw| - 1] == CR {
      var line := raw[..|raw| - 1];
      assert HasData(raw) ==> raw[4] == 58;
      assert forall i :: 0 <= i < |line| ==> line[i] == raw[i];
    }
  }

  /** Any value is read back, with or without the optional space and with either line end. */
  lemma ValueRoundTrip(v: Bytes)
    requires v == [] || v[|v| - 1] != 13
    ensures var data: Bytes := [100, 97, 116, 97, 58];
            RawValue(data + [32] + v) == v && RawValue(data + [32] + v + [13]) == v &&
            (v == [] || v[0] != 32 ==> RawValue(data + v) == v && RawValue(data + v + [13]) == v)
  {
    var data: Bytes := [100, 97, 116, 97, 58];
    assert forall tail: Bytes :: data <= data + tail;
    assert data + [32] + v == data + ([32] + v) && data + [32] + v + [13] == data + ([32] + v + [13]) && data + v + [13] == data + (v + [13]);
  }

  lemma ValuesAppend(event: seq<Bytes>, raw: Bytes)
    ensures Values(event + [raw]) == Values(event) + (if |raw| <= 65536 && HasData(raw) then [RawValue(raw)] else [])
    ensures Overlong(event + [raw]) <==> Overlong(event) || |raw| > 65536
  {
    assert (event + [raw])[..|event|] == event;
    assert raw in event + [raw];
    assert forall l :: l in event ==> l in event + [raw];
  }

  /** The running check against the buffer, which refuses a sum that would just fill it, decides
      Oversized: a value is shorter than the line it comes from, so it never fills the buffer alone. */
  lemma OversizedStep(values: seq<Bytes>, raw: Bytes)
    requires |raw| <= MAX_SSE_BUFFER_BYTES && HasData(raw)
    ensures var v := RawValue(raw);
            (Oversized(values) ==> Oversized(values + [v])) &&
            (!Oversized(values) ==> (Oversized(values + [v]) <==> |JoinLF(values)| + |v| >= MAX_SSE_BUFFER_BYTES)) &&
            JoinLF(values + [v]) == if values == [] then v else JoinLF(values) + [LF] + v
  {
    var v := RawValue(raw);
    assert |v| < |raw|;
    assert (values + [v])[..|values|] == values;
  }

  lemma EventsAppend(lines: seq<Bytes>, raw: Bytes)
    ensures Events(lines + [raw]) ==
            if Blank(raw) then (Events(lines).0 + [Events(lines).1], []) else (Events(lines).0, Events(lines).1 + [raw])
  {
    assert (lines + [raw])[..|lines|] == lines;
  }

  lemma JudgedAppend(classify: Bytes -> Verdict, lines: seq<Bytes>, raw: Bytes, v: Verdict)
    ensures Judged(classify, lines + [raw], v) <==>
            Judged(classify, lines, v) || (Blank(raw) && Judge(classify, Events(lines).1) == v)
  {
    EventsAppend(lines, raw);
    var (closed, current) := Events(lines);
    assert current in closed + [current];
    assert forall e :: e in closed + [current] <==> e in closed || e == current;
  }

  /** A line that is not blank only extends the open event. */
  lemma DataLineReads(classify: Bytes -> Verdict, s: State, current: seq<Bytes>, raw: Bytes)
    requires EventReads(s, current, false) && !Blank(raw) && |raw| <= MAX_SSE_BUFFER_BYTES
    ensures var (s', token) := ProcessLine(classify, s, raw);
            EventReads(s', current + [raw], false) && !token && s'.sawError == s.sawError
  {
    LineReads(raw);
    ValuesAppend(current, raw);
    hide TrimCR, IsData, DataValue, HasData, RawValue, Values;
    var values := Values(current);
    assert values + [] == values;
    if HasData(raw) {
      OversizedStep(values, raw);
      assert JoinLF([]) == [] && [] + RawValue(raw) == RawValue(raw);
    }
  }

  /** Processing one complete line, which fits the buffer. */
  lemma ProcessReads(classify: Bytes -> Verdict, s: State, token: bool, lines: seq<Bytes>, raw: Bytes)
    requires LinesRead(classify, s, token, lines, false) && |raw| <= MAX_SSE_BUFFER_BYTES
    ensures var (s', t) := ProcessLine(classify, s, raw);
            LinesRead(classify, s', token || t, lines + [raw], false) && s'.line == s.line && s'.skipLine == s.skipLine
  {
    EventsAppend(lines, raw);
    JudgedAppend(classify, lines, raw, Token);
    JudgedAppend(classify, lines, raw, Error);
    LineReads(raw);
    if Blank(raw) {
      assert !Overlong([]) && Values([]) == [];
    } else {
      DataLineReads(classify, s, Events(lines).1, raw);
    }
  }

  /** An overlong line only marks its event. */
  lemma OverlongReads(classify: Bytes -> Verdict, s: State, token: bool, lines: seq<Bytes>, raw: Bytes)
    requires LinesRead(classify, s, token, lines, true) && |raw| > MAX_SSE_BUFFER_BYTES
    ensures LinesRead(classify, s, token, lines + [raw], false)
  {
    EventsAppend(lines, raw);
    JudgedAppend(classify, lines, raw, Token);
    JudgedAppend(classify, lines, raw, Error);
    ValuesAppend(Events(lines).1, raw);
  }

  lemma StepReads(classify: Bytes -> Verdict, s: State, token: bool, p: Bytes, b: bv8)
    requires Reads(classify, s, token, p)
    ensures var (s', t) := Step(classify, s, b); Reads(classify, s', token || t, p + [b])
  {
    hide Events, Values, JoinLF, ProcessLine;
    assert (p + [b])[..|p|] == p;
    var (complete, tail) := Lines(p);
    if b == LF {
      if s.skipLine {
        OverlongReads(classify, s, token, complete, tail);
      } else {
        ProcessReads(classify, s.(line := []), token, complete, tail);
      }
    }
  }

  lemma {:induction false} ScanReads(classify: Bytes -> Verdict, p: Bytes)
    ensures var (s, token) := Scan(classify, INITIAL, p); Reads(classify, s, token, p)
    decreases |p|
  {
    if p == [] {
      assert !Overlong([]);
    } else {
      var q, b := p[..|p| - 1], p[|p| - 1];
      ScanReads(classify, q);
      ScanConcat(classify, INITIAL, q, [b]);
      assert p == q + [b];
      var (s, token) := Scan(classify, INITIAL, q);
      StepReads(classify, s, token, q, b);
      assert Scan(classify, s, [b]) == Step(classify, s, b) by {
        assert [b][1..] == [];
      }
    }
  }

  /** Writes one after the other, with the or of their results. */
  function FeedAll(classify: Bytes -> Verdict, s: State, chunks: seq<Bytes>): (State, bool)
    decreases |chunks|
  {
    if chunks == [] then (s, false)
    else
      var (s1, t1) := Scan(classify, s, chunks[0]);
      var (s2, t2) := FeedAll(classify, s1, chunks[1..]);
      (s2, t1 || t2)
  }

  /** The cut of a stream into writes does not matter. */
  lemma {:induction false} ChunksScan(classify: Bytes -> Verdict, s: State, chunks: seq<Bytes>)
    ensures FeedAll(classify, s, chunks) == Scan(classify, s, Concat(chunks))
    decreases |chunks|
  {
    if chunks != [] {
      ScanConcat(classify, s, chunks[0], Concat(chunks[1..]));
      ChunksScan(classify, Scan(classify, s, chunks[0]).0, chunks[1..]);
    }
  }

  /** Over any sequence of writes, the detector reports a token exactly when some closed event of
      the whole stream is one, records an error exactly when some closed event is one, and keeps
      both buffers within 64 KiB. */
  lemma DetectorReadsStream(classify: Bytes -> Verdict, chunks: seq<Bytes>)
    ensures var (s, token) := FeedAll(classify, INITIAL, chunks);
            var lines := Lines(Concat(chunks)).0;
            Bounded(s) &&
            (token <==> Judged(classify, lines, Token)) &&
            (s.sawError <==> Judged(classify, lines, Error))
  {
    ChunksScan(classify, INITIAL, chunks);
    ScanReads(classify, Concat(chunks));
    ScanBounded(classify, INITIAL, Concat(chunks));
  }

  // ---- Line ends and joins -----------------------------------------------------------

  /** p with every LF turned into CR LF. */
  function CrLf(p: Bytes): Bytes {
    if p == [] then []
    else CrLf(p[..|p| - 1]) + (if p[|p| - 1] == 10 then [13, 10] else [p[|p| - 1]])
  }

  function WithCR(lines: seq<Bytes>): (r: seq<Bytes>)
    ensures |r| == |lines| && forall i :: 0 <= i < |lines| ==> r[i] == lines[i] + [13]
  {
    if lines == [] then [] else WithCR(lines[..|lines| - 1]) + [lines[|lines| - 1] + [13]]
  }

  lemma LinesAppend(p: Bytes, b: bv8)
    ensures Lines(p + [b]) ==
            if b == 10 then (Lines(p).0 + [Lines(p).1], []) else (Lines(p).0, Lines(p).1 + [b])
  {
    assert (p + [b])[..|p|] == p;
  }

  lemma WithCRAppend(lines: seq<Bytes>, l: Bytes)
    ensures WithCR(lines + [l]) == WithCR(lines) + [l + [13]]
  {
    assert (lines + [l])[..|lines|] == lines;
  }

  lemma {:induction false} CrLfLines(p: Bytes)
    ensures Lines(CrLf(p)) == (WithCR(Lines(p).0), Lines(p).1)
  {
    if p != [] {
      var q, b := p[..|p| - 1], p[|p| - 1];
      assert p == q + [b];
      CrLfLines(q);
      LinesAppend(q, b);
      if b == 10 {
        LinesAppend(CrLf(q), 13);
        LinesAppend(CrLf(q) + [13], 10);
        assert CrLf(q) + [13] + [10] == CrLf(q) + [13, 10];
        WithCRAppend(Lines(q).0, Lines(q).1);
      } else {
        LinesAppend(CrLf(q), b);
      }
    }
  }

  /** Lines without CR that stay short of the buffer by one. */
  ghost predicate Plain(lines: seq<Bytes>) {
    forall l: Bytes :: l in lines ==> 13 !in l && |l| < 65536
  }

  lemma PlainLine(l: Bytes)
    requires 13 !in l
    ensures Blank(l + [13]) <==> Blank(l)
    ensures HasData(l + [13]) <==> HasData(l)
    ensures HasData(l) ==> RawValue(l + [13]) == RawValue(l)
  {
    assert l != [] ==> l[|l| - 1] in l;
    assert HasData(l + [13]) ==> (l + [13])[4] == 58;
  }

  lemma {:induction false} PlainValues(event: seq<Bytes>)
    requires Plain(event)
    ensures Values(WithCR(event)) == Values(event) && !Overlong(event) && !Overlong(WithCR(event))
  {
    if event != [] {
      var init, l := event[..|event| - 1], event[|event| - 1];
      assert event == init + [l] && l in event;
      assert Plain(init);
      PlainValues(init);
      PlainLine(l);
      ValuesAppend(init, l);
      WithCRAppend(init, l);
      ValuesAppend(WithCR(init), l + [13]);
    }
  }

  function AllWithCR(events: seq<seq<Bytes>>): (r: seq<seq<Bytes>>)
    ensures |r| == |events| && forall i :: 0 <= i < |events| ==> r[i] == WithCR(events[i])
  {
    if events == [] then [] else AllWithCR(events[..|events| - 1]) + [WithCR(events[|events| - 1])]
  }

  ghost predicate AllPlain(events: seq<seq<Bytes>>) {
    forall e :: e in events ==> Plain(e)
  }

  lemma {:induction false} PlainEvents(lines: seq<Bytes>)
    requires Plain(lines)
    ensures Events(WithCR(lines)) == (AllWithCR(Events(lines).0), WithCR(Events(lines).1))
    ensures AllPlain(Events(lines).0) && Plain(Events(lines).1)
  {
    if lines != [] {
      var init, l := lines[..|lines| - 1], lines[|lines| - 1];
      assert lines == init + [l] && l in lines;
      assert Plain(init);
      PlainEvents(init);
      PlainLine(l);
      EventsAppend(init, l);
      WithCRAppend(init, l);
      EventsAppend(WithCR(init), l + [13]);
      var (closed, current) := Events(init);
      assert (closed + [current])[..|closed|] == closed;
      WithCRAppend(current, l);
    }
  }

  lemma PlainJudge(classify: Bytes -> Verdict, event: seq<Bytes>)
    requires Plain(event)
    ensures Judge(classify, WithCR(event)) == Judge(classify, event)
  {
    hide Values;
    PlainValues(event);
  }

  /** An event judged v among some is one among others judged alike. */
  lemma JudgedAlike(classify: Bytes -> Verdict, events: seq<seq<Bytes>>, others: seq<seq<Bytes>>, v: Verdict)
    requires |events| == |others| && forall i :: 0 <= i < |events| ==> Judge(classify, others[i]) == Judge(classify, events[i])
    requires exists e :: e in events && Judge(classify, e) == v
    ensures exists e :: e in others && Judge(classify, e) == v
  {
    hide Judge;
    var e :| e in events && Judge(classify, e) == v;
    var i :| 0 <= i < |events| && events[i] == e;
    assert others[i] in others && Judge(classify, others[i]) == v;
  }

  lemma PlainJudged(classify: Bytes -> Verdict, lines: seq<Bytes>, v: Verdict)
    requires Plain(lines)
    ensures Judged(classify, WithCR(lines), v) <==> Judged(classify, lines, v)
  {
    hide Events, Judge, Plain;
    PlainEvents(lines);
    var events, others := Events(lines).0, Events(WithCR(lines)).0;
    forall i | 0 <= i < |events| ensures Judge(classify, others[i]) == Judge(classify, events[i]) {
      assert events[i] in events;
      PlainJudge(classify, events[i]);
    }
    if Judged(classify, lines, v) { JudgedAlike(classify, events, others, v); }
    if Judged(classify, WithCR(lines), v) { JudgedAlike(classify, others, events, v); }
  }

  lemma {:induction false} LinesWithoutCR(p: Bytes)
    requires 13 !in p
    ensures 13 !in Lines(p).1 && forall l: Bytes :: l in Lines(p).0 ==> 13 !in l
  {
    if p != [] {
      assert p[|p| - 1] in p && forall b :: b in p[..|p| - 1] ==> b in p;
      LinesWithoutCR(p[..|p| - 1]);
    }
  }

  /** Line ends do not matter: a stream without CR whose lines leave room for one gives the same
      verdicts when every LF is sent as CR LF, however either is cut into writes. */
  lemma LineEndsDoNotMatter(classify: Bytes -> Verdict, chunks: seq<Bytes>, crlf: seq<Bytes>)
    requires 13 !in Concat(chunks) && Concat(crlf) == CrLf(Concat(chunks))
    requires forall l :: l in Lines(Concat(chunks)).0 ==> |l| < 65536
    ensures var (s, token) := FeedAll(classify, INITIAL, chunks);
            var (s', token') := FeedAll(classify, INITIAL, crlf);
            token == token' && s.sawError == s'.sawError
  {
    hide Lines, Events, Values, Judge;
    var p := Concat(chunks);
    LinesWithoutCR(p);
    CrLfLines(p);
    PlainJudged(classify, Lines(p).0, Token);
    PlainJudged(classify, Lines(p).0, Error);
    DetectorReadsStream(classify, chunks);
    DetectorReadsStream(classify, crlf);
  }

  lemma {:induction false} LinesTail(p: Bytes, v: Bytes)
    requires 10 !in v && Lines(p).1 == []
    ensures Lines(p + v) == (Lines(p).0, v)
  {
    if v == [] {
      assert p + v == p;
    } else {
      var w, b := v[..|v| - 1], v[|v| - 1];
      assert v == w + [b] && b in v && p + v == (p + w) + [b];
      LinesTail(p, w);
      LinesAppend(p + w, b);
    }
  }

  /** Joined values are their lines: splitting the join gives them back. */
  lemma {:induction false} JoinSplits(values: seq<Bytes>)
    requires values != [] && forall v: Bytes :: v in values ==> 10 !in v
    ensures Lines(JoinLF(values) + [10]) == (values, [])
  {
    var init, v := values[..|values| - 1], values[|values| - 1];
    assert values == init + [v] && v in values;
    if init == [] {
      LinesTail([], v);
      assert [] + v == v;
      LinesAppend(v, 10);
      assert [v] == values;
    } else {
      JoinSplits(init);
      LinesTail(JoinLF(init) + [10], v);
      LinesAppend(JoinLF(init) + [10] + v, 10);
    }
  }
}
